/** What the loop decides in each iteration of every run, over what its collaborators answer. */
module LoopDecisions {
  import opened Wrappers
  import opened Text
  import opened BoundedLoops
  import opened LoopBudgets

  /** What the loop hears at the start of an iteration; the action and its recording are asked for only when in time. */
  datatype Heard<!W(!new)> = Heard(cancelled: bool, inTime: bool, action: Result<Action, string>, refusal: Option<string>, world: W)

  /** The model is told its turn, the repairs so far, what is left of the two budgets and the last result. */
  function Told(b: Budgets, o: Outcome): Context {
    Context(o.modelTurns + 1, o.repairs,
            if o.toolCalls < b.toolCalls then b.toolCalls - o.toolCalls else 0,
            if o.outputBytes < b.outputBytes then b.outputBytes - o.outputBytes else 0,
            o.lastResult)
  }

  function HeardAt<W(!new)>(env: Collaborators<W>, b: Budgets, s: State<W>): Heard<W> {
    var (w, cancelled) := env.cancelled(s.world);
    var (v, ms) := env.elapsedMs(w);
    var (x, action) := env.nextAction(v, Told(b, s.now.outcome));
    var (y, refusal) := if action.Ok? then env.modelTurn(x, action.value) else (x, None);
    var inTime := ms < b.wallTimeMs && s.now.outcome.modelTurns < b.modelTurns;
    Heard(cancelled, inTime, action, refusal, if cancelled then w else if inTime then y else v)
  }

  predicate LetThrough<W(!new)>(h: Heard<W>) {
    !h.cancelled && h.inTime && h.action.Ok? && h.refusal.None?
  }

  predicate NeedsKey(operation: string) {
    operation == "patch.apply" || operation == "validation.run" || operation == "artifact.publish"
  }

  predicate MayRun(allowed: set<string>, request: ToolRequest) {
    && request.operation in allowed
    && (NeedsKey(request.operation) ==>
          request.key.Some? && !IsBlank(request.key.value) && ByteLength(request.key.value) <= 160)
  }

  /** The largest budget is never exceeded, as the comparison saturates there. */
  predicate Fits(b: Budgets, used: nat, more: nat) {
    used + more <= b.outputBytes || b.outputBytes == U64_LIMIT - 1
  }

  predicate Asks<W(!new)>(h: Heard<W>) {
    LetThrough(h) && h.action.value.Tool?
  }

  predicate Finishes<W(!new)>(h: Heard<W>) {
    LetThrough(h) && h.action.value.Finish?
  }

  /** The request goes to the tools. */
  predicate Hands<W(!new)>(allowed: set<string>, b: Budgets, s: State<W>, h: Heard<W>) {
    Asks(h) && s.now.outcome.toolCalls < b.toolCalls && MayRun(allowed, h.action.value.request)
  }

  /** What came of a request at the tools: their answer, and whether the observer recorded it. */
  datatype Served<!W(!new)> = Served(result: Result<ToolResult, string>, refusal: Option<string>, world: W)

  function ServedAt<W(!new)>(env: Collaborators<W>, world: W, request: ToolRequest): Served<W> {
    var (w, result) := env.execute(world, request);
    var (v, refusal) := if result.Ok? then env.toolCall(w, request, result.value) else (w, None);
    Served(result, refusal, v)
  }

  predicate IsDigestText(s: string) {
    |s| == 64 && forall i | 0 <= i < |s| :: s[i] in "0123456789abcdefABCDEF"
  }

  lemma DigestTextIs(s: string)
    ensures IsDigestText(s) <==> IsSha256(s)
  {
    assert forall c: char :: c in "0123456789abcdefABCDEF" <==> IsHexDigit(c);
  }

  predicate Answers(request: ToolRequest, result: ToolResult) {
    result.id == request.id && result.operation == request.operation && IsDigestText(result.digest)
  }

  /** The result of the request is taken in. */
  predicate Takes<W(!new)>(b: Budgets, s: State<W>, request: ToolRequest, v: Served<W>) {
    v.result.Ok? && v.refusal.None? && Answers(request, v.result.value) && Fits(b, s.now.outcome.outputBytes, v.result.value.outputBytes)
  }

  // ------------------------------------------------------------------------ before the tools

  ghost predicate Begins<W(!new)>(env: Collaborators<W>, allowed: set<string>, b: Budgets, s: State<W>, t: State<W>) {
    var h, o := HeardAt(env, b, s), t.now.outcome;
    && t.executed == s.executed + (if Hands(allowed, b, s, h) then [h.action.value.request] else [])
    && o.modelTurns == s.now.outcome.modelTurns + (if !h.cancelled && h.inTime then 1 else 0)
    && o.toolCalls == s.now.outcome.toolCalls + (if Hands(allowed, b, s, h) then 1 else 0)
    && (o.status == Cancelled <==> h.cancelled)
    && (o.status == Completed <==>
          && Finishes(h) && !IsBlank(h.action.value.summary)
          && Fits(b, s.now.outcome.outputBytes, ByteLength(h.action.value.summary)))
    && (o.status == Completed ==> o.summary == Some(h.action.value.summary))
    && (EndedWith(o, BudgetExhausted) <==>
          && !h.cancelled
          && (|| !h.inTime
              || (Asks(h) && s.now.outcome.toolCalls >= b.toolCalls)
              || (Finishes(h) && o.status != Completed)))
    && (o.code == Some(OperationUnsupported) <==>
          Asks(h) && s.now.outcome.toolCalls < b.toolCalls && h.action.value.request.operation !in allowed)
    && (o.code == Some(IdempotencyRequired) <==>
          && Asks(h) && s.now.outcome.toolCalls < b.toolCalls && h.action.value.request.operation in allowed
          && !MayRun(allowed, h.action.value.request))
  }

  // ------------------------------------------------------------------------- after the tools

  ghost predicate Continues<W(!new)>(env: Collaborators<W>, allowed: set<string>, b: Budgets, s: State<W>, t: State<W>) {
    var h, o := HeardAt(env, b, s), t.now.outcome;
    if !Hands(allowed, b, s, h) then
      && t.now.done && t.world == h.world && t.accepted == s.accepted && o.code != Some(ToolResultInvalid)
      && (forall c :: o.code == Some(Reported(c)) <==>
            !h.cancelled && h.inTime && (h.action == Err(c) || (h.action.Ok? && h.refusal == Some(c))))
    else
      var request := h.action.value.request;
      var v := ServedAt(env, h.world, request);
      && t.world == v.world
      && t.accepted == s.accepted + (if Takes(b, s, request, v) then [Accepted(request, v.result.value)] else [])
      && (forall c :: o.code == Some(Reported(c)) <==> v.result == Err(c) || (v.result.Ok? && v.refusal == Some(c)))
      && (o.code == Some(ToolResultInvalid) <==> v.result.Ok? && v.refusal.None? && !Takes(b, s, request, v))
      && (t.now.done <==>
            || !Takes(b, s, request, v)
            || StalledAt(t.accepted, |t.accepted|)
            || (request.operation == "validation.run" && v.result.value.status != "succeeded" && s.now.outcome.repairs >= b.repairs))
  }

  lemma SaturatingFits(b: Budgets, used: nat, more: nat)
    ensures SaturatingAdd(used, more) <= b.outputBytes <==> Fits(b, used, more)
  {
  }

  lemma AuthorityIs(allowed: set<string>, request: ToolRequest)
    ensures MayRun(allowed, request) <==> Authorized(allowed, request)
  {
  }

  lemma ToldIs(b: Budgets, o: Outcome)
    ensures ContextOf(b, o.(modelTurns := o.modelTurns + 1)) == Told(b, o)
  {
  }

  /** One iteration that does not reach a tool request. */
  ghost predicate Stops<W(!new)>(b: Budgets, s: State<W>, h: Heard<W>, t: State<W>) {
    var p := Spend(s.now, 1, 0);
    && t.world == h.world && t.executed == s.executed && t.accepted == s.accepted
    && t.now == if h.cancelled then Terminal(s.now, Cancelled, HarnessCancelled)
                else if !h.inTime then Terminal(s.now, Partial, BudgetExhausted)
                else if h.action.Err? then Terminal(p, Failed, Reported(h.action.error))
                else if h.refusal.Some? then Terminal(p, Failed, Reported(h.refusal.value))
                else if h.action.value.Finish? then FinishLoop(b, p, h.action.value.summary)
                else t.now
  }

  lemma AdvanceStops<W(!new)>(env: Collaborators<W>, allowed: set<string>, b: Budgets, s: State<W>)
    ensures var h := HeardAt(env, b, s);
            var t := Advance(env, allowed, b, s);
            if Asks(h) then t == CallTool(env, allowed, b, s.(world := h.world, now := Spend(s.now, 1, 0)), h.action.value.request)
            else Stops(b, s, h, t)
  {
    ToldIs(b, s.now.outcome);
    hide CallTool, FinishLoop, ContextOf, Told;
  }

  ghost predicate MayDecide<W(!new)>(s: State<W>) {
    !s.now.done && Concluded(s.now)
  }

  lemma AdvanceBegins<W(!new)>(env: Collaborators<W>, allowed: set<string>, b: Budgets, s: State<W>)
    requires MayDecide(s)
    ensures Begins(env, allowed, b, s, Advance(env, allowed, b, s))
  {
    var h := HeardAt(env, b, s);
    AdvanceStops(env, allowed, b, s);
    hide Advance, HeardAt, IsBlank, ByteLength;
    if Asks(h) {
      CallBegins(env, allowed, b, s, h.world, h.action.value.request);
      hide CallTool;
    } else if Finishes(h) {
      SaturatingFits(b, s.now.outcome.outputBytes, ByteLength(h.action.value.summary));
      hide SaturatingAdd;
    }
  }

  lemma CallBegins<W(!new)>(env: Collaborators<W>, allowed: set<string>, b: Budgets, s: State<W>, w: W, request: ToolRequest)
    requires MayDecide(s)
    ensures var t := CallTool(env, allowed, b, s.(world := w, now := Spend(s.now, 1, 0)), request);
            var o, p := t.now.outcome, s.now.outcome;
            var handed := p.toolCalls < b.toolCalls && MayRun(allowed, request);
            && t.executed == s.executed + (if handed then [request] else [])
            && o.modelTurns == p.modelTurns + 1 && o.toolCalls == p.toolCalls + (if handed then 1 else 0)
            && o.status != Cancelled && o.status != Completed
            && (EndedWith(o, BudgetExhausted) <==> p.toolCalls >= b.toolCalls)
            && (o.code == Some(OperationUnsupported) <==> p.toolCalls < b.toolCalls && request.operation !in allowed)
            && (o.code == Some(IdempotencyRequired) <==>
                  p.toolCalls < b.toolCalls && request.operation in allowed && !MayRun(allowed, request))
  {
    AuthorityIs(allowed, request);
    hide HasUsableKey, MayRun, Acceptable, WrappingAdd;
  }

  lemma AdvanceContinues<W(!new)>(env: Collaborators<W>, allowed: set<string>, b: Budgets, s: State<W>)
    requires MayDecide(s) && Kept(allowed, b, s)
    ensures Continues(env, allowed, b, s, Advance(env, allowed, b, s))
  {
    var h := HeardAt(env, b, s);
    AdvanceStops(env, allowed, b, s);
    hide Advance, HeardAt, IsBlank, ByteLength, Kept;
    if Asks(h) {
      CallContinues(env, allowed, b, s, h.world, h.action.value.request);
      hide CallTool;
    }
  }

  lemma CallContinues<W(!new)>(env: Collaborators<W>, allowed: set<string>, b: Budgets, s: State<W>, w: W, request: ToolRequest)
    requires MayDecide(s) && Kept(allowed, b, s)
    ensures var t := CallTool(env, allowed, b, s.(world := w, now := Spend(s.now, 1, 0)), request);
            var o := t.now.outcome;
            if !(s.now.outcome.toolCalls < b.toolCalls && MayRun(allowed, request)) then
              && t.now.done && t.world == w && t.accepted == s.accepted && o.code != Some(ToolResultInvalid)
              && forall c :: o.code != Some(Reported(c))
            else
              var v := ServedAt(env, w, request);
              && t.world == v.world
              && t.accepted == s.accepted + (if Takes(b, s, request, v) then [Accepted(request, v.result.value)] else [])
              && (forall c :: o.code == Some(Reported(c)) <==> v.result == Err(c) || (v.result.Ok? && v.refusal == Some(c)))
              && (o.code == Some(ToolResultInvalid) <==> v.result.Ok? && v.refusal.None? && !Takes(b, s, request, v))
              && (t.now.done <==>
                    || !Takes(b, s, request, v)
                    || StalledAt(t.accepted, |t.accepted|)
                    || (request.operation == "validation.run" && v.result.value.status != "succeeded"
                        && s.now.outcome.repairs >= b.repairs))
  {
    AuthorityIs(allowed, request);
    hide HasUsableKey, MayRun, StalledAt, IsSha256, TakeResult, Acceptable, Answers, Fits, Kept, SideEffecting;
    if s.now.outcome.toolCalls < b.toolCalls && MayRun(allowed, request) {
      var v := ServedAt(env, w, request);
      var p := Spend(s.now, 1, 0);
      assert p.(outcome := p.outcome.(toolCalls := p.outcome.toolCalls + 1)) == Spend(s.now, 1, 1);
      NotConcluded(s.now);
      if v.result.Ok? && v.refusal.None? {
        ResultContinues(allowed, b, s, request, v);
      }
    }
  }

  lemma NotConcluded(p: Progress)
    requires !p.done && Concluded(p)
    ensures p.outcome.code.None?
  {
  }

  lemma ResultContinues<W(!new)>(allowed: set<string>, b: Budgets, s: State<W>, request: ToolRequest, v: Served<W>)
    requires MayDecide(s) && Kept(allowed, b, s) && v.result.Ok? && v.refusal.None?
    ensures Acceptable(b, Spend(s.now, 1, 1), request, v.result.value) <==> Takes(b, s, request, v)
    ensures var q := TakeResult(b, Spend(s.now, 1, 1), request, v.result.value);
            && (forall c :: q.outcome.code != Some(Reported(c)))
            && (q.outcome.code == Some(ToolResultInvalid) <==> !Takes(b, s, request, v))
            && (!Takes(b, s, request, v) ==> q.done)
            && (Takes(b, s, request, v) ==>
                  var accepted := s.accepted + [Accepted(request, v.result.value)];
                  q.done <==>
                    || StalledAt(accepted, |accepted|)
                    || (request.operation == "validation.run" && v.result.value.status != "succeeded"
                        && s.now.outcome.repairs >= b.repairs))
  {
    SaturatingFits(b, s.now.outcome.outputBytes, v.result.value.outputBytes);
    DigestTextIs(v.result.value.digest);
    hide SaturatingAdd, IsSha256, IsDigestText, WrappingAdd, StalledAt, Counted, Answered, Metered, Repaired, Repeats;
    StalledInPrefix(s.accepted, Accepted(request, v.result.value));
    assert Progressing(s.now, s.accepted);
  }

  // -------------------------------------------------------------------------------- every run

  /** The states of a run from one to the next, each decided as its collaborators answered. */
  ghost predicate IsDecided<W(!new)>(env: Collaborators<W>, allowed: set<string>, b: Budgets, states: seq<State<W>>) {
    && states != []
    && states[|states| - 1].now.done
    && forall i | 0 <= i < |states| - 1 ::
         && !states[i].now.done
         && Begins(env, allowed, b, states[i], states[i + 1]) && Continues(env, allowed, b, states[i], states[i + 1])
  }

  /**
   * Every run goes from its start to its end through iterations each decided by what the collaborators answer in it: a
   * request is handed to the tools exactly when it may run and a call is left, the run goes on exactly when the result is
   * taken and neither stalls nor exhausts the repairs, and each way to end has its one cause.
   */
  lemma EveryRunIsDecided<W(!new)>(env: Collaborators<W>, allowed: set<string>, b: Budgets, start: W) returns (states: seq<State<W>>)
    ensures IsDecided(env, allowed, b, states)
    ensures states[0] == Start(start) && states[|states| - 1] == Run(env, allowed, b, Start(start))
  {
    StartKept(allowed, b, start);
    hide Kept, Concluded;
    var s: State<W> := Start(start);
    StartConcluded(s);
    states := DecidedFrom(env, allowed, b, s);
  }

  lemma StartConcluded<W(!new)>(s: State<W>)
    requires s.now == Progress(START_OUTCOME, None, 0, false)
    ensures Concluded(s.now)
  {
  }

  lemma DecidedBefore<W(!new)>(env: Collaborators<W>, allowed: set<string>, b: Budgets, s: State<W>, more: seq<State<W>>)
    requires IsDecided(env, allowed, b, more) && more != [] && !s.now.done
    requires Begins(env, allowed, b, s, more[0]) && Continues(env, allowed, b, s, more[0])
    ensures IsDecided(env, allowed, b, [s] + more)
  {
    hide Begins, Continues;
    var states := [s] + more;
    forall i | 0 <= i < |states| - 1
      ensures !states[i].now.done
      ensures Begins(env, allowed, b, states[i], states[i + 1]) && Continues(env, allowed, b, states[i], states[i + 1])
    {
      assert i > 0 ==> states[i] == more[i - 1] && states[i + 1] == more[i];
    }
  }

  lemma {:induction false} DecidedFrom<W(!new)>(env: Collaborators<W>, allowed: set<string>, b: Budgets, s: State<W>)
    returns (states: seq<State<W>>)
    requires Concluded(s.now) && Kept(allowed, b, s)
    ensures IsDecided(env, allowed, b, states) && states != []
    ensures states[0] == s && states[|states| - 1] == Run(env, allowed, b, s)
    decreases !s.now.done, b.modelTurns - s.now.outcome.modelTurns
  {
    RunUnfolds(env, allowed, b, s);
    if s.now.done {
      hide Advance, Run, Kept;
      states := [s];
    } else {
      var next := Advance(env, allowed, b, s);
      AdvanceSpendsTurn(env, allowed, b, s);
      AdvanceBegins(env, allowed, b, s);
      AdvanceContinues(env, allowed, b, s);
      AdvanceKeeps(env, allowed, b, s);
      AdvanceConcludes(env, allowed, b, s);
      hide Advance, Run, Kept, Concluded, Begins, Continues, IsDecided;
      var more := DecidedFrom(env, allowed, b, next);
      states := [s] + more;
      DecidedBefore(env, allowed, b, s, more);
    }
  }
}
