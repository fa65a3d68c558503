/** What every run of the bounded loop keeps, for every model, tool, observer and clock. */
module LoopBudgets {
  import opened Wrappers
  import opened Text
  import opened BoundedLoops

  /** Whatever one iteration keeps, a whole run keeps. */
  lemma {:induction false} RunKeeps<W(!new)>(env: Collaborators<W>, allowed: set<string>, b: Budgets, s: State<W>, kept: State<W> -> bool)
    requires kept(s)
    requires forall t: State<W> | kept(t) && !t.now.done :: kept(Advance(env, allowed, b, t))
    ensures kept(Run(env, allowed, b, s)) && Run(env, allowed, b, s).now.done
    decreases !s.now.done, b.modelTurns - s.now.outcome.modelTurns
  {
    if !s.now.done {
      AdvanceSpendsTurn(env, allowed, b, s);
      RunKeeps(env, allowed, b, Advance(env, allowed, b, s), kept);
    }
  }

  // -------------------------------------------------------------------- the four ways an iteration goes

  datatype Turn =
    | Ended(turns: nat, status: Status, code: Code)             // before any request reached the tools
    | Finished(summary: string)
    | Refused(request: ToolRequest, code: Code)                  // the tools or the observer refused
    | Returned(request: ToolRequest, result: ToolResult)

  function Spend(p: Progress, turns: nat, calls: nat): Progress {
    p.(outcome := p.outcome.(modelTurns := p.outcome.modelTurns + turns, toolCalls := p.outcome.toolCalls + calls))
  }

  function NowAfter(b: Budgets, p: Progress, turn: Turn): Progress {
    match turn
    case Ended(turns, status, code) => Terminal(Spend(p, turns, 0), status, code)
    case Finished(summary) => FinishLoop(b, Spend(p, 1, 0), summary)
    case Refused(_, code) => Terminal(Spend(p, 1, 1), Failed, code)
    case Returned(request, result) => TakeResult(b, Spend(p, 1, 1), request, result)
  }

  function RequestOf(turn: Turn): seq<ToolRequest> {
    if turn.Refused? || turn.Returned? then [turn.request] else []
  }

  function AcceptedOf(b: Budgets, p: Progress, turn: Turn): seq<Accepted> {
    if turn.Returned? && Acceptable(b, p, turn.request, turn.result) then [Accepted(turn.request, turn.result)] else []
  }

  predicate Authorized(allowed: set<string>, request: ToolRequest) {
    request.operation in allowed && (SideEffecting(request.operation) ==> HasUsableKey(request))
  }

  ghost predicate Possible(allowed: set<string>, b: Budgets, p: Progress, turn: Turn) {
    match turn
    case Ended(turns, status, code) =>
      && turns <= 1 && (turns == 1 ==> p.outcome.modelTurns < b.modelTurns)
      && (status == Cancelled || status == Failed || (status == Partial && code == BudgetExhausted))
    case Finished(_) => p.outcome.modelTurns < b.modelTurns
    case Refused(request, _) => p.outcome.modelTurns < b.modelTurns && p.outcome.toolCalls < b.toolCalls && Authorized(allowed, request)
    case Returned(request, _) => p.outcome.modelTurns < b.modelTurns && p.outcome.toolCalls < b.toolCalls && Authorized(allowed, request)
  }

  ghost predicate Moves<W(!new)>(allowed: set<string>, b: Budgets, s: State<W>, t: State<W>, turn: Turn) {
    && Possible(allowed, b, s.now, turn)
    && t.now == NowAfter(b, s.now, turn)
    && t.executed == s.executed + RequestOf(turn)
    && t.accepted == s.accepted + AcceptedOf(b, s.now, turn)
  }

  lemma AdvanceMoves<W(!new)>(env: Collaborators<W>, allowed: set<string>, b: Budgets, s: State<W>) returns (turn: Turn)
    requires !s.now.done
    ensures Moves(allowed, b, s, Advance(env, allowed, b, s), turn)
  {
    hide TakeResult, FinishLoop, HasUsableKey;
    var t := Advance(env, allowed, b, s);
    var (w, cancelled) := env.cancelled(s.world);
    var (v, ms) := env.elapsedMs(w);
    if cancelled || ms >= b.wallTimeMs || s.now.outcome.modelTurns >= b.modelTurns {
      return Ended(0, t.now.outcome.status, t.now.outcome.code.value);
    }
    var (x, action) := env.nextAction(v, ContextOf(b, Spend(s.now, 1, 0).outcome));
    if action.Err? {
      return Ended(1, Failed, Reported(action.error));
    }
    var (y, refused) := env.modelTurn(x, action.value);
    if refused.Some? {
      return Ended(1, Failed, Reported(refused.value));
    }
    match action.value {
      case Finish(summary) => return Finished(summary);
      case Tool(request) => turn := CallMoves(env, allowed, b, s, y, request);
    }
  }

  lemma CallMoves<W(!new)>(env: Collaborators<W>, allowed: set<string>, b: Budgets, s: State<W>, w: W, request: ToolRequest)
    returns (turn: Turn)
    requires !s.now.done && s.now.outcome.modelTurns < b.modelTurns
    ensures Moves(allowed, b, s, CallTool(env, allowed, b, s.(world := w, now := Spend(s.now, 1, 0)), request), turn)
  {
    hide TakeResult, FinishLoop, HasUsableKey;
    var t := CallTool(env, allowed, b, s.(world := w, now := Spend(s.now, 1, 0)), request);
    if |t.executed| == |s.executed| {
      return Ended(1, t.now.outcome.status, t.now.outcome.code.value);
    }
    var (x, result) := env.execute(w, request);
    if result.Err? {
      return Refused(request, Reported(result.error));
    }
    var (y, refused) := env.toolCall(x, request, result.value);
    if refused.Some? {
      return Refused(request, Reported(refused.value));
    }
    return Returned(request, result.value);
  }

  // ------------------------------------------------------------------------- turns, calls, authority

  ghost predicate Counted(allowed: set<string>, b: Budgets, p: Progress, executed: seq<ToolRequest>) {
    && |executed| == p.outcome.toolCalls <= p.outcome.modelTurns <= b.modelTurns
    && p.outcome.toolCalls <= b.toolCalls
    && forall i | 0 <= i < |executed| :: Authorized(allowed, executed[i])
  }

  lemma TurnCounts(allowed: set<string>, b: Budgets, p: Progress, executed: seq<ToolRequest>, turn: Turn)
    requires !p.done && Counted(allowed, b, p, executed) && Possible(allowed, b, p, turn)
    ensures Counted(allowed, b, NowAfter(b, p, turn), executed + RequestOf(turn))
  {
    hide HasUsableKey, IsSha256, IsBlank, ByteLength;
  }

  // ------------------------------------------------------------------------------- accepted results

  /** Accepted results answer the executed requests in order; only a failed run has a request without one. */
  ghost predicate Answered(p: Progress, executed: seq<ToolRequest>, accepted: seq<Accepted>) {
    && |accepted| <= |executed| <= |accepted| + 1
    && (|executed| > |accepted| ==> p.done && p.outcome.status == Failed)
    && (forall i | 0 <= i < |accepted| ::
          && accepted[i].request == executed[i]
          && accepted[i].result.id == executed[i].id && accepted[i].result.operation == executed[i].operation
          && IsSha256(accepted[i].result.digest))
    && p.outcome.lastResult == if accepted == [] then None else Some(accepted[|accepted| - 1].result)
  }

  lemma TurnAnswers(allowed: set<string>, b: Budgets, p: Progress, executed: seq<ToolRequest>, accepted: seq<Accepted>, turn: Turn)
    requires !p.done && Answered(p, executed, accepted) && Possible(allowed, b, p, turn)
    ensures Answered(NowAfter(b, p, turn), executed + RequestOf(turn), accepted + AcceptedOf(b, p, turn))
  {
    hide HasUsableKey, IsSha256, IsBlank, ByteLength, WrappingAdd, SaturatingAdd;
  }

  // ------------------------------------------------------------------------------------ output bytes

  function ResultBytes(accepted: seq<Accepted>): nat {
    if accepted == [] then 0 else ResultBytes(accepted[..|accepted| - 1]) + accepted[|accepted| - 1].result.outputBytes
  }

  function SummaryBytes(o: Outcome): nat {
    if o.summary.Some? then ByteLength(o.summary.value) else 0
  }

  /** Everything the run put out: accepted results, and the summary once there is one. */
  function Produced(p: Progress, accepted: seq<Accepted>): nat {
    ResultBytes(accepted) + SummaryBytes(p.outcome)
  }

  /** The counter agrees with the history up to the width of `u64`, exactly so below the largest budget. */
  ghost predicate Metered(b: Budgets, p: Progress, accepted: seq<Accepted>) {
    && p.outcome.outputBytes == Wrapped(Produced(p, accepted))
    && (b.outputBytes < U64_LIMIT - 1 ==> Produced(p, accepted) <= b.outputBytes)
    && (p.outcome.summary.Some? ==> p.done)
  }

  lemma MoreFits(b: Budgets, total: nat, more: nat)
    ensures WrappingAdd(Wrapped(total), more) == Wrapped(total + more)
    ensures b.outputBytes < U64_LIMIT - 1 && total <= b.outputBytes && SaturatingAdd(Wrapped(total), more) <= b.outputBytes ==>
              total + more <= b.outputBytes
  {
  }

  lemma TurnMeters(allowed: set<string>, b: Budgets, p: Progress, accepted: seq<Accepted>, turn: Turn)
    requires !p.done && Metered(b, p, accepted) && Possible(allowed, b, p, turn)
    ensures Metered(b, NowAfter(b, p, turn), accepted + AcceptedOf(b, p, turn))
  {
    hide WrappingAdd, SaturatingAdd, IsSha256, IsBlank, HasUsableKey, TakeResult, FinishLoop, ResultBytes, Failures, Authorized;
    LastAccepted(accepted, AcceptedOf(b, p, turn));
    match turn {
      case Ended(_, _, _) =>
      case Refused(_, _) =>
      case Finished(summary) => FinishMeters(b, Spend(p, 1, 0), summary, ResultBytes(accepted));
      case Returned(request, result) => ResultMeters(b, Spend(p, 1, 1), request, result, ResultBytes(accepted));
    }
  }

  lemma FinishMeters(b: Budgets, p: Progress, summary: string, total: nat)
    requires p.outcome.outputBytes == Wrapped(total) && p.outcome.summary.None? && !p.done
    requires b.outputBytes < U64_LIMIT - 1 ==> total <= b.outputBytes
    ensures var o := FinishLoop(b, p, summary).outcome;
            && o.outputBytes == Wrapped(total + SummaryBytes(o))
            && (b.outputBytes < U64_LIMIT - 1 ==> total + SummaryBytes(o) <= b.outputBytes)
    ensures FinishLoop(b, p, summary).done
  {
    MoreFits(b, total, ByteLength(summary));
    hide WrappingAdd, SaturatingAdd, IsBlank, ByteLength;
  }

  lemma ResultMeters(b: Budgets, p: Progress, request: ToolRequest, result: ToolResult, total: nat)
    requires p.outcome.outputBytes == Wrapped(total)
    requires b.outputBytes < U64_LIMIT - 1 ==> total <= b.outputBytes
    ensures TakeResult(b, p, request, result).outcome.summary == p.outcome.summary
    ensures var taken := if Acceptable(b, p, request, result) then result.outputBytes else 0;
            && TakeResult(b, p, request, result).outcome.outputBytes == Wrapped(total + taken)
            && (b.outputBytes < U64_LIMIT - 1 ==> total + taken <= b.outputBytes)
  {
    MoreFits(b, total, result.outputBytes);
    hide WrappingAdd, SaturatingAdd, IsSha256;
  }

  lemma LastAccepted(accepted: seq<Accepted>, more: seq<Accepted>)
    requires |more| <= 1
    ensures more == [] ==> accepted + more == accepted
    ensures more != [] ==> (accepted + more)[..|accepted|] == accepted && (accepted + more)[|accepted|] == more[0]
    ensures ResultBytes(accepted + more) == ResultBytes(accepted) + if more == [] then 0 else more[0].result.outputBytes
    ensures Failures(accepted + more) == Failures(accepted) + if more != [] && FailedValidation(more[0]) then 1 else 0
  {
    if more == [] {
      assert accepted + more == accepted;
    } else {
      assert (accepted + more)[..|accepted|] == accepted;
    }
  }

  // --------------------------------------------------------------------------------------- progress

  /** The last four of the first `k` results all report the same digest. */
  ghost predicate StalledAt(accepted: seq<Accepted>, k: nat)
    requires k <= |accepted|
  {
    k >= 4 && forall i | k - 4 <= i < k :: accepted[i].result.digest == accepted[k - 1].result.digest
  }

  /** How often the last digest repeats the ones just before it. */
  function Repeats(accepted: seq<Accepted>): nat {
    var n := |accepted|;
    if n >= 2 && accepted[n - 1].result.digest == accepted[n - 2].result.digest then Repeats(accepted[..n - 1]) + 1 else 0
  }

  lemma {:induction false} RepeatsAtLeast(accepted: seq<Accepted>, r: nat)
    ensures Repeats(accepted) >= r
       <==> r == 0 || (r < |accepted| && forall i | |accepted| - 1 - r <= i < |accepted| ::
                          accepted[i].result.digest == accepted[|accepted| - 1].result.digest)
  {
    var n := |accepted|;
    if r > 0 && n >= 2 && accepted[n - 1].result.digest == accepted[n - 2].result.digest {
      RepeatsAtLeast(accepted[..n - 1], r - 1);
    } else if 0 < r < n {
      assert n - 1 - r <= n - 2;
    }
  }

  predicate EndedWith(o: Outcome, code: Code) {
    o.status == Partial && o.code == Some(code)
  }

  ghost predicate Progressing(p: Progress, accepted: seq<Accepted>) {
    var n := |accepted|;
    && p.lastProgress == (if n == 0 then None else Some(accepted[n - 1].result.digest))
    && p.repeated == Repeats(accepted)
    && (forall k | 0 <= k < n :: !StalledAt(accepted, k))
    && (StalledAt(accepted, n) <==> EndedWith(p.outcome, NoProgress))
    && (EndedWith(p.outcome, NoProgress) ==> p.done)
  }

  lemma StalledInPrefix(accepted: seq<Accepted>, more: Accepted)
    ensures forall k | 0 <= k <= |accepted| :: StalledAt(accepted + [more], k) <==> StalledAt(accepted, k)
    ensures StalledAt(accepted + [more], |accepted| + 1) <==> Repeats(accepted + [more]) >= 3
    ensures Repeats(accepted + [more])
         == if accepted != [] && accepted[|accepted| - 1].result.digest == more.result.digest then Repeats(accepted) + 1 else 0
  {
    assert (accepted + [more])[..|accepted|] == accepted;
    RepeatsAtLeast(accepted + [more], 3);
  }

  lemma TurnProgresses(allowed: set<string>, b: Budgets, p: Progress, accepted: seq<Accepted>, turn: Turn)
    requires !p.done && Progressing(p, accepted) && Possible(allowed, b, p, turn)
    ensures Progressing(NowAfter(b, p, turn), accepted + AcceptedOf(b, p, turn))
  {
    hide StalledAt, Authorized, Failures, ResultBytes, Repeats, HasUsableKey, IsSha256, IsBlank, ByteLength, WrappingAdd, SaturatingAdd;
    LastAccepted(accepted, AcceptedOf(b, p, turn));
    if AcceptedOf(b, p, turn) != [] {
      StalledInPrefix(accepted, AcceptedOf(b, p, turn)[0]);
    }
  }

  // ---------------------------------------------------------------------------------------- repairs

  function Failures(accepted: seq<Accepted>): nat {
    if accepted == [] then 0
    else Failures(accepted[..|accepted| - 1]) + if FailedValidation(accepted[|accepted| - 1]) then 1 else 0
  }

  /** Failed validations are counted as they come, except one that also completes a stall. */
  ghost predicate Repaired(b: Budgets, p: Progress, accepted: seq<Accepted>) {
    && (EndedWith(p.outcome, NoProgress) ==> accepted != [])
    && p.outcome.repairs == Failures(if EndedWith(p.outcome, NoProgress) then accepted[..|accepted| - 1] else accepted)
    && p.outcome.repairs <= b.repairs + 1
    && (p.outcome.repairs == b.repairs + 1 <==> EndedWith(p.outcome, RetryExhausted))
    && (EndedWith(p.outcome, RetryExhausted) || EndedWith(p.outcome, NoProgress) ==> p.done)
  }

  lemma ResultRepairs(b: Budgets, p: Progress, request: ToolRequest, result: ToolResult)
    requires !EndedWith(p.outcome, NoProgress) && !EndedWith(p.outcome, RetryExhausted) && p.outcome.repairs <= b.repairs
    ensures var q := TakeResult(b, p, request, result);
            var more := if Acceptable(b, p, request, result) && !EndedWith(q.outcome, NoProgress)
                           && FailedValidation(Accepted(request, result)) then 1 else 0;
            && (EndedWith(q.outcome, NoProgress) ==> Acceptable(b, p, request, result))
            && q.outcome.repairs == p.outcome.repairs + more
            && (q.outcome.repairs == b.repairs + 1 <==> EndedWith(q.outcome, RetryExhausted))
            && (EndedWith(q.outcome, RetryExhausted) || EndedWith(q.outcome, NoProgress) ==> q.done)
  {
    hide IsSha256, SaturatingAdd, WrappingAdd;
  }

  lemma TurnRepairs(allowed: set<string>, b: Budgets, p: Progress, accepted: seq<Accepted>, turn: Turn)
    requires !p.done && Repaired(b, p, accepted) && Possible(allowed, b, p, turn)
    ensures Repaired(b, NowAfter(b, p, turn), accepted + AcceptedOf(b, p, turn))
  {
    hide Failures, ResultBytes, Authorized, IsSha256, IsBlank, ByteLength, WrappingAdd, SaturatingAdd, TakeResult;
    LastAccepted(accepted, AcceptedOf(b, p, turn));
    if turn.Returned? {
      ResultRepairs(b, Spend(p, 1, 1), turn.request, turn.result);
    }
  }

  // ---------------------------------------------------------------------------------- every run

  ghost predicate Kept<W(!new)>(allowed: set<string>, b: Budgets, s: State<W>) {
    && Counted(allowed, b, s.now, s.executed)
    && Answered(s.now, s.executed, s.accepted)
    && Metered(b, s.now, s.accepted)
    && Progressing(s.now, s.accepted)
    && Repaired(b, s.now, s.accepted)
  }

  lemma AdvanceKeeps<W(!new)>(env: Collaborators<W>, allowed: set<string>, b: Budgets, s: State<W>)
    requires !s.now.done && Kept(allowed, b, s)
    ensures Kept(allowed, b, Advance(env, allowed, b, s))
  {
    hide Advance, Possible, NowAfter, RequestOf, AcceptedOf, Counted, Answered, Metered, Progressing, Repaired;
    var turn := AdvanceMoves(env, allowed, b, s);
    TurnCounts(allowed, b, s.now, s.executed, turn);
    TurnAnswers(allowed, b, s.now, s.executed, s.accepted, turn);
    TurnMeters(allowed, b, s.now, s.accepted, turn);
    TurnProgresses(allowed, b, s.now, s.accepted, turn);
    TurnRepairs(allowed, b, s.now, s.accepted, turn);
  }

  lemma StartKept<W(!new)>(allowed: set<string>, b: Budgets, start: W)
    ensures Kept(allowed, b, Start(start))
  {
    hide Metered, Progressing, Repaired;
    var s := Start(start);
    StartMetered(b, s.now, s.accepted);
    StartProgressing(b, s.now, s.accepted);
  }

  lemma StartMetered(b: Budgets, p: Progress, accepted: seq<Accepted>)
    requires p == Progress(START_OUTCOME, None, 0, false) && |accepted| == 0
    ensures Metered(b, p, accepted)
  {
    NothingProduced(accepted);
  }

  lemma NothingProduced(accepted: seq<Accepted>)
    requires |accepted| == 0
    ensures ResultBytes(accepted) == 0
  {
  }

  lemma StartProgressing(b: Budgets, p: Progress, accepted: seq<Accepted>)
    requires p == Progress(START_OUTCOME, None, 0, false) && |accepted| == 0
    ensures Progressing(p, accepted) && Repaired(b, p, accepted)
  {
  }

  lemma EveryRunKeeps<W(!new)>(env: Collaborators<W>, allowed: set<string>, b: Budgets, start: W)
    ensures Run(env, allowed, b, Start(start)).now.done && Kept(allowed, b, Run(env, allowed, b, Start(start)))
  {
    StartKept(allowed, b, start);
    hide Advance, Kept;
    forall t: State<W> | Kept(allowed, b, t) && !t.now.done
      ensures Kept(allowed, b, Advance(env, allowed, b, t))
    {
      AdvanceKeeps(env, allowed, b, t);
    }
    RunKeeps(env, allowed, b, Start(start), (t: State<W>) => Kept(allowed, b, t));
  }

  /** Calls stay within turns, both within their budgets, and every request that reached the tools had authority. */
  lemma BudgetsAndAuthority<W(!new)>(env: Collaborators<W>, allowed: set<string>, b: Budgets, start: W)
    ensures var s := Run(env, allowed, b, Start(start));
            && s.now.outcome.toolCalls <= s.now.outcome.modelTurns <= b.modelTurns
            && s.now.outcome.toolCalls <= b.toolCalls
            && |s.executed| == s.now.outcome.toolCalls
            && forall i | 0 <= i < |s.executed| :: Authorized(allowed, s.executed[i])
  {
    EveryRunKeeps(env, allowed, b, start);
  }

  /**
   * The loop stops for lack of progress exactly when the last four accepted results share a digest, and no four
   * earlier ones did.
   */
  lemma StopsAtFirstStall<W(!new)>(env: Collaborators<W>, allowed: set<string>, b: Budgets, start: W)
    ensures var s := Run(env, allowed, b, Start(start));
            && (StalledAt(s.accepted, |s.accepted|) <==> EndedWith(s.now.outcome, NoProgress))
            && forall k | 0 <= k < |s.accepted| :: !StalledAt(s.accepted, k)
  {
    EveryRunKeeps(env, allowed, b, start);
  }

  /** Repairs count the failed validations, and reach one above their limit exactly when the loop ends for that. */
  lemma RepairsWithinLimit<W(!new)>(env: Collaborators<W>, allowed: set<string>, b: Budgets, start: W)
    ensures var s := Run(env, allowed, b, Start(start));
            && s.now.outcome.repairs <= b.repairs + 1
            && (s.now.outcome.repairs == b.repairs + 1 <==> EndedWith(s.now.outcome, RetryExhausted))
            && (!EndedWith(s.now.outcome, NoProgress) ==> s.now.outcome.repairs == Failures(s.accepted))
  {
    EveryRunKeeps(env, allowed, b, start);
  }

  // ------------------------------------------------------------------------------------ how runs end

  /**
   * A run in progress has no code; a completed one has a summary and no code; any other has a code and no summary. It is
   * partial when a limit of its own ended it, and failed for every other code but the cancellation's.
   */
  ghost predicate Concluded(p: Progress) {
    var o := p.outcome;
    && (p.done <==> o.status != Running)
    && (o.status == Completed <==> o.summary.Some?)
    && (o.summary.Some? ==> !IsBlank(o.summary.value))
    && (o.code.None? <==> o.status == Running || o.status == Completed)
    && (o.status == Cancelled <==> o.code == Some(HarnessCancelled))
    && (o.status == Partial <==> o.code in {Some(BudgetExhausted), Some(NoProgress), Some(RetryExhausted)})
  }

  lemma AdvanceConcludes<W(!new)>(env: Collaborators<W>, allowed: set<string>, b: Budgets, s: State<W>)
    requires !s.now.done && Concluded(s.now)
    ensures Concluded(Advance(env, allowed, b, s).now)
  {
    hide IsBlank, ByteLength, IsSha256, HasUsableKey, WrappingAdd, SaturatingAdd;
  }

  /** Every run ends, and reports a code exactly when it did not complete with a summary that is not blank. */
  lemma EveryRunConcludes<W(!new)>(env: Collaborators<W>, allowed: set<string>, b: Budgets, start: W)
    ensures var s := Run(env, allowed, b, Start(start));
            s.now.done && Concluded(s.now)
  {
    hide Advance, Run, IsBlank;
    forall t: State<W> | Concluded(t.now) && !t.now.done
      ensures Concluded(Advance(env, allowed, b, t).now)
    {
      AdvanceConcludes(env, allowed, b, t);
    }
    RunKeeps(env, allowed, b, Start(start), (t: State<W>) => Concluded(t.now));
  }

  /** The state after up to `n` iterations. */
  function After<W(!new)>(env: Collaborators<W>, allowed: set<string>, b: Budgets, s: State<W>, n: nat): State<W> {
    if n == 0 then s
    else
      var before := After(env, allowed, b, s, n - 1);
      if before.now.done then before else Advance(env, allowed, b, before)
  }

  /** The run is not cancelled at this moment, and within its wall time and its turns. */
  ghost predicate IsInTime<W(!new)>(env: Collaborators<W>, b: Budgets, s: State<W>) {
    var (w, cancelled) := env.cancelled(s.world);
    !cancelled && env.elapsedMs(w).1 < b.wallTimeMs && s.now.outcome.modelTurns < b.modelTurns
  }

  lemma AdvanceInTime<W(!new)>(env: Collaborators<W>, allowed: set<string>, b: Budgets, s: State<W>)
    requires !s.now.done
    ensures var t := Advance(env, allowed, b, s);
            && t.now.outcome.modelTurns == s.now.outcome.modelTurns + (if IsInTime(env, b, s) then 1 else 0)
            && (!IsInTime(env, b, s) ==> t.now.done)
  {
    var turn := AdvanceMoves(env, allowed, b, s);
  }

  /** The first `n` iterations each start from a run in progress, and all but the last in time. */
  ghost predicate IsTimely<W(!new)>(env: Collaborators<W>, allowed: set<string>, b: Budgets, s: State<W>, n: nat) {
    forall i: nat | i < n ::
      && !After(env, allowed, b, s, i).now.done
      && (i + 1 < n ==> IsInTime(env, b, After(env, allowed, b, s, i)))
  }

  /** The turns spent by the first `n` iterations. */
  ghost function TurnsOf<W(!new)>(env: Collaborators<W>, allowed: set<string>, b: Budgets, s: State<W>, n: nat): nat {
    if n == 0 then 0 else TurnsOf(env, allowed, b, s, n - 1) + if IsInTime(env, b, After(env, allowed, b, s, n - 1)) then 1 else 0
  }

  /**
   * Every turn of every run begins in time: a run is a number of iterations of which each one before the last begins
   * uncancelled, within the wall time and the turns, and the turns reported are those iterations that did.
   */
  lemma {:induction false} TurnsBeginInTime<W(!new)>(env: Collaborators<W>, allowed: set<string>, b: Budgets, start: W) returns (n: nat)
    ensures var s: State<W> := Start(start);
            && Run(env, allowed, b, s) == After(env, allowed, b, s, n)
            && IsTimely(env, allowed, b, s, n)
            && Run(env, allowed, b, s).now.outcome.modelTurns == TurnsOf(env, allowed, b, s, n)
  {
    var s: State<W> := Start(start);
    StartsAtItself(env, allowed, b, s);
    hide Run, Advance, IsInTime, After;
    n := IterationsFrom(env, allowed, b, s, 0);
  }

  ghost predicate IsAt<W(!new)>(env: Collaborators<W>, allowed: set<string>, b: Budgets, s: State<W>, k: nat) {
    && IsTimely(env, allowed, b, s, k)
    && (!After(env, allowed, b, s, k).now.done && k > 0 ==> IsInTime(env, b, After(env, allowed, b, s, k - 1)))
    && After(env, allowed, b, s, k).now.outcome.modelTurns == s.now.outcome.modelTurns + TurnsOf(env, allowed, b, s, k)
  }

  lemma OneMoreIteration<W(!new)>(env: Collaborators<W>, allowed: set<string>, b: Budgets, s: State<W>, k: nat)
    requires IsAt(env, allowed, b, s, k) && !After(env, allowed, b, s, k).now.done
    ensures After(env, allowed, b, s, k + 1) == Advance(env, allowed, b, After(env, allowed, b, s, k))
    ensures IsAt(env, allowed, b, s, k + 1)
  {
    hide Advance, IsInTime, After, TurnsOf;
    var at := After(env, allowed, b, s, k);
    AfterUnfolds(env, allowed, b, s, k);
    AdvanceInTime(env, allowed, b, at);
    forall i: nat | i < k + 1
      ensures !After(env, allowed, b, s, i).now.done
      ensures i + 1 < k + 1 ==> IsInTime(env, b, After(env, allowed, b, s, i))
    {
    }
  }

  lemma AfterUnfolds<W(!new)>(env: Collaborators<W>, allowed: set<string>, b: Budgets, s: State<W>, k: nat)
    requires !After(env, allowed, b, s, k).now.done
    ensures After(env, allowed, b, s, k + 1) == Advance(env, allowed, b, After(env, allowed, b, s, k))
    ensures TurnsOf(env, allowed, b, s, k + 1)
         == TurnsOf(env, allowed, b, s, k) + if IsInTime(env, b, After(env, allowed, b, s, k)) then 1 else 0
  {
    hide Advance, IsInTime;
  }

  lemma {:induction false} IterationsFrom<W(!new)>(env: Collaborators<W>, allowed: set<string>, b: Budgets, s: State<W>, k: nat)
    returns (n: nat)
    requires IsAt(env, allowed, b, s, k)
    ensures Run(env, allowed, b, After(env, allowed, b, s, k)) == After(env, allowed, b, s, n) && IsAt(env, allowed, b, s, n)
    decreases !After(env, allowed, b, s, k).now.done, b.modelTurns - After(env, allowed, b, s, k).now.outcome.modelTurns
  {
    hide Run, Advance, IsAt, After;
    var at := After(env, allowed, b, s, k);
    RunUnfolds(env, allowed, b, at);
    if at.now.done {
      n := k;
    } else {
      AdvanceSpendsTurn(env, allowed, b, at);
      OneMoreIteration(env, allowed, b, s, k);
      n := IterationsFrom(env, allowed, b, s, k + 1);
    }
  }

  lemma StartsAtItself<W(!new)>(env: Collaborators<W>, allowed: set<string>, b: Budgets, s: State<W>)
    ensures After(env, allowed, b, s, 0) == s
  {
  }

  // ------------------------------------------------------------- the accounting and its one exception

  ghost predicate ReportsProduced<W(!new)>(s: State<W>) {
    s.now.outcome.outputBytes == Produced(s.now, s.accepted)
  }

  /** One result that fills the counter to its width, and then a summary. */
  function Flood(request: ToolRequest, result: ToolResult): Collaborators<int> {
    Collaborators(w => (w, false), FloodClock, (w, _) => FloodModel(w, request), (w, _) => (w, None),
                  (w, _) => (w + 1, Ok(result)), (w, _, _) => (w, None))
  }

  function FloodClock(w: int): (int, nat) {
    (w, 0)
  }

  function FloodModel(w: int, request: ToolRequest): (int, Result<Action, string>) {
    (w, Ok(if w < 1 then Tool(request) else Finish(FLOOD_SUMMARY)))
  }

  const FLOOD_SUMMARY := "x"

  lemma FloodSummary(summary: string)
    requires summary == FLOOD_SUMMARY
    ensures !IsBlank(summary) && ByteLength(summary) == 1
  {
    assert TrimStart(summary) == summary && TrimEnd(summary) == summary;
  }

  lemma FloodWraps(request: ToolRequest, result: ToolResult, allowed: set<string>, b: Budgets)
    requires Authorized(allowed, request) && result.id == request.id && result.operation == request.operation
    requires IsSha256(result.digest) && result.outputBytes == U64_LIMIT - 1 && result.status == "succeeded"
    requires b.outputBytes == U64_LIMIT - 1 && b.wallTimeMs > 0 && b.modelTurns >= 2 && b.toolCalls >= 1
    ensures Run(Flood(request, result), allowed, b, Start(0)).now.outcome.outputBytes == 0
    ensures Produced(Run(Flood(request, result), allowed, b, Start(0)).now, Run(Flood(request, result), allowed, b, Start(0)).accepted)
         == U64_LIMIT
  {
    hide HasUsableKey, IsSha256, Run, Advance, Flood, ResultBytes, Failures, ByteLength;
    var env, one := Flood(request, result), Accepted(request, result);
    var s0: State<int> := Start(0);
    FloodTurn(request, result, allowed, b, s0);
    var s1 := Advance(env, allowed, b, s0);
    FloodEnds(request, result, allowed, b, s1);
    RunUnfolds(env, allowed, b, s0);
    RunUnfolds(env, allowed, b, s1);
    RunUnfolds(env, allowed, b, Advance(env, allowed, b, s1));
    NothingProduced(s0.accepted);
    LastAccepted(s0.accepted, [one]);
    FloodSummary(FLOOD_SUMMARY);
  }

  lemma FloodTurn(request: ToolRequest, result: ToolResult, allowed: set<string>, b: Budgets, s: State<int>)
    requires Authorized(allowed, request) && result.id == request.id && result.operation == request.operation
    requires IsSha256(result.digest) && result.outputBytes == U64_LIMIT - 1 && result.status == "succeeded"
    requires b.outputBytes == U64_LIMIT - 1 && b.wallTimeMs > 0 && b.modelTurns >= 2 && b.toolCalls >= 1
    requires s == Start(0)
    ensures var t := Advance(Flood(request, result), allowed, b, s);
            && t.world == t.now.outcome.modelTurns == 1 && !t.now.done && t.now.outcome.summary.None?
            && t.accepted == s.accepted + [Accepted(request, result)]
            && t.now.outcome.outputBytes == U64_LIMIT - 1
  {
    hide HasUsableKey, IsSha256;
  }

  lemma FloodEnds(request: ToolRequest, result: ToolResult, allowed: set<string>, b: Budgets, s: State<int>)
    requires !s.now.done && s.world == s.now.outcome.modelTurns == 1 && s.now.outcome.outputBytes == U64_LIMIT - 1
    requires b.outputBytes == U64_LIMIT - 1 && b.wallTimeMs > 0 && b.modelTurns >= 2
    ensures var t := Advance(Flood(request, result), allowed, b, s);
            && t.now.done && t.accepted == s.accepted && t.now.outcome.summary == Some(FLOOD_SUMMARY)
            && t.now.outcome.outputBytes == 0
  {
    FloodSummary(FLOOD_SUMMARY);
    hide ByteLength, IsBlank;
  }

  lemma FloodExists(operation: string, allowed: set<string>, b: Budgets)
    requires operation in allowed && b.outputBytes == U64_LIMIT - 1 && b.wallTimeMs > 0 && b.modelTurns >= 2 && b.toolCalls >= 1
    ensures exists env: Collaborators<int>, start: int :: !ReportsProduced(Run(env, allowed, b, Start(start)))
  {
    var request := ToolRequest("t", operation, Some("k"), "");
    var result := ToolResult("t", operation, "succeeded", None, "", U64_LIMIT - 1, seq(64, _ => 'a'));
    assert HasUsableKey(request) by {
      assert ByteLength("k") == 1 && TrimStart("k") == "k" && TrimEnd("k") == "k";
    }
    FloodWraps(request, result, allowed, b);
    assert Run(Flood(request, result), allowed, b, Start(0)).now.outcome.outputBytes == 0;
  }

  /**
   * Every run reports exactly what it put out, and within the budget, exactly when the budget is not the largest `u64`:
   * the comparison saturates there and the addition wraps.
   */
  lemma AccountingExactly(operation: string, allowed: set<string>, b: Budgets)
    requires operation in allowed && b.wallTimeMs > 0 && b.modelTurns >= 2 && b.toolCalls >= 1
    ensures (forall env: Collaborators<int>, start: int ::
               var s := Run(env, allowed, b, Start(start));
               s.now.outcome.outputBytes == Produced(s.now, s.accepted) <= b.outputBytes)
       <==> b.outputBytes < U64_LIMIT - 1
  {
    if b.outputBytes < U64_LIMIT - 1 {
      forall env: Collaborators<int>, start: int
        ensures Metered(b, Run(env, allowed, b, Start(start)).now, Run(env, allowed, b, Start(start)).accepted)
      {
        EveryRunKeeps(env, allowed, b, start);
      }
    } else {
      FloodExists(operation, allowed, b);
    }
  }

  /** For any world, the same below the largest budget. */
  lemma ReportsWhatItProduced<W(!new)>(env: Collaborators<W>, allowed: set<string>, b: Budgets, start: W)
    requires b.outputBytes < U64_LIMIT - 1
    ensures var s := Run(env, allowed, b, Start(start));
            s.now.outcome.outputBytes == Produced(s.now, s.accepted) <= b.outputBytes
  {
    hide Run, Counted, Answered, Progressing, Repaired, ResultBytes;
    EveryRunKeeps(env, allowed, b, start);
  }
}
