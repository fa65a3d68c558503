/** The provider-neutral bounded model/tool loop (agents/node/src/harness_loop.rs). */
module BoundedLoops {
  import opened Wrappers
  import opened Text

  const U64_LIMIT: nat := 0x1_0000_0000_0000_0000

  type u32 = x: int | 0 <= x < 0x1_0000_0000
  type u64 = x: int | 0 <= x < U64_LIMIT witness 0

  datatype Budgets = Budgets(wallTimeMs: u64, modelTurns: u32, toolCalls: u32, repairs: u32, outputBytes: u64)

  /** The input is kept as its JSON text. */
  datatype ToolRequest = ToolRequest(id: string, operation: string, key: Option<string>, input: string)

  datatype ToolResult =
    ToolResult(id: string, operation: string, status: string, code: Option<string>, output: string, outputBytes: u64, digest: string)

  datatype Action = Tool(request: ToolRequest) | Finish(summary: string)

  datatype Context = Context(turn: nat, repairs: nat, remainingToolCalls: nat, remainingOutputBytes: nat, lastResult: Option<ToolResult>)

  datatype Status = Running | Completed | Partial | Cancelled | Failed

  /** The loop's own codes (`HARNESS_...`), and any code that a collaborator reports. */
  datatype Code =
    | HarnessCancelled | BudgetExhausted | OperationUnsupported | IdempotencyRequired | ToolResultInvalid
    | NoProgress | RetryExhausted
    | Reported(code: string)

  datatype Outcome =
    Outcome(status: Status, code: Option<Code>, summary: Option<string>, modelTurns: nat, toolCalls: nat, repairs: nat,
            outputBytes: nat, lastResult: Option<ToolResult>)

  /**
   * The loop's collaborators: cancellation, clock, model, observer and tools. Each may do anything to the world `W`
   * it shares with the others, and each failure is a code.
   */
  datatype Collaborators<!W(!new)> = Collaborators(
    cancelled: W -> (W, bool),
    elapsedMs: W -> (W, nat),
    nextAction: (W, Context) -> (W, Result<Action, string>),
    modelTurn: (W, Action) -> (W, Option<string>),
    execute: (W, ToolRequest) -> (W, Result<ToolResult, string>),
    toolCall: (W, ToolRequest, ToolResult) -> (W, Option<string>))

  datatype Accepted = Accepted(request: ToolRequest, result: ToolResult)

  /** The loop's own variables. */
  datatype Progress = Progress(outcome: Outcome, lastProgress: Option<string>, repeated: nat, done: bool)

  /** With the world, and the history of requests handed to the tools and of results taken in. */
  datatype State<!W(!new)> = State(world: W, now: Progress, executed: seq<ToolRequest>, accepted: seq<Accepted>)

  const START_OUTCOME := Outcome(Running, None, None, 0, 0, 0, 0, None)

  function Start<W(!new)>(world: W): State<W> {
    State(world, Progress(START_OUTCOME, None, 0, false), [], [])
  }

  // ---------------------------------------------------------------------------------- helpers

  predicate SideEffecting(operation: string) {
    operation in {"patch.apply", "validation.run", "artifact.publish"}
  }

  predicate HasUsableKey(request: ToolRequest) {
    request.key.Some? && !IsBlank(request.key.value) && ByteLength(request.key.value) <= 160
  }

  predicate IsHexDigit(c: char) {
    '0' <= c <= '9' || 'a' <= c <= 'f' || 'A' <= c <= 'F'
  }

  predicate IsSha256(s: string) {
    |s| == 64 && forall i | 0 <= i < |s| :: IsHexDigit(s[i])
  }

  function SaturatingAdd(a: nat, b: nat): nat {
    if a + b < U64_LIMIT then a + b else U64_LIMIT - 1
  }

  function Wrapped(n: nat): nat {
    n % 0x1_0000_0000_0000_0000
  }

  /** `+=` on `u64` in a release build. */
  function WrappingAdd(a: nat, b: nat): nat {
    Wrapped(a + b)
  }

  function ContextOf(b: Budgets, o: Outcome): Context {
    Context(o.modelTurns, o.repairs, Less(b.toolCalls, o.toolCalls), Less(b.outputBytes, o.outputBytes), o.lastResult)
  }

  function Terminal(p: Progress, status: Status, code: Code): Progress {
    p.(outcome := p.outcome.(status := status, code := Some(code)), done := true)
  }

  // ------------------------------------------------------------------------------ one iteration

  function FinishLoop(b: Budgets, p: Progress, summary: string): Progress {
    var bytes := ByteLength(summary);
    if IsBlank(summary) || SaturatingAdd(p.outcome.outputBytes, bytes) > b.outputBytes
    then Terminal(p, Partial, BudgetExhausted)
    else p.(outcome := p.outcome.(status := Completed, summary := Some(summary),
                                  outputBytes := WrappingAdd(p.outcome.outputBytes, bytes)), done := true)
  }

  predicate Acceptable(b: Budgets, p: Progress, request: ToolRequest, result: ToolResult) {
    && result.id == request.id && result.operation == request.operation && IsSha256(result.digest)
    && SaturatingAdd(p.outcome.outputBytes, result.outputBytes) <= b.outputBytes
  }

  predicate FailedValidation(a: Accepted) {
    a.request.operation == "validation.run" && a.result.status != "succeeded"
  }

  function TakeResult(b: Budgets, p: Progress, request: ToolRequest, result: ToolResult): Progress {
    if !Acceptable(b, p, request, result) then Terminal(p, Failed, ToolResultInvalid)
    else
      var t := Progress(p.outcome.(outputBytes := WrappingAdd(p.outcome.outputBytes, result.outputBytes), lastResult := Some(result)),
                        Some(result.digest),
                        if p.lastProgress == Some(result.digest) then p.repeated + 1 else 0,
                        false);
      if t.repeated >= 3 then Terminal(t, Partial, NoProgress)
      else if FailedValidation(Accepted(request, result)) then
        var u := t.(outcome := t.outcome.(repairs := t.outcome.repairs + 1));
        if u.outcome.repairs > b.repairs then Terminal(u, Partial, RetryExhausted) else u
      else t
  }

  function CallTool<W(!new)>(env: Collaborators<W>, allowed: set<string>, b: Budgets, s: State<W>, request: ToolRequest): State<W> {
    var p := s.now;
    if p.outcome.toolCalls >= b.toolCalls then s.(now := Terminal(p, Partial, BudgetExhausted))
    else if request.operation !in allowed then s.(now := Terminal(p, Failed, OperationUnsupported))
    else if SideEffecting(request.operation) && !HasUsableKey(request) then s.(now := Terminal(p, Failed, IdempotencyRequired))
    else
      var (w, result) := env.execute(s.world, request);
      var q := p.(outcome := p.outcome.(toolCalls := p.outcome.toolCalls + 1));
      var t := State(w, q, s.executed + [request], s.accepted);
      if result.Err? then t.(now := Terminal(q, Failed, Reported(result.error)))
      else
        var (v, refused) := env.toolCall(w, request, result.value);
        if refused.Some? then t.(world := v, now := Terminal(q, Failed, Reported(refused.value)))
        else t.(world := v, now := TakeResult(b, q, request, result.value),
                accepted := if Acceptable(b, q, request, result.value) then s.accepted + [Accepted(request, result.value)] else s.accepted)
  }

  function TakeTurn<W(!new)>(env: Collaborators<W>, allowed: set<string>, b: Budgets, s: State<W>): State<W> {
    var p := s.now.(outcome := s.now.outcome.(modelTurns := s.now.outcome.modelTurns + 1));
    var (w, action) := env.nextAction(s.world, ContextOf(b, p.outcome));
    if action.Err? then s.(world := w, now := Terminal(p, Failed, Reported(action.error)))
    else
      var (v, refused) := env.modelTurn(w, action.value);
      if refused.Some? then s.(world := v, now := Terminal(p, Failed, Reported(refused.value)))
      else match action.value
        case Finish(summary) => s.(world := v, now := FinishLoop(b, p, summary))
        case Tool(request) => CallTool(env, allowed, b, s.(world := v, now := p), request)
  }

  function Advance<W(!new)>(env: Collaborators<W>, allowed: set<string>, b: Budgets, s: State<W>): State<W> {
    var (w, cancelled) := env.cancelled(s.world);
    if cancelled then s.(world := w, now := Terminal(s.now, Cancelled, HarnessCancelled))
    else
      var (v, ms) := env.elapsedMs(w);
      if ms >= b.wallTimeMs || s.now.outcome.modelTurns >= b.modelTurns
      then s.(world := v, now := Terminal(s.now, Partial, BudgetExhausted))
      else TakeTurn(env, allowed, b, s.(world := v))
  }

  /** Every turn that does not end the loop spends one of the budgeted model turns. */
  lemma AdvanceSpendsTurn<W(!new)>(env: Collaborators<W>, allowed: set<string>, b: Budgets, s: State<W>)
    requires !s.now.done
    ensures Advance(env, allowed, b, s).now.done
         || s.now.outcome.modelTurns < Advance(env, allowed, b, s).now.outcome.modelTurns <= b.modelTurns
  {
  }

  function Run<W(!new)>(env: Collaborators<W>, allowed: set<string>, b: Budgets, s: State<W>): State<W>
    decreases !s.now.done, b.modelTurns - s.now.outcome.modelTurns
  {
    if s.now.done then s
    else
      AdvanceSpendsTurn(env, allowed, b, s);
      Run(env, allowed, b, Advance(env, allowed, b, s))
  }

  lemma RunUnfolds<W(!new)>(env: Collaborators<W>, allowed: set<string>, b: Budgets, s: State<W>)
    ensures Run(env, allowed, b, s) == if s.now.done then s else Run(env, allowed, b, Advance(env, allowed, b, s))
  {
  }

  // ------------------------------------------------------------------------------- the loop

  method RunBoundedLoop<W(!new)>(env: Collaborators<W>, allowed: set<string>, b: Budgets, start: W)
    returns (world: W, outcome: Outcome)
    ensures world == Run(env, allowed, b, Start(start)).world
    ensures outcome == Run(env, allowed, b, Start(start)).now.outcome
  {
    hide Run, Wrapped, IsBlank, ByteLength, IsSha256, HasUsableKey, WrappingAdd, SaturatingAdd, TakeResult, Acceptable;
    world, outcome := start, START_OUTCOME;
    var lastProgress: Option<string>, repeated := None, 0;
    ghost var s := Start(start);
    while true
      invariant s.world == world && s.now == Progress(outcome, lastProgress, repeated, false)
      invariant Run(env, allowed, b, s) == Run(env, allowed, b, Start(start))
      decreases b.modelTurns - outcome.modelTurns
    {
      AdvanceSpendsTurn(env, allowed, b, s);
      RunUnfolds(env, allowed, b, s);
      s := Advance(env, allowed, b, s);
      RunUnfolds(env, allowed, b, s);
      var (w, cancelled) := env.cancelled(world);
      world := w;
      if cancelled {
        outcome := outcome.(status := Cancelled, code := Some(HarnessCancelled));
        return;
      }
      var (v, ms) := env.elapsedMs(world);
      world := v;
      if ms >= b.wallTimeMs || outcome.modelTurns >= b.modelTurns {
        outcome := outcome.(status := Partial, code := Some(BudgetExhausted));
        return;
      }
      outcome := outcome.(modelTurns := outcome.modelTurns + 1);
      var (x, action) := env.nextAction(world, ContextOf(b, outcome));
      world := x;
      if action.Err? {
        outcome := outcome.(status := Failed, code := Some(Reported(action.error)));
        return;
      }
      var (y, refusedTurn) := env.modelTurn(world, action.value);
      world := y;
      if refusedTurn.Some? {
        outcome := outcome.(status := Failed, code := Some(Reported(refusedTurn.value)));
        return;
      }
      match action.value {
        case Finish(summary) =>
          var bytes := ByteLength(summary);
          if IsBlank(summary) || SaturatingAdd(outcome.outputBytes, bytes) > b.outputBytes {
            outcome := outcome.(status := Partial, code := Some(BudgetExhausted));
            return;
          }
          outcome := outcome.(outputBytes := WrappingAdd(outcome.outputBytes, bytes), summary := Some(summary), status := Completed);
          return;
        case Tool(request) =>
          if outcome.toolCalls >= b.toolCalls {
            outcome := outcome.(status := Partial, code := Some(BudgetExhausted));
            return;
          }
          if request.operation !in allowed {
            outcome := outcome.(status := Failed, code := Some(OperationUnsupported));
            return;
          }
          if SideEffecting(request.operation) && !HasUsableKey(request) {
            outcome := outcome.(status := Failed, code := Some(IdempotencyRequired));
            return;
          }
          outcome := outcome.(toolCalls := outcome.toolCalls + 1);
          var (z, executed) := env.execute(world, request);
          world := z;
          if executed.Err? {
            outcome := outcome.(status := Failed, code := Some(Reported(executed.error)));
            return;
          }
          var result := executed.value;
          var (q, refusedCall) := env.toolCall(world, request, result);
          world := q;
          if refusedCall.Some? {
            outcome := outcome.(status := Failed, code := Some(Reported(refusedCall.value)));
            return;
          }
          var done;
          outcome, lastProgress, repeated, done := TakeToolResult(b, outcome, lastProgress, repeated, request, result);
          if done {
            return;
          }
      }
    }
  }

  /** The end of an iteration: the result is checked, counted, compared with the one before and kept. */
  method TakeToolResult(b: Budgets, before: Outcome, last: Option<string>, count: nat, request: ToolRequest, result: ToolResult)
    returns (outcome: Outcome, lastProgress: Option<string>, repeated: nat, done: bool)
    ensures Progress(outcome, lastProgress, repeated, done) == TakeResult(b, Progress(before, last, count, false), request, result)
  {
    outcome, lastProgress, repeated, done := before, last, count, true;
    if result.id != request.id || result.operation != request.operation || !IsSha256(result.digest)
       || SaturatingAdd(outcome.outputBytes, result.outputBytes) > b.outputBytes {
      outcome := outcome.(status := Failed, code := Some(ToolResultInvalid));
      return;
    }
    outcome := outcome.(outputBytes := WrappingAdd(outcome.outputBytes, result.outputBytes));
    if lastProgress == Some(result.digest) {
      repeated := repeated + 1;
    } else {
      lastProgress, repeated := Some(result.digest), 0;
    }
    if repeated >= 3 {
      outcome := outcome.(lastResult := Some(result), status := Partial, code := Some(NoProgress));
      return;
    }
    if request.operation == "validation.run" && result.status != "succeeded" {
      outcome := outcome.(repairs := outcome.repairs + 1);
      if outcome.repairs > b.repairs {
        outcome := outcome.(lastResult := Some(result), status := Partial, code := Some(RetryExhausted));
        return;
      }
    }
    outcome, done := outcome.(lastResult := Some(result)), false;
  }
}
