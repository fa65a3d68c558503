/** What the control plane hears of an attempt: each claim by its case, each turn and call, and how it ends. */
module ClaimAnswers {
  import opened Wrappers
  import opened BoundedLoops
  import opened LoopDecisions
  import opened Publishing
  import opened Executors
  import opened ControlPlanes
  import opened VersionAgreement

  // ------------------------------------------------------------------------------- requests

  /** The next request arrives at the version the server has. */
  predicate Lands(fates: nat -> Fate, w: Wire) {
    fates(|w.posted|).arrives && w.version == w.server
  }

  /** And its acceptance is heard. */
  predicate IsHeard(fates: nat -> Fate, w: Wire) {
    Lands(fates, w) && fates(|w.posted|).heard
  }

  /** From `w` to `x` just this request was made. */
  ghost predicate Requests(fates: nat -> Fate, w: Wire, kind: Kind, x: Wire) {
    && x.posted == w.posted + [Post(w.version, kind)]
    && x.accepted == w.accepted + (if Lands(fates, w) then [Post(w.version, kind)] else [])
    && x.server == w.server + (if Lands(fates, w) then 1 else 0)
    && x.version == w.version + (if IsHeard(fates, w) then 1 else 0)
  }

  lemma SendRequests(fates: nat -> Fate, w: Wire, kind: Kind)
    ensures Requests(fates, w, kind, Send(fates, w, kind).wire)
    ensures Send(fates, w, kind).ok <==> IsHeard(fates, w)
  {
  }

  /**
   * A turn is recorded by one request exactly when the control plane says to go on, and let through exactly when that is
   * heard; a cancellation and a silent control plane make no request and refuse the turn.
   */
  lemma TurnObservedExactly<Q(!new)>(fates: nat -> Fate, poll: Q -> (Q, Poll), d: Desk<Q>)
    ensures var (after, refused) := ObserveTurn(fates, poll, d);
            var (rest, polled) := poll(d.rest);
            && after.rest == rest
            && (if polled.Going? then Requests(fates, d.wire, TurnMade, after.wire) else after.wire == d.wire)
            && (refused == None <==> polled.Going? && IsHeard(fates, d.wire))
            && (refused == Some("HARNESS_CANCELLED") <==> polled.Cancelling?)
            && (refused == Some("HARNESS_EVIDENCE_PERSIST_FAILED") <==> polled.Silent? || (polled.Going? && !IsHeard(fates, d.wire)))
  {
    SendRequests(fates, d.wire, TurnMade);
    hide Send, Requests, IsHeard;
    var polled := poll(d.rest).1;
    assert polled.Silent? || polled.Cancelling? ==> ObserveTurn(fates, poll, d).0.wire == d.wire;
  }

  /** A call is recorded by one request, and a validation whose record was heard by a second with its verdict. */
  lemma CallObservedExactly<Q(!new)>(fates: nat -> Fate, d: Desk<Q>, request: ToolRequest, result: ToolResult)
    returns (recorded: Wire)
    ensures var (after, refused) := ObserveCall(fates, d, request, result);
            var validated := request.operation == "validation.run" && IsHeard(fates, d.wire);
            && after.rest == d.rest
            && Requests(fates, d.wire, CallMade(request.id, request.operation, result.status), recorded)
            && (if validated then Requests(fates, recorded, ValidationMade(result.status == "succeeded"), after.wire)
                else after.wire == recorded)
            && (refused == None <==> IsHeard(fates, d.wire) && (validated ==> IsHeard(fates, recorded)))
            && (refused.Some? ==> refused == Some("HARNESS_EVIDENCE_PERSIST_FAILED"))
  {
    var call := CallMade(request.id, request.operation, result.status);
    recorded := Send(fates, d.wire, call).wire;
    SendRequests(fates, d.wire, call);
    SendRequests(fates, recorded, ValidationMade(result.status == "succeeded"));
    hide Send, Requests, IsHeard;
  }

  // ------------------------------------------------------------------------ a cancellation in a run

  /** What the control plane says when the turn of this iteration is recorded. */
  function PolledAt<Q(!new)>(g: Setting<Q>, s: State<Bench<Desk<Q>>>): Poll {
    var env, b := EnvOf(g), g.assignment.budgets;
    var (w, cancelled) := env.cancelled(s.world);
    var (v, ms) := env.elapsedMs(w);
    var (x, action) := env.nextAction(v, Told(b, s.now.outcome));
    g.poll(x.rest.rest).1
  }

  /**
   * When the control plane cancels at a turn, in whichever iteration of whichever run, the run ends there as failed with
   * that code, and neither a tool is called nor a request made.
   */
  lemma CancellationEndsRun<Q(!new)>(g: Setting<Q>, states: seq<State<Bench<Desk<Q>>>>, i: nat)
    requires IsDecided(EnvOf(g), g.assignment.allowed, g.assignment.budgets, states) && i + 1 < |states|
    requires var h := HeardAt(EnvOf(g), g.assignment.budgets, states[i]);
             !h.cancelled && h.inTime && h.action.Ok? && PolledAt(g, states[i]) == Cancelling
    ensures var s, t := states[i], states[i + 1];
            && i + 2 == |states| && t.now.done
            && t.now.outcome.code == Some(Reported("HARNESS_CANCELLED"))
            && t.executed == s.executed && t.world.rest.wire == s.world.rest.wire
  {
    var env, b, s, t := EnvOf(g), g.assignment.budgets, states[i], states[i + 1];
    var o := Wired(g.outside, g.fates, g.poll);
    assert Begins(env, g.assignment.allowed, b, s, t) && Continues(env, g.assignment.allowed, b, s, t);
    SilentOnes(g, s.world, Told(b, s.now.outcome));
    var (w, cancelled) := env.cancelled(s.world);
    SilentOnes(g, w, Told(b, s.now.outcome));
    var (v, ms) := env.elapsedMs(w);
    SilentOnes(g, v, Told(b, s.now.outcome));
    var (x, action) := env.nextAction(v, Told(b, s.now.outcome));
    assert env.modelTurn(x, action.value) == Back(x, o.modelTurn(x.rest, action.value));
    assert o.modelTurn(x.rest, action.value) == ObserveTurn(g.fates, g.poll, x.rest);
    TurnObservedExactly(g.fates, g.poll, x.rest);
    hide ObserveTurn, Told, EnvOf, Begins;
    var h := HeardAt(env, b, s);
    assert h.refusal == Some("HARNESS_CANCELLED");
    assert !Hands(g.assignment.allowed, b, s, h);
  }

  // -------------------------------------------------------------------------------- whole claims

  /** Before anything runs: what a claim costs that is not to be run, or whose opening stages are not heard. */
  lemma {:induction false} ClaimEndsEarlyExactly<Q(!new)>(g: Setting<Q>, claim: Claim, w: Wire, rest: Q, source: Source)
    returns (preparing: Wire, running: Wire)
    ensures Requests(g.fates, w, ToStage(AtPreparing), preparing) && Requests(g.fates, preparing, ToStage(AtRunning), running)
    ensures var c := Claimed(g, claim, w, rest, source);
            && (!claim.owned || (!claim.cancelling && !claim.resolved) ==> c == Concluded(w, source, false))
            && (claim.owned && claim.cancelling ==>
                  && Requests(g.fates, w, ToStage(AtCancelled("HARNESS_CANCELLED")), c.wire) && c.source == source && !c.ok)
            && (claim.owned && !claim.cancelling && claim.resolved ==>
                  && (!IsHeard(g.fates, w) ==> c == Concluded(preparing, source, false))
                  && (IsHeard(g.fates, w) && !IsHeard(g.fates, preparing) ==> c == Concluded(running, source, false))
                  && (IsHeard(g.fates, w) && IsHeard(g.fates, preparing) ==>
                        c.source == Assigning(g, running, rest, source).source))
  {
    preparing := Send(g.fates, w, ToStage(AtPreparing)).wire;
    running := Send(g.fates, preparing, ToStage(AtRunning)).wire;
    SendRequests(g.fates, w, ToStage(AtPreparing));
    SendRequests(g.fates, preparing, ToStage(AtRunning));
    SendRequests(g.fates, w, ToStage(AtCancelled("HARNESS_CANCELLED")));
    hide Send, Requests, IsHeard, Assigning, ReportStages, RefusalCode;
  }

  /** The code a failed attempt is reported with, for what the run or the assignment came to. */
  ghost predicate FailsWith(d: Result<Report, Refusal>, code: string) {
    match d
    case Err(NotPrepared(c)) => code == c
    case Err(NoEvidence(c)) => code == c
    case Err(ValidationRequired) => code == "HARNESS_VALIDATION_REQUIRED"
    case Err(NotPublished(e)) =>
      && (code == "HARNESS_PUBLISH_CONFLICT" <==> e == Conflict)
      && (code == "HARNESS_PATH_DENIED" <==> e == NotOwned || e == ChangeDenied)
      && (code == "HARNESS_RESOURCE_EXHAUSTED" <==> e == StatusTooLong)
      && (code == "HARNESS_PUBLISH_FAILED" <==> e == SourceFailed)
      && (code == "HARNESS_WORKSPACE_PREPARE_FAILED" <==> e == GitFailed)
    case Ok(report) =>
      var c := report.outcome.code;
      && (c == None ==> code == "HARNESS_EXECUTION_FAILED")
      && (c == Some(HarnessCancelled) ==> code == "HARNESS_CANCELLED")
      && (c == Some(BudgetExhausted) ==> code == "HARNESS_BUDGET_EXHAUSTED")
      && (c == Some(NoProgress) ==> code == "HARNESS_NO_PROGRESS")
      && (c == Some(RetryExhausted) ==> code == "HARNESS_RETRY_EXHAUSTED")
      && (c == Some(OperationUnsupported) ==> code == "HARNESS_OPERATION_UNSUPPORTED")
      && (c == Some(IdempotencyRequired) ==> code == "HARNESS_IDEMPOTENCY_REQUIRED")
      && (c == Some(ToolResultInvalid) ==> code == "HARNESS_TOOL_RESULT_INVALID")
      && forall own | c == Some(Reported(own)) :: code == own
  }

  lemma RefusalsFail(refusal: Refusal)
    ensures FailsWith(Err(refusal), RefusalCode(refusal))
  {
  }

  lemma OutcomesFail(report: Report)
    ensures FailsWith(Ok(report), FailureCode(report.outcome))
  {
  }

  /** The last stages of an attempt on a link that loses nothing. */
  ghost predicate EndsAt(last: seq<Kind>, d: Result<Report, Refusal>) {
    if d.Err? then exists code :: FailsWith(d, code) && last == [ToStage(AtFailed(code))]
    else if d.value.outcome.status != Completed then
      exists code :: FailsWith(d, code) && last == [ToStage(AtValidating), ToStage(AtFailed(code))]
    else if d.value.patch.Some? then
      last == [ToStage(AtValidating), PatchMade(d.value.patch.value, d.value.changed), ToStage(AtSucceeded)]
    else last == [ToStage(AtValidating), ToStage(AtSucceeded)]
  }

  /** A lossless attempt ends by reporting what the assignment came to, with the code of its failure or with its patch. */
  lemma FaithfulEnding<Q(!new)>(g: Setting<Q>, v0: nat, w: Wire, rest: Q, source: Source) returns (before: seq<Kind>, last: seq<Kind>)
    requires IsFaithful(g.fates) && w == Wire(v0, v0, [], [])
    ensures var c := Claimed(g, Claim(true, false, true), w, rest, source);
            && Kinds(c.wire.accepted) == before + last
            && EndsAt(last, Assigning(g, BeginStages(g.fates, w).wire, rest, source).result)
  {
    var silent := FaithfulAttempt(g, v0, w, rest, source);
    hide Claimed, BeginStages, Assigning, PostsOf;
    var begun := BeginStages(g.fates, w).wire;
    var d := Assigning(g, begun, rest, source);
    before := OPENING + PostsOf(g.outside.sha, TrailOf(g, begun, rest)) + silent;
    last := Ending(d);
    EndingEnds(d);
    hide Ending, EndsAt;
  }

  lemma EndingEnds<Q(!new)>(d: Assigned<Desk<Q>>)
    ensures EndsAt(Ending(d), d.result)
  {
    hide FailsWith, RefusalCode, FailureCode;
    match d.result {
      case Err(refusal) => RefusalsFail(refusal);
      case Ok(report) => OutcomesFail(report);
    }
  }
}
