/** Reporting an attempt to the control plane under an optimistic version (agents/node/src/harness_client.rs). */
module ControlPlanes {
  import opened Wrappers
  import opened BoundedLoops
  import opened RepositoryEdits
  import opened Publishing
  import opened Executors

  datatype Stage = AtPreparing | AtRunning | AtValidating | AtSucceeded | AtFailed(code: string) | AtCancelled(code: string)

  datatype Kind =
    | ToStage(stage: Stage)
    | TurnMade
    | CallMade(id: string, operation: string, status: string)
    | ValidationMade(passed: bool)
    | PatchMade(patch: Patch, changed: seq<string>)

  datatype Post = Post(version: nat, kind: Kind)

  /** Whether a request arrives, and whether its answer is heard. */
  datatype Fate = Fate(arrives: bool, heard: bool)

  /** The client's version and the server's, with all requests made and those the server accepted. */
  datatype Wire = Wire(version: nat, server: nat, posted: seq<Post>, accepted: seq<Post>)

  datatype Sent = Sent(wire: Wire, ok: bool)

  /** The server accepts only its current version and adds one; the client follows when it hears of it. */
  function Send(fates: nat -> Fate, w: Wire, kind: Kind): Sent {
    var post, fate := Post(w.version, kind), fates(|w.posted|);
    var posted := w.posted + [post];
    if fate.arrives && w.version == w.server
    then Sent(Wire(if fate.heard then w.version + 1 else w.version, w.server + 1, posted, w.accepted + [post]), fate.heard)
    else Sent(w.(posted := posted), false)
  }

  // -------------------------------------------------------------------------------- the loop's observer

  datatype Poll = Going | Cancelling | Silent

  const NOT_RECORDED := "HARNESS_EVIDENCE_PERSIST_FAILED"
  const CANCELLED_CODE := "HARNESS_CANCELLED"

  datatype Desk<!Q(!new)> = Desk(wire: Wire, rest: Q)

  function ObserveTurn<Q(!new)>(fates: nat -> Fate, poll: Q -> (Q, Poll), d: Desk<Q>): (Desk<Q>, Option<string>) {
    var (rest, polled) := poll(d.rest);
    if polled.Silent? then (Desk(d.wire, rest), Some(NOT_RECORDED))
    else if polled.Cancelling? then (Desk(d.wire, rest), Some(CANCELLED_CODE))
    else
      var sent := Send(fates, d.wire, TurnMade);
      (Desk(sent.wire, rest), if sent.ok then None else Some(NOT_RECORDED))
  }

  function RecordCall(fates: nat -> Fate, w: Wire, result: ToolResult): Sent {
    var call := Send(fates, w, CallMade(result.id, result.operation, result.status));
    if !call.ok || !IsValidation(result.operation) then call
    else Send(fates, call.wire, ValidationMade(result.status == SUCCEEDED))
  }

  function ObserveCall<Q(!new)>(fates: nat -> Fate, d: Desk<Q>, request: ToolRequest, result: ToolResult): (Desk<Q>, Option<string>) {
    var sent := RecordCall(fates, d.wire, result.(id := request.id, operation := request.operation));
    (Desk(sent.wire, d.rest), if sent.ok then None else Some(NOT_RECORDED))
  }

  class ControlPlaneObserver<!Q(!new)> {
    const fates: nat -> Fate
    const poll: Q -> (Q, Poll)
    var wire: Wire
    var rest: Q

    ghost function State(): Desk<Q>
      reads this
    {
      Desk(wire, rest)
    }

    constructor (fates: nat -> Fate, poll: Q -> (Q, Poll), wire: Wire, rest: Q)
      ensures this.fates == fates && this.poll == poll && State() == Desk(wire, rest)
    {
      this.fates, this.poll, this.wire, this.rest := fates, poll, wire, rest;
    }

    method PostEvidence(kind: Kind) returns (ok: bool)
      modifies this`wire
      ensures Sent(wire, ok) == Send(fates, old(wire), kind)
    {
      var fate, post := fates(|wire.posted|), Post(wire.version, kind);
      wire := wire.(posted := wire.posted + [post]);
      if !fate.arrives || post.version != wire.server {
        return false;
      }
      wire := wire.(server := wire.server + 1, accepted := wire.accepted + [post]);
      if !fate.heard {
        return false;
      }
      wire := wire.(version := wire.version + 1);
      return true;
    }

    method ModelTurn() returns (refused: Option<string>)
      modifies this
      ensures (State(), refused) == ObserveTurn(fates, poll, old(State()))
    {
      var (left, polled) := poll(rest);
      rest := left;
      match polled {
        case Silent => return Some(NOT_RECORDED);
        case Cancelling => return Some(CANCELLED_CODE);
        case Going =>
      }
      var ok := PostEvidence(TurnMade);
      return if ok then None else Some(NOT_RECORDED);
    }

    method ToolCall(request: ToolRequest, result: ToolResult) returns (refused: Option<string>)
      modifies this
      ensures (State(), refused) == ObserveCall(fates, old(State()), request, result)
    {
      var ok := PostEvidence(CallMade(request.id, request.operation, result.status));
      if !ok {
        return Some(NOT_RECORDED);
      }
      if request.operation == "validation.run" {
        ok := PostEvidence(ValidationMade(result.status == "succeeded"));
        if !ok {
          return Some(NOT_RECORDED);
        }
      }
      return None;
    }
  }

  // ------------------------------------------------------------------------------- the whole attempt

  /** The tools and the model beside a desk: they act on the rest, the observer on the wire. */
  function Wired<Q(!new)>(o: Outside<Q>, fates: nat -> Fate, poll: Q -> (Q, Poll)): Outside<Desk<Q>> {
    Outside(o.sha, o.prefixes, o.allowedProfiles, o.configuredProfiles,
            (d: Desk<Q>) => var (r, x) := o.cancelled(d.rest); (Desk(d.wire, r), x),
            (d: Desk<Q>) => var (r, x) := o.elapsedMs(d.rest); (Desk(d.wire, r), x),
            (d: Desk<Q>, context: Context) => var (r, x) := o.nextAction(d.rest, context); (Desk(d.wire, r), x),
            (d: Desk<Q>, action: Action) => ObserveTurn(fates, poll, d),
            (d: Desk<Q>, request: ToolRequest, result: ToolResult) => ObserveCall(fates, d, request, result),
            (d: Desk<Q>, request: ToolRequest, tree: Tree) => var (r, x) := o.read(d.rest, request, tree); (Desk(d.wire, r), x),
            o.replacementIn, o.profileIn,
            (d: Desk<Q>, replacement: Replacement) => var (r, x) := o.io(d.rest, replacement); (Desk(d.wire, r), x),
            (d: Desk<Q>, profile: string, tree: Tree) => var (r, t, x) := o.validate(d.rest, profile, tree); (Desk(d.wire, r), t, x),
            (d: Desk<Q>, tree: Tree) => var (r, x) := o.diff(d.rest, tree); (Desk(d.wire, r), x),
            o.patchText, o.verdictText)
  }

  function Around<Q(!new)>(x: Surroundings<Q>): Surroundings<Desk<Q>> {
    Surroundings(x.prepared, x.meanwhile, (d: Desk<Q>, tree: Tree) => x.evidence(d.rest, tree), x.quote, x.git, x.others, x.cleaned)
  }

  /** What was found of the claim before anything ran: its owner, its state and the node's configuration for it. */
  datatype Claim = Claim(owned: bool, cancelling: bool, resolved: bool)

  /** Everything an attempt depends on, for the given link. */
  datatype Setting<!Q(!new)> =
    Setting(outside: Outside<Q>, assignment: Assignment, around: Surroundings<Q>, fates: nat -> Fate, poll: Q -> (Q, Poll))

  datatype Concluded = Concluded(wire: Wire, source: Source, ok: bool)

  function Assigning<Q(!new)>(g: Setting<Q>, w: Wire, rest: Q, source: Source): Assigned<Desk<Q>> {
    Assign(Wired(g.outside, g.fates, g.poll), g.assignment, Around(g.around), Desk(w, rest), source)
  }

  function PublishCode(e: PublishError): string {
    match e
    case NotOwned => "HARNESS_PATH_DENIED"
    case StatusTooLong => "HARNESS_RESOURCE_EXHAUSTED"
    case ChangeDenied => "HARNESS_PATH_DENIED"
    case SourceFailed => "HARNESS_PUBLISH_FAILED"
    case Conflict => "HARNESS_PUBLISH_CONFLICT"
    case GitFailed => "HARNESS_WORKSPACE_PREPARE_FAILED"
  }

  function RefusalCode(refusal: Refusal): string {
    match refusal
    case NotPrepared(code) => code
    case NoEvidence(code) => code
    case ValidationRequired => "HARNESS_VALIDATION_REQUIRED"
    case NotPublished(e) => PublishCode(e)
  }

  function CodeText(code: Code): string {
    match code
    case HarnessCancelled => CANCELLED_CODE
    case BudgetExhausted => "HARNESS_BUDGET_EXHAUSTED"
    case OperationUnsupported => "HARNESS_OPERATION_UNSUPPORTED"
    case IdempotencyRequired => "HARNESS_IDEMPOTENCY_REQUIRED"
    case ToolResultInvalid => "HARNESS_TOOL_RESULT_INVALID"
    case NoProgress => "HARNESS_NO_PROGRESS"
    case RetryExhausted => "HARNESS_RETRY_EXHAUSTED"
    case Reported(text) => text
  }

  function FailureCode(o: Outcome): string {
    if o.code.Some? then CodeText(o.code.value) else "HARNESS_EXECUTION_FAILED"
  }

  /** The stages after a run that returned a report. */
  function ReportStages(fates: nat -> Fate, w: Wire, report: Report): Sent {
    var validating := Send(fates, w, ToStage(AtValidating));
    if !validating.ok then validating
    else if report.outcome.status != Completed
    then Send(fates, validating.wire, ToStage(AtFailed(FailureCode(report.outcome)))).(ok := false)
    else
      var patch := if report.patch.Some? then Send(fates, validating.wire, PatchMade(report.patch.value, report.changed)) else validating;
      if !patch.ok then patch else Send(fates, patch.wire, ToStage(AtSucceeded))
  }

  function BeginStages(fates: nat -> Fate, w: Wire): Sent {
    var preparing := Send(fates, w, ToStage(AtPreparing));
    if !preparing.ok then preparing else Send(fates, preparing.wire, ToStage(AtRunning))
  }

  function Claimed<Q(!new)>(g: Setting<Q>, claim: Claim, w: Wire, rest: Q, source: Source): Concluded {
    if !claim.owned then Concluded(w, source, false)
    else if claim.cancelling then Concluded(Send(g.fates, w, ToStage(AtCancelled(CANCELLED_CODE))).wire, source, false)
    else if !claim.resolved then Concluded(w, source, false)
    else
      var begun := BeginStages(g.fates, w);
      if !begun.ok then Concluded(begun.wire, source, false)
      else
        var d := Assigning(g, begun.wire, rest, source);
        match d.result
        case Err(refusal) => Concluded(Send(g.fates, d.rest.wire, ToStage(AtFailed(RefusalCode(refusal)))).wire, d.source, false)
        case Ok(report) =>
          var sent := ReportStages(g.fates, d.rest.wire, report);
          Concluded(sent.wire, d.source, sent.ok)
  }

  class ClaimClient<!Q(!new)> {
    const setting: Setting<Q>
    var wire: Wire

    constructor (setting: Setting<Q>, wire: Wire)
      ensures this.setting == setting && this.wire == wire
    {
      this.setting, this.wire := setting, wire;
    }

    /** A stage change; the client takes over the version that the server answers with. */
    method Transition(stage: Stage) returns (ok: bool)
      modifies this
      ensures Sent(wire, ok) == Send(setting.fates, old(wire), ToStage(stage))
      ensures if ok then old(wire.version) == old(wire.server) && wire.version == wire.server == old(wire.server) + 1
              else wire.version == old(wire.version)
    {
      var fate, post := setting.fates(|wire.posted|), Post(wire.version, ToStage(stage));
      wire := wire.(posted := wire.posted + [post]);
      if !fate.arrives || post.version != wire.server {
        return false;
      }
      wire := wire.(server := wire.server + 1, accepted := wire.accepted + [post]);
      if fate.heard {
        wire := wire.(version := wire.server);
      }
      return fate.heard;
    }

    /** A piece of evidence; the client counts on by itself. */
    method PostEvidence(kind: Kind) returns (ok: bool)
      modifies this
      ensures Sent(wire, ok) == Send(setting.fates, old(wire), kind)
    {
      var fate, post := setting.fates(|wire.posted|), Post(wire.version, kind);
      wire := wire.(posted := wire.posted + [post]);
      if !fate.arrives || post.version != wire.server {
        return false;
      }
      wire := wire.(server := wire.server + 1, accepted := wire.accepted + [post]);
      if fate.heard {
        wire := wire.(version := wire.version + 1);
      }
      return fate.heard;
    }

    method ExecuteClaim(claim: Claim, rest: Q, project: SourceRepository) returns (ok: bool)
      modifies this, project
      ensures Concluded(wire, project.State(), ok) == Claimed(setting, claim, old(wire), rest, old(project.State()))
    {
      hide Assign, Send;
      if !claim.owned {
        return false;
      }
      if claim.cancelling {
        var _ := Transition(AtCancelled(CANCELLED_CODE));
        return false;
      }
      if !claim.resolved {
        return false;
      }
      var preparing := Transition(AtPreparing);
      if !preparing {
        return false;
      }
      var running := Transition(AtRunning);
      if !running {
        return false;
      }
      var o, around := Wired(setting.outside, setting.fates, setting.poll), Around(setting.around);
      var report, left := ExecuteHarnessAssignment(o, setting.assignment, around, Desk(wire, rest), project);
      wire := left.wire;
      if report.Err? {
        var _ := Transition(AtFailed(RefusalCode(report.error)));
        return false;
      }
      var validating := Transition(AtValidating);
      if !validating {
        return false;
      }
      if report.value.outcome.status != Completed {
        var _ := Transition(AtFailed(FailureCode(report.value.outcome)));
        return false;
      }
      if report.value.patch.Some? {
        var posted := PostEvidence(PatchMade(report.value.patch.value, report.value.changed));
        if !posted {
          return false;
        }
      }
      ok := Transition(AtSucceeded);
    }
  }
}
