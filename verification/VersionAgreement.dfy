/** What the control plane's version says of a whole attempt, over every run and every link. */
module VersionAgreement {
  import opened Wrappers
  import opened BoundedLoops
  import opened LoopBudgets
  import opened RepositoryEdits
  import opened Publishing
  import opened Executors
  import opened ValidatedPublishing
  import opened ControlPlanes

  // -------------------------------------------------------------------------- one iteration on the wire

  /** What one iteration may do: to the wire, to the history and to whether the run goes on. */
  ghost predicate Iterates(fates: nat -> Fate, sha: string -> string, w: Wire, trail: seq<Step>, next: Wire, after: seq<Step>, done: bool) {
    var turn := Send(fates, w, TurnMade);
    || (next == w && after == trail && done)
    || (next == turn.wire && after == trail && done)
    || (turn.ok && exists step :: after == trail + [step] && CallSent(fates, sha, turn.wire, step, next, done))
  }

  ghost predicate CallSent(fates: nat -> Fate, sha: string -> string, w: Wire, step: Step, next: Wire, done: bool) {
    if step.output.Err? then next == w && done
    else
      var sent := RecordCall(fates, w, ResultOf(sha, step.request, step.output.value));
      next == sent.wire && (sent.ok || done)
  }

  /** All but the observer's two calls leave wire and history alone. */
  ghost predicate SameDesk<Q(!new)>(a: Bench<Desk<Q>>, b: Bench<Desk<Q>>) {
    a.rest.wire == b.rest.wire && a.trail == b.trail
  }

  function EnvOf<Q(!new)>(g: Setting<Q>): Collaborators<Bench<Desk<Q>>> {
    Env(Wired(g.outside, g.fates, g.poll))
  }

  lemma SilentOnes<Q(!new)>(g: Setting<Q>, b: Bench<Desk<Q>>, context: Context)
    ensures SameDesk(b, EnvOf(g).cancelled(b).0) && SameDesk(b, EnvOf(g).elapsedMs(b).0)
    ensures SameDesk(b, EnvOf(g).nextAction(b, context).0)
  {
    var o := Wired(g.outside, g.fates, g.poll);
    assert Env(o).nextAction(b, context) == Back(b, o.nextAction(b.rest, context));
    assert o.nextAction(b.rest, context).0.wire == b.rest.wire;
  }

  lemma TurnsObserved<Q(!new)>(g: Setting<Q>, b: Bench<Desk<Q>>, action: Action)
    ensures var (after, refused) := EnvOf(g).modelTurn(b, action);
            var sent := Send(g.fates, b.rest.wire, TurnMade);
            && after.trail == b.trail
            && (refused.None? ==> sent.ok && after.rest.wire == sent.wire)
            && (after.rest.wire == b.rest.wire || after.rest.wire == sent.wire)
  {
    var o := Wired(g.outside, g.fates, g.poll);
    assert Env(o).modelTurn(b, action) == Back(b, o.modelTurn(b.rest, action));
    assert o.modelTurn(b.rest, action) == ObserveTurn(g.fates, g.poll, b.rest);
  }

  lemma ToolsKeepWire<Q(!new)>(g: Setting<Q>, b: Bench<Desk<Q>>, request: ToolRequest)
    ensures var o := Wired(g.outside, g.fates, g.poll);
            ExecuteTool(o, b, request).0.rest.wire == b.rest.wire
  {
    var o := Wired(g.outside, g.fates, g.poll);
    assert o.read(b.rest, request, b.edits.tree).0.wire == b.rest.wire;
    hide Applied;
  }

  lemma CallsObserved<Q(!new)>(g: Setting<Q>, allowed: set<string>, b: Budgets, s: State<Bench<Desk<Q>>>, request: ToolRequest)
    ensures var t := CallTool(EnvOf(g), allowed, b, s, request);
            || (SameDesk(s.world, t.world) && t.now.done)
            || exists step :: t.world.trail == s.world.trail + [step]
                           && CallSent(g.fates, g.outside.sha, s.world.rest.wire, step, t.world.rest.wire, t.now.done)
  {
    hide TakeResult, HasUsableKey, Acceptable, ExecuteTool, RecordCall;
    var o := Wired(g.outside, g.fates, g.poll);
    assert EnvOf(g).execute(s.world, request) == ExecuteTool(o, s.world, request);
    ToolsKeepWire(g, s.world, request);
    ToolCalls(o, s.world, request);
    var (w, r) := ExecuteTool(o, s.world, request);
    var step := w.trail[|s.world.trail|];
    assert w.trail == s.world.trail + [step];
    if r.Ok? {
      assert EnvOf(g).toolCall(w, request, r.value) == Back(w, o.toolCall(w.rest, request, r.value));
      assert o.toolCall(w.rest, request, r.value) == ObserveCall(g.fates, w.rest, request, r.value);
      assert r.value.(id := request.id, operation := request.operation) == r.value;
    }
  }

  ghost predicate Iterated<Q(!new)>(g: Setting<Q>, b: Bench<Desk<Q>>, t: State<Bench<Desk<Q>>>) {
    Iterates(g.fates, g.outside.sha, b.rest.wire, b.trail, t.world.rest.wire, t.world.trail, t.now.done)
  }

  lemma TurnIterates<Q(!new)>(g: Setting<Q>, allowed: set<string>, b: Budgets, s: State<Bench<Desk<Q>>>)
    ensures Iterated(g, s.world, TakeTurn(EnvOf(g), allowed, b, s))
  {
    hide CallTool, CallSent, Send, EnvOf;
    var p := s.now.(outcome := s.now.outcome.(modelTurns := s.now.outcome.modelTurns + 1));
    var context := ContextOf(b, p.outcome);
    SilentOnes(g, s.world, context);
    var (x, action) := EnvOf(g).nextAction(s.world, context);
    if action.Ok? {
      TurnsObserved(g, x, action.value);
      var (v, refused) := EnvOf(g).modelTurn(x, action.value);
      if refused.None? && action.value.Tool? {
        CallsObserved(g, allowed, b, s.(world := v, now := p), action.value.request);
      }
    }
  }

  lemma AdvanceIterates<Q(!new)>(g: Setting<Q>, allowed: set<string>, b: Budgets, s: State<Bench<Desk<Q>>>)
    requires !s.now.done
    ensures Iterated(g, s.world, Advance(EnvOf(g), allowed, b, s))
  {
    hide TakeTurn, CallSent, Send, EnvOf;
    var (w, cancelled) := EnvOf(g).cancelled(s.world);
    var (v, ms) := EnvOf(g).elapsedMs(w);
    SilentOnes(g, s.world, ContextOf(b, s.now.outcome));
    SilentOnes(g, w, ContextOf(b, s.now.outcome));
    TurnIterates(g, allowed, b, s.(world := v));
  }

  // ------------------------------------------------------------------------------ what every run keeps

  /** What requests of the observer's kinds keep, the whole run keeps. */
  ghost predicate KeptBySends(fates: nat -> Fate, kept: Wire -> bool) {
    forall w, kind: Kind | kept(w) && !kind.ToStage? && !kind.PatchMade? :: kept(Send(fates, w, kind).wire)
  }

  lemma IterationKeeps(fates: nat -> Fate, sha: string -> string, kept: Wire -> bool, w: Wire, trail: seq<Step>, next: Wire, after: seq<Step>, done: bool)
    requires KeptBySends(fates, kept) && kept(w) && Iterates(fates, sha, w, trail, next, after, done)
    ensures kept(next)
  {
    hide Send;
    assert kept(Send(fates, w, TurnMade).wire);
  }

  lemma RunKeepsWire<Q(!new)>(g: Setting<Q>, w: Wire, rest: Q, base: Commit, kept: Wire -> bool)
    requires KeptBySends(g.fates, kept) && kept(w)
    ensures kept(RunIn(g, w, rest, base).world.rest.wire)
  {
    hide Run, Advance, Iterates, EnvOf, KeptBySends;
    var a := g.assignment;
    var start: State<Bench<Desk<Q>>> := Start(Bench(Edits(base.tree, map[]), false, Desk(w, rest), []));
    forall t: State<Bench<Desk<Q>>> | kept(t.world.rest.wire) && !t.now.done
      ensures kept(Advance(EnvOf(g), a.allowed, a.budgets, t).world.rest.wire)
    {
      AdvanceIterates(g, a.allowed, a.budgets, t);
      var next := Advance(EnvOf(g), a.allowed, a.budgets, t);
      IterationKeeps(g.fates, g.outside.sha, kept, t.world.rest.wire, t.world.trail, next.world.rest.wire, next.world.trail, next.now.done);
    }
    RunKeeps(EnvOf(g), a.allowed, a.budgets, start, (t: State<Bench<Desk<Q>>>) => kept(t.world.rest.wire));
    RunInIs(g, w, rest, base);
  }

  function RunIn<Q(!new)>(g: Setting<Q>, w: Wire, rest: Q, base: Commit): State<Bench<Desk<Q>>> {
    RunOf(Wired(g.outside, g.fates, g.poll), g.assignment, base, Desk(w, rest))
  }

  lemma RunInIs<Q(!new)>(g: Setting<Q>, w: Wire, rest: Q, base: Commit)
    ensures RunIn(g, w, rest, base)
         == Run(EnvOf(g), g.assignment.allowed, g.assignment.budgets, Start(Bench(Edits(base.tree, map[]), false, Desk(w, rest), [])))
  {
    hide Run;
  }

  // --------------------------------------------------------------------------------------- any link

  /** The server has accepted the versions from `v0` on, one each; the client knows its version or is one behind. */
  ghost predicate Agrees(v0: nat, w: Wire) {
    && w.server == v0 + |w.accepted|
    && (forall i | 0 <= i < |w.accepted| :: w.accepted[i].version == v0 + i)
    && (w.version == w.server || w.version + 1 == w.server)
  }

  lemma SendAgrees(fates: nat -> Fate, v0: nat, w: Wire, kind: Kind)
    requires Agrees(v0, w)
    ensures Agrees(v0, Send(fates, w, kind).wire)
  {
  }

  ghost predicate KeptByAllSends(fates: nat -> Fate, kept: Wire -> bool) {
    forall w, kind: Kind | kept(w) :: kept(Send(fates, w, kind).wire)
  }

  /** What every request keeps, a whole attempt keeps. */
  lemma AttemptKeepsWire<Q(!new)>(g: Setting<Q>, claim: Claim, w: Wire, rest: Q, source: Source, kept: Wire -> bool)
    requires KeptByAllSends(g.fates, kept) && kept(w)
    ensures kept(Claimed(g, claim, w, rest, source).wire)
  {
    hide Run, Publish, Send, FailureCode, RefusalCode;
    if claim.owned && !claim.cancelling && claim.resolved {
      var begun := BeginStages(g.fates, w).wire;
      if g.around.prepared.Ok? {
        RunKeepsWire(g, begun, rest, g.around.prepared.value, kept);
      }
      var d := Assigning(g, begun, rest, source);
      assert kept(d.rest.wire);
      if d.result.Ok? {
        StagesKeepWire(g.fates, d.rest.wire, d.result.value, kept);
      }
    }
  }

  lemma StagesKeepWire(fates: nat -> Fate, w: Wire, report: Report, kept: Wire -> bool)
    requires KeptByAllSends(fates, kept) && kept(w)
    ensures kept(ReportStages(fates, w, report).wire)
  {
    hide Send, FailureCode;
  }

  const UNHEARD := Fate(true, false)

  /** Request `k` was the first since `n` whose answer was lost; it is the last one accepted, and all later ones are stale. */
  ghost predicate EndsRecord(fates: nat -> Fate, n: nat, w: Wire, k: int) {
    && n <= k < |w.posted| && fates(k) == UNHEARD
    && (forall j | n <= j < k :: fates(j) != UNHEARD)
    && w.accepted != [] && w.accepted[|w.accepted| - 1] == w.posted[k]
    && forall j | k < j < |w.posted| :: w.posted[j].version < w.server
  }

  /** Since request `n` the client either has heard all there was to hear, or one lost answer has ended the record. */
  ghost predicate Recording(fates: nat -> Fate, n: nat, w: Wire) {
    && n <= |w.posted|
    && (w.version == w.server || w.version + 1 == w.server)
    && (w.version == w.server ==> forall k | n <= k < |w.posted| :: fates(k) != UNHEARD)
    && (w.version < w.server ==> exists k :: EndsRecord(fates, n, w, k))
  }

  lemma SendRecords(fates: nat -> Fate, n: nat, w: Wire, kind: Kind)
    requires Recording(fates, n, w)
    ensures Recording(fates, n, Send(fates, w, kind).wire)
  {
    var sent := Send(fates, w, kind).wire;
    assert forall k | 0 <= k < |w.posted| :: sent.posted[k] == w.posted[k];
    if w.version < w.server {
      var k :| EndsRecord(fates, n, w, k);
      assert EndsRecord(fates, n, sent, k);
    } else if fates(|w.posted|) == UNHEARD {
      assert EndsRecord(fates, n, sent, |w.posted|);
    }
  }

  /**
   * Over every link and every run, a whole attempt ends with the client at the server's version exactly when the answer to
   * no request that arrived was lost. Otherwise the first such request is the last one the server ever accepts.
   */
  lemma LostAnswerEndsRecord<Q(!new)>(g: Setting<Q>, claim: Claim, w: Wire, rest: Q, source: Source)
    requires w.version == w.server
    ensures var c := Claimed(g, claim, w, rest, source).wire;
            && |w.posted| <= |c.posted|
            && (c.version == c.server <==> forall k | |w.posted| <= k < |c.posted| :: g.fates(k) != UNHEARD)
            && (c.version != c.server ==> exists k :: EndsRecord(g.fates, |w.posted|, c, k))
  {
    var n := |w.posted|;
    assert Recording(g.fates, n, w);
    hide Recording, Claimed;
    forall u, kind: Kind | Recording(g.fates, n, u)
      ensures Recording(g.fates, n, Send(g.fates, u, kind).wire)
    {
      SendRecords(g.fates, n, u, kind);
    }
    hide Send;
    AttemptKeepsWire(g, claim, w, rest, source, u => Recording(g.fates, n, u));
    RecordingExactly(g.fates, n, Claimed(g, claim, w, rest, source).wire);
  }

  lemma RecordingExactly(fates: nat -> Fate, n: nat, w: Wire)
    requires Recording(fates, n, w)
    ensures n <= |w.posted|
    ensures w.version == w.server <==> forall k | n <= k < |w.posted| :: fates(k) != UNHEARD
    ensures w.version != w.server ==> exists k :: EndsRecord(fates, n, w, k)
  {
  }

  /** A model that always answers and a clock that stands still. */
  ghost predicate IsPrompt<Q(!new)>(g: Setting<Q>) {
    && g.around.prepared.Ok? && g.assignment.budgets.wallTimeMs > 0 && g.assignment.budgets.modelTurns > 0
    && (forall q :: !g.outside.cancelled(q).1 && g.outside.elapsedMs(q).1 == 0 && g.poll(q).1 == Going)
    && (forall q, context :: g.outside.nextAction(q, context).1.Ok?)
  }

  /** Such an attempt when only the answer to its first recorded turn is lost: not even its failure is recorded. */
  lemma LostTurnExample<Q(!new)>(g: Setting<Q>, w: Wire, rest: Q, source: Source)
    requires IsPrompt(g) && (forall k :: g.fates(k) == Fate(true, k != 2)) && w == Wire(0, 0, [], [])
    ensures var c := Claimed(g, Claim(true, false, true), w, rest, source);
            && !c.ok && c.wire.version + 1 == c.wire.server == 3
            && Kinds(c.wire.accepted) == [ToStage(AtPreparing), ToStage(AtRunning), TurnMade]
            && |c.wire.posted| > 3
  {
    hide Run, Publish, FailureCode;
    var begun := BeginStages(g.fates, w).wire;
    FirstStages(g.fates, w);
    FirstTurnUnheard(g, begun, rest, g.around.prepared.value);
    var d := Assigning(g, begun, rest, source);
    TurnUnheard(g.fates, begun);
    assert d.rest.wire == Send(g.fates, begun, TurnMade).wire;
    if d.result.Ok? {
      StagesWhenBehind(g.fates, d.rest.wire, d.result.value);
    }
  }

  lemma FirstStages(fates: nat -> Fate, w: Wire)
    requires fates(0) == fates(1) == Fate(true, true) && w == Wire(0, 0, [], [])
    ensures var begun := BeginStages(fates, w);
            && begun.ok && begun.wire.version == begun.wire.server == |begun.wire.posted| == 2
            && Kinds(begun.wire.accepted) == [ToStage(AtPreparing), ToStage(AtRunning)]
  {
  }

  lemma TurnUnheard(fates: nat -> Fate, w: Wire)
    requires fates(|w.posted|) == UNHEARD && w.version == w.server
    ensures var sent := Send(fates, w, TurnMade).wire;
            && sent.version + 1 == sent.server == w.server + 1 && |sent.posted| == |w.posted| + 1
            && Kinds(sent.accepted) == Kinds(w.accepted) + [TurnMade]
  {
  }

  lemma StagesWhenBehind(fates: nat -> Fate, w: Wire, report: Report)
    requires w.version < w.server
    ensures var sent := ReportStages(fates, w, report);
            && !sent.ok && |sent.wire.posted| == |w.posted| + 1 && sent.wire.accepted == w.accepted
            && sent.wire.version == w.version && sent.wire.server == w.server
  {
    hide FailureCode;
  }

  lemma FirstTurnUnheard<Q(!new)>(g: Setting<Q>, w: Wire, rest: Q, base: Commit)
    requires IsPrompt(g) && g.fates(|w.posted|) == UNHEARD && w.version == w.server
    ensures var s := RunIn(g, w, rest, base);
            && s.world.rest.wire == Send(g.fates, w, TurnMade).wire
            && s.now.outcome.status == Failed
  {
    var a, env, o := g.assignment, EnvOf(g), Wired(g.outside, g.fates, g.poll);
    var start: State<Bench<Desk<Q>>> := Start(Bench(Edits(base.tree, map[]), false, Desk(w, rest), []));
    RunInIs(g, w, rest, base);
    RunUnfolds(env, a.allowed, a.budgets, start);
    RunUnfolds(env, a.allowed, a.budgets, Advance(env, a.allowed, a.budgets, start));
    hide Run, CallTool, FinishLoop;
    var (u, cancelled) := env.cancelled(start.world);
    assert (u, cancelled) == Back(start.world, o.cancelled(start.world.rest)) && !cancelled;
    var (v, ms) := env.elapsedMs(u);
    assert (v, ms) == Back(u, o.elapsedMs(u.rest)) && ms == 0;
    var context := ContextOf(a.budgets, start.now.outcome.(modelTurns := 1));
    var (x, action) := env.nextAction(v, context);
    assert (x, action) == Back(v, o.nextAction(v.rest, context)) && action.Ok?;
    assert x.rest.wire == w;
    assert env.modelTurn(x, action.value) == Back(x, o.modelTurn(x.rest, action.value));
    assert o.modelTurn(x.rest, action.value) == ObserveTurn(g.fates, g.poll, x.rest);
  }

  ghost predicate NoSuccess(w: Wire) {
    forall i | 0 <= i < |w.accepted| :: w.accepted[i].kind != ToStage(AtSucceeded)
  }

  ghost predicate Unsucceeded(v0: nat, w: Wire) {
    Agrees(v0, w) && NoSuccess(w)
  }

  lemma SendUnsucceeded(fates: nat -> Fate, v0: nat, w: Wire, kind: Kind)
    requires Unsucceeded(v0, w)
    ensures Agrees(v0, Send(fates, w, kind).wire)
    ensures kind != ToStage(AtSucceeded) ==> Unsucceeded(v0, Send(fates, w, kind).wire)
    ensures var sent := Send(fates, w, kind);
            && (sent.ok ==> sent.wire.accepted == w.accepted + [Post(w.version, kind)])
            && (sent.wire.accepted == w.accepted || sent.wire.accepted == w.accepted + [Post(w.version, kind)])
  {
    SendAgrees(fates, v0, w, kind);
    hide Agrees;
  }

  lemma AssignmentUnsucceeded<Q(!new)>(g: Setting<Q>, v0: nat, w: Wire, rest: Q, source: Source)
    requires Unsucceeded(v0, w)
    ensures Unsucceeded(v0, Assigning(g, w, rest, source).rest.wire)
  {
    hide Run, Publish, Send, Unsucceeded;
    if g.around.prepared.Ok? {
      forall u, kind: Kind | Unsucceeded(v0, u) && !kind.ToStage? && !kind.PatchMade?
        ensures Unsucceeded(v0, Send(g.fates, u, kind).wire)
      {
        SendUnsucceeded(g.fates, v0, u, kind);
      }
      RunKeepsWire(g, w, rest, g.around.prepared.value, u => Unsucceeded(v0, u));
    }
  }

  lemma ReportedUnsucceeded(fates: nat -> Fate, v0: nat, w: Wire, report: Report)
    requires Unsucceeded(v0, w)
    ensures var r := ReportStages(fates, w, report);
            && Agrees(v0, r.wire)
            && (!NoSuccess(r.wire) ==>
                  report.outcome.status == Completed && r.wire.accepted[|r.wire.accepted| - 1].kind == ToStage(AtSucceeded))
            && (r.ok ==> !NoSuccess(r.wire))
  {
    hide Send, Agrees, FailureCode;
    SendUnsucceeded(fates, v0, w, ToStage(AtValidating));
    var validating := Send(fates, w, ToStage(AtValidating)).wire;
    SendUnsucceeded(fates, v0, validating, ToStage(AtFailed(FailureCode(report.outcome))));
    var patch := validating;
    if report.patch.Some? {
      var made := PatchMade(report.patch.value, report.changed);
      SendUnsucceeded(fates, v0, validating, made);
      patch := Send(fates, validating, made).wire;
    }
    SendUnsucceeded(fates, v0, patch, ToStage(AtSucceeded));
    var last := Send(fates, patch, ToStage(AtSucceeded)).wire.accepted;
    assert |last| > |patch.accepted| ==> last[|last| - 1].kind == ToStage(AtSucceeded);
  }

  /** A run that may be reported as succeeded: it completed, and a patch it was to persist is in the project's history. */
  ghost predicate MaySucceed<Q(!new)>(g: Setting<Q>, w: Wire, rest: Q, source: Source) {
    && g.around.prepared.Ok?
    && RunIn(g, w, rest, g.around.prepared.value).now.outcome.status == Completed
    && var d := Assigning(g, w, rest, source);
    && d.result.Ok?
    && (g.assignment.persist && d.result.value.patch.Some? ==>
          d.result.value.published.Some? && d.result.value.published.value in History(d.source.head))
  }

  lemma ReportsOfRun<Q(!new)>(g: Setting<Q>, w: Wire, rest: Q, source: Source)
    requires ShowsChanges(g.around)
    ensures var d := Assigning(g, w, rest, source);
            d.result.Ok? && d.result.value.outcome.status == Completed ==> MaySucceed(g, w, rest, source)
  {
    hide Run, Publish, BeforeMerge, ReachesMerge, EndsValidated;
    var o, x := Wired(g.outside, g.fates, g.poll), Around(g.around);
    forall d: Desk<Q>, tree: Tree
      ensures x.evidence(d, tree) == g.around.evidence(d.rest, tree)
    {
    }
    assert ShowsChanges(x);
    CompletedPatchIsPublished(o, g.assignment, x, Desk(w, rest), source);
  }

  /**
   * Over every link, the server accepts consecutive versions from its own, and the succeeded stage only as the last one
   * of an attempt whose loop completed and whose patch, if it was to be kept, is in the project's history.
   */
  lemma SucceededOnlyFromCompleted<Q(!new)>(g: Setting<Q>, claim: Claim, v0: nat, w: Wire, rest: Q, source: Source)
    requires ShowsChanges(g.around) && Unsucceeded(v0, w)
    ensures var c := Claimed(g, claim, w, rest, source);
            && Agrees(v0, c.wire)
            && (!NoSuccess(c.wire) ==>
                  && MaySucceed(g, BeginStages(g.fates, w).wire, rest, source)
                  && c.wire.accepted[|c.wire.accepted| - 1].kind == ToStage(AtSucceeded))
            && (c.ok ==> !NoSuccess(c.wire))
  {
    hide Run, Assigning, Send, ReportStages, MaySucceed, Agrees, ShowsChanges, RefusalCode;
    SendUnsucceeded(g.fates, v0, w, ToStage(AtCancelled(CANCELLED_CODE)));
    SendUnsucceeded(g.fates, v0, w, ToStage(AtPreparing));
    SendUnsucceeded(g.fates, v0, Send(g.fates, w, ToStage(AtPreparing)).wire, ToStage(AtRunning));
    var begun := BeginStages(g.fates, w).wire;
    AssignmentUnsucceeded(g, v0, begun, rest, source);
    ReportsOfRun(g, begun, rest, source);
    var d := Assigning(g, begun, rest, source);
    if d.result.Ok? {
      ReportedUnsucceeded(g.fates, v0, d.rest.wire, d.result.value);
    } else {
      SendUnsucceeded(g.fates, v0, d.rest.wire, ToStage(AtFailed(RefusalCode(d.result.error))));
    }
  }

  // ---------------------------------------------------------------------------------- a faithful link

  ghost predicate IsFaithful(fates: nat -> Fate) {
    forall k :: fates(k) == Fate(true, true)
  }

  function Kinds(posts: seq<Post>): (kinds: seq<Kind>)
    ensures |kinds| == |posts| && forall i | 0 <= i < |posts| :: kinds[i] == posts[i].kind
  {
    seq(|posts|, i requires 0 <= i < |posts| => posts[i].kind)
  }

  /** Every request so far carried the server's version, was accepted and moved it on by one. */
  ghost predicate InStep(v0: nat, w: Wire, kinds: seq<Kind>) {
    && w.version == w.server == v0 + |w.posted|
    && w.accepted == w.posted && Kinds(w.posted) == kinds
    && forall i | 0 <= i < |w.posted| :: w.posted[i].version == v0 + i
  }

  lemma SendInStep(fates: nat -> Fate, v0: nat, w: Wire, kinds: seq<Kind>, kind: Kind)
    requires IsFaithful(fates) && InStep(v0, w, kinds)
    ensures Send(fates, w, kind).ok && InStep(v0, Send(fates, w, kind).wire, kinds + [kind])
  {
    assert fates(|w.posted|) == Fate(true, true);
  }

  function CallPosts(sha: string -> string, step: Step): seq<Kind> {
    if step.output.Err? then []
    else
      var result := ResultOf(sha, step.request, step.output.value);
      [CallMade(step.request.id, step.request.operation, result.status)]
      + if IsValidation(step.request.operation) then [ValidationMade(result.status == SUCCEEDED)] else []
  }

  /** One post for each turn, one more for each answered tool call, and two for an answered `validation.run`. */
  function PostsOf(sha: string -> string, trail: seq<Step>): seq<Kind> {
    if trail == [] then []
    else PostsOf(sha, trail[..|trail| - 1]) + [TurnMade] + CallPosts(sha, trail[|trail| - 1])
  }

  lemma CallInStep(fates: nat -> Fate, sha: string -> string, v0: nat, w: Wire, kinds: seq<Kind>, step: Step)
    requires IsFaithful(fates) && InStep(v0, w, kinds) && step.output.Ok?
    ensures var sent := RecordCall(fates, w, ResultOf(sha, step.request, step.output.value));
            sent.ok && InStep(v0, sent.wire, kinds + CallPosts(sha, step))
  {
    hide Send, InStep, IsFaithful;
    var result := ResultOf(sha, step.request, step.output.value);
    var call := CallMade(result.id, result.operation, result.status);
    SendInStep(fates, v0, w, kinds, call);
    if IsValidation(step.request.operation) {
      var more := ValidationMade(result.status == SUCCEEDED);
      SendInStep(fates, v0, Send(fates, w, call).wire, kinds + [call], more);
      assert kinds + [call] + [more] == kinds + CallPosts(sha, step);
    } else {
      assert kinds + [call] == kinds + CallPosts(sha, step);
    }
  }

  /** The loop's posts so far; the last turn of a run that has ended may have led to no tool call. */
  ghost predicate LoopInStep(sha: string -> string, v0: nat, w: Wire, first: seq<Kind>, trail: seq<Step>, done: bool) {
    || InStep(v0, w, first + PostsOf(sha, trail))
    || (done && InStep(v0, w, first + PostsOf(sha, trail) + [TurnMade]))
  }

  lemma IterationInStep(fates: nat -> Fate, sha: string -> string, v0: nat, first: seq<Kind>, w: Wire, trail: seq<Step>, next: Wire,
                        after: seq<Step>, done: bool)
    requires IsFaithful(fates) && InStep(v0, w, first + PostsOf(sha, trail))
    requires Iterates(fates, sha, w, trail, next, after, done)
    ensures LoopInStep(sha, v0, next, first, after, done)
  {
    hide Send, InStep, IsFaithful, RecordCall, PostsOf, CallPosts;
    var kinds := first + PostsOf(sha, trail);
    SendInStep(fates, v0, w, kinds, TurnMade);
    if after != trail {
      var turn := Send(fates, w, TurnMade);
      var step :| after == trail + [step] && CallSent(fates, sha, turn.wire, step, next, done);
      PostsMore(sha, trail, step);
      if step.output.Ok? {
        CallInStep(fates, sha, v0, turn.wire, kinds + [TurnMade], step);
      }
      assert kinds + [TurnMade] + CallPosts(sha, step) == first + PostsOf(sha, after);
      assert step.output.Err? ==> kinds + [TurnMade] == kinds + [TurnMade] + CallPosts(sha, step);
    }
  }

  lemma PostsMore(sha: string -> string, trail: seq<Step>, step: Step)
    ensures PostsOf(sha, trail + [step]) == PostsOf(sha, trail) + [TurnMade] + CallPosts(sha, step)
    ensures step.output.Err? ==> CallPosts(sha, step) == []
  {
    assert (trail + [step])[..|trail|] == trail;
  }

  lemma RunInStep<Q(!new)>(g: Setting<Q>, v0: nat, w: Wire, first: seq<Kind>, rest: Q, base: Commit)
    requires IsFaithful(g.fates) && InStep(v0, w, first)
    ensures var s := RunIn(g, w, rest, base);
            LoopInStep(g.outside.sha, v0, s.world.rest.wire, first, s.world.trail, true)
  {
    hide Run, Advance, Iterates, EnvOf, IsFaithful, PostsOf, InStep;
    var a, sha := g.assignment, g.outside.sha;
    var none: seq<Step> := [];
    var start: State<Bench<Desk<Q>>> := Start(Bench(Edits(base.tree, map[]), false, Desk(w, rest), none));
    NoPosts(sha, none);
    assert first + PostsOf(sha, none) == first;
    forall t: State<Bench<Desk<Q>>> | LoopInStep(sha, v0, t.world.rest.wire, first, t.world.trail, t.now.done) && !t.now.done
      ensures var next := Advance(EnvOf(g), a.allowed, a.budgets, t);
              LoopInStep(sha, v0, next.world.rest.wire, first, next.world.trail, next.now.done)
    {
      AdvanceIterates(g, a.allowed, a.budgets, t);
      var next := Advance(EnvOf(g), a.allowed, a.budgets, t);
      IterationInStep(g.fates, sha, v0, first, t.world.rest.wire, t.world.trail, next.world.rest.wire, next.world.trail, next.now.done);
    }
    RunKeeps(EnvOf(g), a.allowed, a.budgets, start,
             (t: State<Bench<Desk<Q>>>) => LoopInStep(sha, v0, t.world.rest.wire, first, t.world.trail, t.now.done));
    RunInIs(g, w, rest, base);
  }

  lemma NoPosts(sha: string -> string, trail: seq<Step>)
    requires |trail| == 0
    ensures PostsOf(sha, trail) == []
  {
  }

  function Ending<Q(!new)>(d: Assigned<Desk<Q>>): seq<Kind> {
    match d.result
    case Err(refusal) => [ToStage(AtFailed(RefusalCode(refusal)))]
    case Ok(report) =>
      if report.outcome.status != Completed then [ToStage(AtValidating), ToStage(AtFailed(FailureCode(report.outcome)))]
      else
        [ToStage(AtValidating)]
        + (if report.patch.Some? then [PatchMade(report.patch.value, report.changed)] else [])
        + [ToStage(AtSucceeded)]
  }

  lemma EndingInStep<Q(!new)>(fates: nat -> Fate, v0: nat, d: Assigned<Desk<Q>>, kinds: seq<Kind>)
    requires IsFaithful(fates) && InStep(v0, d.rest.wire, kinds)
    ensures match d.result
            case Err(refusal) => InStep(v0, Send(fates, d.rest.wire, ToStage(AtFailed(RefusalCode(refusal)))).wire, kinds + Ending(d))
            case Ok(report) =>
              var sent := ReportStages(fates, d.rest.wire, report);
              InStep(v0, sent.wire, kinds + Ending(d)) && sent.ok == (report.outcome.status == Completed)
  {
    hide Send, InStep, IsFaithful, FailureCode, RefusalCode;
    var w := d.rest.wire;
    match d.result {
      case Err(refusal) => SendInStep(fates, v0, w, kinds, ToStage(AtFailed(RefusalCode(refusal))));
      case Ok(report) =>
        SendInStep(fates, v0, w, kinds, ToStage(AtValidating));
        var u, then1 := Send(fates, w, ToStage(AtValidating)).wire, kinds + [ToStage(AtValidating)];
        var failed := ToStage(AtFailed(FailureCode(report.outcome)));
        SendInStep(fates, v0, u, then1, failed);
        SendInStep(fates, v0, u, then1, ToStage(AtSucceeded));
        assert kinds + [ToStage(AtValidating), failed] == then1 + [failed];
        assert kinds + ([ToStage(AtValidating)] + [] + [ToStage(AtSucceeded)]) == then1 + [ToStage(AtSucceeded)];
        if report.patch.Some? {
          var made := PatchMade(report.patch.value, report.changed);
          SendInStep(fates, v0, u, then1, made);
          SendInStep(fates, v0, Send(fates, u, made).wire, then1 + [made], ToStage(AtSucceeded));
          assert kinds + ([ToStage(AtValidating)] + [made] + [ToStage(AtSucceeded)]) == then1 + [made] + [ToStage(AtSucceeded)];
        }
    }
  }

  function TrailOf<Q(!new)>(g: Setting<Q>, w: Wire, rest: Q): seq<Step> {
    if g.around.prepared.Ok? then RunIn(g, w, rest, g.around.prepared.value).world.trail else []
  }

  const OPENING: seq<Kind> := [ToStage(AtPreparing), ToStage(AtRunning)]

  /**
   * On a link that loses nothing every request of an attempt carries exactly the server's version and is accepted. The
   * requests are the opening stages, one for each turn, one more for each answered tool call and two for an answered
   * validation, and the ending the outcome calls for.
   */
  lemma FaithfulAttempt<Q(!new)>(g: Setting<Q>, v0: nat, w: Wire, rest: Q, source: Source) returns (silent: seq<Kind>)
    requires IsFaithful(g.fates) && w == Wire(v0, v0, [], [])
    ensures silent == [] || silent == [TurnMade]
    ensures var c := Claimed(g, Claim(true, false, true), w, rest, source);
            var begun := BeginStages(g.fates, w).wire;
            var d := Assigning(g, begun, rest, source);
            && InStep(v0, c.wire, OPENING + PostsOf(g.outside.sha, TrailOf(g, begun, rest)) + silent + Ending(d))
            && (c.ok <==> d.result.Ok? && d.result.value.outcome.status == Completed)
  {
    var none: seq<Kind> := [];
    var trail: seq<Step> := [];
    assert InStep(v0, w, none);
    NoPosts(g.outside.sha, trail);
    SendInStep(g.fates, v0, w, none, ToStage(AtPreparing));
    SendInStep(g.fates, v0, Send(g.fates, w, ToStage(AtPreparing)).wire, none + [ToStage(AtPreparing)], ToStage(AtRunning));
    assert none + [ToStage(AtPreparing)] + [ToStage(AtRunning)] == OPENING;
    hide Run, Publish, Send, InStep, IsFaithful, ReportStages, Ending, PostsOf;
    var begun := BeginStages(g.fates, w).wire;
    var d := Assigning(g, begun, rest, source);
    silent := [];
    if g.around.prepared.Ok? {
      RunInStep(g, v0, begun, OPENING, rest, g.around.prepared.value);
      if !InStep(v0, d.rest.wire, OPENING + PostsOf(g.outside.sha, TrailOf(g, begun, rest))) {
        silent := [TurnMade];
      }
    }
    var kinds := OPENING + PostsOf(g.outside.sha, TrailOf(g, begun, rest));
    assert kinds + [] == kinds && OPENING + [] == OPENING;
    EndingInStep(g.fates, v0, d, kinds + silent);
  }
}
