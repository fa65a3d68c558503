/** Validate before publish: what a whole assignment can do to the project, for every model, tool outcome and clock. */
module ValidatedPublishing {
  import opened Wrappers
  import opened BoundedLoops
  import opened LoopBudgets
  import opened RepositoryEdits
  import opened Paths
  import opened Publishing
  import opened Executors

  // ------------------------------------------------------------------------------------- the history

  predicate IsGate(step: Step) {
    IsPatch(step.request.operation) || IsValidation(step.request.operation)
  }

  predicate Passes(step: Step) {
    IsValidation(step.request.operation) && step.output.Ok? && step.output.value.status == Some(PASSED)
  }

  ghost predicate IsLastGate(trail: seq<Step>, g: int) {
    && 0 <= g < |trail| && IsGate(trail[g])
    && forall i | g < i < |trail| :: !IsGate(trail[i])
  }

  /** The last `patch.apply` or `validation.run` of the history is a validation that passed, and left this tree. */
  ghost predicate EndsValidated(trail: seq<Step>, tree: Tree) {
    exists g :: IsLastGate(trail, g) && Passes(trail[g]) && trail[g].tree == tree
  }

  ghost predicate AllAnswered(trail: seq<Step>) {
    forall i | 0 <= i < |trail| :: trail[i].output.Ok?
  }

  function TreeBefore(base: Tree, trail: seq<Step>, i: nat): Tree
    requires i <= |trail|
  {
    if i == 0 then base else trail[i - 1].tree
  }

  /** Only the two gated operations ever change the tree. */
  ghost predicate ReadsKeep(base: Tree, trail: seq<Step>) {
    forall i | 0 <= i < |trail| && !IsGate(trail[i]) :: trail[i].tree == TreeBefore(base, trail, i)
  }

  /** The bench agrees with its history. */
  ghost predicate Recorded<R(!new)>(base: Tree, b: Bench<R>) {
    && b.edits.tree == TreeBefore(base, b.trail, |b.trail|)
    && ReadsKeep(base, b.trail)
    && (AllAnswered(b.trail) ==> (b.passed <==> EndsValidated(b.trail, b.edits.tree)))
  }

  // ----------------------------------------------------------------------------------- one tool call

  /** An attempted patch revokes an earlier pass; a read keeps both flag and tree; a failed call of neither kind too. */
  lemma ToolCalls<R(!new)>(o: Outside<R>, b: Bench<R>, request: ToolRequest)
    ensures var (after, result) := ExecuteTool(o, b, request);
            && (IsPatch(request.operation) ==> !after.passed)
            && (!IsPatch(request.operation) && !IsValidation(request.operation) ==>
                  after.passed == b.passed && after.edits == b.edits)
            && (IsValidation(request.operation) && result.Ok? ==>
                  after.passed == Passes(after.trail[|b.trail|]) && after.edits.applied == b.edits.applied)
            && after.trail[..|b.trail|] == b.trail && |after.trail| == |b.trail| + 1
            && after.trail[|b.trail|].request == request && after.trail[|b.trail|].tree == after.edits.tree
            && (after.trail[|b.trail|].output.Ok? <==> result.Ok?)
            && (result.Ok? ==> result.value == ResultOf(o.sha, request, after.trail[|b.trail|].output.value))
  {
  }

  lemma LastGateMoves(trail: seq<Step>, step: Step, tree: Tree)
    ensures EndsValidated(trail + [step], tree)
       <==> if IsGate(step) then Passes(step) && step.tree == tree else EndsValidated(trail, tree)
  {
    var longer := trail + [step];
    if IsGate(step) && Passes(step) && step.tree == tree {
      assert IsLastGate(longer, |trail|);
    }
    if !IsGate(step) && EndsValidated(trail, tree) {
      var g :| IsLastGate(trail, g) && Passes(trail[g]) && trail[g].tree == tree;
      assert IsLastGate(longer, g);
    }
    if EndsValidated(longer, tree) {
      var g :| IsLastGate(longer, g) && Passes(longer[g]) && longer[g].tree == tree;
      if !IsGate(step) {
        assert forall i | 0 <= i < |trail| :: longer[i] == trail[i];
        assert IsLastGate(trail, g);
      } else {
        assert g == |trail|;
      }
    }
  }

  lemma ExecuteRecords<R(!new)>(o: Outside<R>, base: Tree, b: Bench<R>, request: ToolRequest)
    requires Recorded(base, b)
    ensures Recorded(base, ExecuteTool(o, b, request).0)
  {
    ToolCalls(o, b, request);
    hide ExecuteTool, EndsValidated;
    var after := ExecuteTool(o, b, request).0;
    var step := after.trail[|b.trail|];
    assert after.trail == b.trail + [step];
    LastGateMoves(b.trail, step, after.edits.tree);
    assert forall i | 0 <= i < |b.trail| :: b.trail[i] == after.trail[i];
    if AllAnswered(after.trail) {
      assert AllAnswered(b.trail);
    }
  }

  // ------------------------------------------------------------------------------------ the whole run

  ghost predicate SameBench<R(!new)>(a: Bench<R>, b: Bench<R>) {
    a.edits == b.edits && a.passed == b.passed && a.trail == b.trail
  }

  /** One iteration leaves the bench alone, or executes one request on it; a refusal by the tools ends the run. */
  ghost predicate Worked<R(!new)>(o: Outside<R>, s: State<Bench<R>>, t: State<Bench<R>>, call: Option<(Bench<R>, ToolRequest)>) {
    match call
    case None => SameBench(s.world, t.world) && t.executed == s.executed
    case Some((b, request)) =>
      && SameBench(s.world, b)
      && SameBench(ExecuteTool(o, b, request).0, t.world)
      && t.executed == s.executed + [request]
      && (ExecuteTool(o, b, request).1.Err? ==> t.now.done && t.now.outcome.status == Failed)
  }

  lemma CallWorks<R(!new)>(o: Outside<R>, allowed: set<string>, b: Budgets, s: State<Bench<R>>, request: ToolRequest)
    returns (call: Option<(Bench<R>, ToolRequest)>)
    ensures Worked(o, s, CallTool(Env(o), allowed, b, s, request), call)
  {
    hide ExecuteTool, TakeResult, HasUsableKey, Acceptable;
    assert Env(o).execute(s.world, request) == ExecuteTool(o, s.world, request);
    var (w, r) := ExecuteTool(o, s.world, request);
    if r.Ok? {
      assert Env(o).toolCall(w, request, r.value) == Back(w, o.toolCall(w.rest, request, r.value));
      assert SameBench(w, Env(o).toolCall(w, request, r.value).0);
    }
    assert SameBench(w, w);
    call := if |CallTool(Env(o), allowed, b, s, request).executed| == |s.executed| then None else Some((s.world, request));
  }

  /** Nothing but the tools touches the bench. */
  lemma OthersKeepBench<R(!new)>(o: Outside<R>, b: Bench<R>, context: Context, action: Action)
    ensures SameBench(b, Env(o).cancelled(b).0) && SameBench(b, Env(o).elapsedMs(b).0)
    ensures SameBench(b, Env(o).nextAction(b, context).0) && SameBench(b, Env(o).modelTurn(b, action).0)
  {
    assert Env(o).nextAction(b, context) == Back(b, o.nextAction(b.rest, context));
    assert Env(o).modelTurn(b, action) == Back(b, o.modelTurn(b.rest, action));
  }

  lemma TurnWorks<R(!new)>(o: Outside<R>, allowed: set<string>, b: Budgets, s: State<Bench<R>>)
    returns (call: Option<(Bench<R>, ToolRequest)>)
    ensures Worked(o, s, TakeTurn(Env(o), allowed, b, s), call)
  {
    hide ExecuteTool, CallTool, FinishLoop, SameBench, Env;
    var p := s.now.(outcome := s.now.outcome.(modelTurns := s.now.outcome.modelTurns + 1));
    var (x, action) := Env(o).nextAction(s.world, ContextOf(b, p.outcome));
    OthersKeepBench(o, s.world, ContextOf(b, p.outcome), Finish(""));
    if action.Err? {
      return None;
    }
    OthersKeepBench(o, x, ContextOf(b, p.outcome), action.value);
    var (v, refused) := Env(o).modelTurn(x, action.value);
    SameTwice(s.world, x, v);
    if refused.Some? || action.value.Finish? {
      return None;
    }
    call := CallWorks(o, allowed, b, s.(world := v, now := p), action.value.request);
    if call.None? {
      SameTwice(s.world, v, TakeTurn(Env(o), allowed, b, s).world);
    } else {
      SameTwice(s.world, v, call.value.0);
    }
  }

  lemma AdvanceWorks<R(!new)>(o: Outside<R>, allowed: set<string>, b: Budgets, s: State<Bench<R>>)
    returns (call: Option<(Bench<R>, ToolRequest)>)
    requires !s.now.done
    ensures Worked(o, s, Advance(Env(o), allowed, b, s), call)
  {
    hide ExecuteTool, TakeTurn, SameBench, Env;
    var (w, cancelled) := Env(o).cancelled(s.world);
    OthersKeepBench(o, s.world, ContextOf(b, s.now.outcome), Finish(""));
    if cancelled {
      return None;
    }
    OthersKeepBench(o, w, ContextOf(b, s.now.outcome), Finish(""));
    var (v, ms) := Env(o).elapsedMs(w);
    SameTwice(s.world, w, v);
    if ms >= b.wallTimeMs || s.now.outcome.modelTurns >= b.modelTurns {
      return None;
    }
    call := TurnWorks(o, allowed, b, s.(world := v));
    if call.None? {
      SameTwice(s.world, v, Advance(Env(o), allowed, b, s).world);
    } else {
      SameTwice(s.world, v, call.value.0);
    }
  }

  lemma SameTwice<R(!new)>(a: Bench<R>, b: Bench<R>, c: Bench<R>)
    ensures SameBench(a, b) && SameBench(b, c) ==> SameBench(a, c)
  {
  }

  ghost predicate Traced<R(!new)>(base: Tree, s: State<Bench<R>>) {
    && Recorded(base, s.world)
    && |s.world.trail| == |s.executed|
    && (forall i | 0 <= i < |s.executed| :: s.world.trail[i].request == s.executed[i])
    && (AllAnswered(s.world.trail) || (s.now.done && s.now.outcome.status == Failed))
  }

  lemma AdvanceTraces<R(!new)>(o: Outside<R>, allowed: set<string>, b: Budgets, base: Tree, s: State<Bench<R>>)
    requires !s.now.done && Traced(base, s)
    ensures Traced(base, Advance(Env(o), allowed, b, s))
  {
    var call := AdvanceWorks(o, allowed, b, s);
    hide Advance, ExecuteTool, EndsValidated, ReadsKeep;
    if call.Some? {
      ExecuteRecords(o, base, call.value.0, call.value.1);
      ToolCalls(o, call.value.0, call.value.1);
      var trail, after := s.world.trail, Advance(Env(o), allowed, b, s).world.trail;
      assert forall i | 0 <= i < |trail| :: after[i] == after[..|trail|][i];
    }
  }

  lemma StartTraced<R(!new)>(base: Commit, rest: R)
    ensures Traced(base.tree, Start(Bench(Edits(base.tree, map[]), false, rest, [])))
  {
  }

  lemma EveryRunTraces<R(!new)>(o: Outside<R>, a: Assignment, base: Commit, rest: R)
    ensures Traced(base.tree, RunOf(o, a, base, rest)) && RunOf(o, a, base, rest).now.done
  {
    hide Advance, Traced, Run;
    var start: State<Bench<R>> := Start(Bench(Edits(base.tree, map[]), false, rest, []));
    StartTraced(base, rest);
    forall t: State<Bench<R>> | Traced(base.tree, t) && !t.now.done
      ensures Traced(base.tree, Advance(Env(o), a.allowed, a.budgets, t))
    {
      AdvanceTraces(o, a.allowed, a.budgets, base.tree, t);
    }
    RunKeeps(Env(o), a.allowed, a.budgets, start, (t: State<Bench<R>>) => Traced(base.tree, t));
  }

  /** Over a whole run the history is the executed requests in order, each with authority, and no read changed the tree. */
  lemma RunHistory<R(!new)>(o: Outside<R>, a: Assignment, base: Commit, rest: R)
    ensures var s := RunOf(o, a, base, rest);
            && |s.world.trail| == |s.executed| == s.now.outcome.toolCalls
            && (forall i | 0 <= i < |s.executed| ::
                  s.world.trail[i].request == s.executed[i] && Authorized(a.allowed, s.executed[i]))
            && s.world.edits.tree == TreeBefore(base.tree, s.world.trail, |s.world.trail|)
            && ReadsKeep(base.tree, s.world.trail)
  {
    hide Run;
    EveryRunTraces(o, a, base, rest);
    BudgetsAndAuthority(Env(o), a.allowed, a.budgets, Bench(Edits(base.tree, map[]), false, rest, []));
  }

  // ------------------------------------------------------------------------------------ the project

  /** The complete diff is empty exactly when the workspace holds the base. */
  ghost predicate ShowsChanges<R(!new)>(x: Surroundings<R>) {
    forall r: R, tree :: x.prepared.Ok? && x.evidence(r, tree).Ok? ==>
      (x.evidence(r, tree).value.diff == "" <==> tree == x.prepared.value.tree)
  }

  /**
   * The run may be published on the project as it is found: it was to persist and completed with a change, its history
   * ends validated, evidence could be gathered, and publishing reaches the merge.
   */
  ghost predicate Publishable<R(!new)>(o: Outside<R>, a: Assignment, x: Surroundings<R>, rest: R, found: Source) {
    && a.persist && x.prepared.Ok?
    && var base, s := x.prepared.value, RunOf(o, a, x.prepared.value, rest);
       var tree := s.world.edits.tree;
    && s.now.outcome.status == Completed
    && EndsValidated(s.world.trail, tree)
    && x.evidence(s.world.rest, tree).Ok?
    && ReachesMerge(x.quote, found, Workspace(base, tree, o.prefixes), x.git)
  }

  /** The project as others have left it, up to the merge if there is one. */
  function LeftByOthers<R(!new)>(o: Outside<R>, a: Assignment, x: Surroundings<R>, rest: R, source: Source): Source {
    if x.prepared.Err? then source
    else
      var s := RunOf(o, a, x.prepared.value, rest);
      var tree := s.world.edits.tree;
      var found := x.evidence(s.world.rest, tree);
      if || found.Err? || !a.persist || s.now.outcome.status != Completed
         || (PatchOf(o.sha, found.value.diff).Some? && !s.world.passed)
      then x.meanwhile(source)
      else BeforeMerge(x.quote, x.meanwhile(source), Workspace(x.prepared.value, tree, o.prefixes), a.message, x.git, x.others).source
  }

  /**
   * HEAD moves exactly when the run is publishable, the merge runs, and what others left by then has HEAD at the base or
   * an ancestor of it, the commit in its store and no touched file changed; it moves to one commit on the base whose
   * tree is the one the last validation left. In every other case the project is as others left it.
   */
  lemma PublishesExactlyValidated<R(!new)>(o: Outside<R>, a: Assignment, x: Surroundings<R>, rest: R, source: Source)
    requires ShowsChanges(x)
    ensures var d := Assign(o, a, x, rest, source);
            var late := LeftByOthers(o, a, x, rest, source);
            && (d.source.head != late.head <==>
                  && Publishable(o, a, x, rest, x.meanwhile(source)) && x.git.merged
                  && var base := x.prepared.value;
                     var tree := RunOf(o, a, base, rest).world.edits.tree;
                  && Child(base, tree, a.message) in late.objects && late.head in History(base)
                  && Untouched(late.files, late.head.tree, tree))
            && (if d.source.head != late.head then
                  && d.source.head == Child(x.prepared.value, RunOf(o, a, x.prepared.value, rest).world.edits.tree, a.message)
                  && d.result.Ok? && d.result.value.published == Some(d.source.head) && d.result.value.patch.Some?
                else d.source == late)
  {
    hide Run, EndsValidated, Publish, BeforeMerge, ReachesMerge, Untouched;
    if x.prepared.Ok? {
      var base, found := x.prepared.value, x.meanwhile(source);
      var s := RunOf(o, a, base, rest);
      var ws := Workspace(base, s.world.edits.tree, o.prefixes);
      EveryRunTraces(o, a, base, rest);
      PublishIsAllOrNothing(x.quote, found, ws, a.message, x.git, x.others);
      ReachingMeansChanged(x.quote, found, ws, x.git);
    }
  }

  lemma ReachingMeansChanged(quote: Path -> string, source: Source, ws: Workspace, git: Git)
    ensures ReachesMerge(quote, source, ws, git) ==> ws.tree != ws.base.tree
  {
  }

  /** No persisted run that completed with a patch is reported without a publishable commit in the project's history. */
  lemma CompletedPatchIsPublished<R(!new)>(o: Outside<R>, a: Assignment, x: Surroundings<R>, rest: R, source: Source)
    requires ShowsChanges(x)
    ensures var d := Assign(o, a, x, rest, source);
            a.persist && d.result.Ok? && d.result.value.outcome.status == Completed ==>
              && (d.result.value.patch.Some? <==> d.result.value.published.Some?)
              && (d.result.value.patch.Some? ==>
                    && Publishable(o, a, x, rest, x.meanwhile(source))
                    && d.result.value.published.value in History(d.source.head)
                    && d.result.value.published.value
                    == Child(x.prepared.value, RunOf(o, a, x.prepared.value, rest).world.edits.tree, a.message))
  {
    hide Run, EndsValidated, Publish, BeforeMerge, ReachesMerge, Untouched;
    if a.persist && x.prepared.Ok? {
      var base, found := x.prepared.value, x.meanwhile(source);
      var s := RunOf(o, a, base, rest);
      var ws := Workspace(base, s.world.edits.tree, o.prefixes);
      EveryRunTraces(o, a, base, rest);
      PublishIsAllOrNothing(x.quote, found, ws, a.message, x.git, x.others);
      ReachingMeansChanged(x.quote, found, ws, x.git);
    }
  }

  // --------------------------------------------------------------------- runs whose validations only read

  ghost predicate ValidationsRead<R(!new)>(o: Outside<R>) {
    forall r: R, profile, tree :: o.validate(r, profile, tree).1 == tree
  }

  ghost predicate MadeByEdits<R(!new)>(o: Outside<R>, base: Tree, edits: Edits) {
    exists calls :: edits == ApplyAll(o.sha, o.prefixes, Edits(base, map[]), calls)
  }

  lemma ExecuteEdits<R(!new)>(o: Outside<R>, base: Tree, b: Bench<R>, request: ToolRequest)
    requires ValidationsRead(o) && MadeByEdits(o, base, b.edits)
    ensures MadeByEdits(o, base, ExecuteTool(o, b, request).0.edits)
  {
    hide Applied;
    if IsPatch(request.operation) && request.key.Some? && o.replacementIn(request.input).Some? {
      var replacement := o.replacementIn(request.input).value;
      var io := o.io(b.rest, replacement).1;
      var calls :| b.edits == ApplyAll(o.sha, o.prefixes, Edits(base, map[]), calls);
      var more := calls + [Call(request.key.value, replacement, io)];
      assert more[..|calls|] == calls;
      assert ExecuteTool(o, b, request).0.edits == ApplyAll(o.sha, o.prefixes, Edits(base, map[]), more);
    } else {
      assert ExecuteTool(o, b, request).0.edits == b.edits;
    }
  }

  lemma EveryRunEdits<R(!new)>(o: Outside<R>, a: Assignment, base: Commit, rest: R)
    requires ValidationsRead(o)
    ensures MadeByEdits(o, base.tree, RunOf(o, a, base, rest).world.edits)
  {
    hide Run, Advance, ExecuteTool, MadeByEdits;
    var start: State<Bench<R>> := Start(Bench(Edits(base.tree, map[]), false, rest, []));
    NoEdits(o, base.tree);
    forall t: State<Bench<R>> | MadeByEdits(o, base.tree, t.world.edits) && !t.now.done
      ensures MadeByEdits(o, base.tree, Advance(Env(o), a.allowed, a.budgets, t).world.edits)
    {
      var call := AdvanceWorks(o, a.allowed, a.budgets, t);
      if call.Some? {
        ExecuteEdits(o, base.tree, call.value.0, call.value.1);
      }
    }
    RunKeeps(Env(o), a.allowed, a.budgets, start, (t: State<Bench<R>>) => MadeByEdits(o, base.tree, t.world.edits));
  }

  lemma NoEdits<R(!new)>(o: Outside<R>, base: Tree)
    ensures MadeByEdits(o, base, Edits(base, map[]))
  {
    var none: seq<Call> := [];
    assert Edits(base, map[]) == ApplyAll(o.sha, o.prefixes, Edits(base, map[]), none);
  }

  /**
   * When validations only read, a run's changes pass the publishing path check exactly when the assignment names a prefix
   * and Git prints every changed path as it is.
   */
  lemma EditedRunPassesPathCheckExactly<R(!new)>(o: Outside<R>, a: Assignment, base: Commit, rest: R, quote: Path -> string, git: Git)
    requires ValidationsRead(o) && NoQuotedPrefix(o.prefixes)
    requires RunOf(o, a, base, rest).world.edits.tree != base.tree
    ensures var ws := Workspace(base, RunOf(o, a, base, rest).world.edits.tree, o.prefixes);
            !ShowsRename(ws.base.tree, ws.tree, git) && PathsAccepted(quote, ws) <==>
              ws.prefixes != [] && forall p | p in Changed(ws.base.tree, ws.tree) :: IsPlain(p)
  {
    hide Run, ApplyAll, PathsAccepted, ShowsRename, IsPlain, NoQuotedPrefix;
    EveryRunEdits(o, a, base, rest);
    var edits := RunOf(o, a, base, rest).world.edits;
    var calls :| edits == ApplyAll(o.sha, o.prefixes, Edits(base.tree, map[]), calls);
    ToolEditsPassExactly(quote, o.sha, Workspace(base, edits.tree, o.prefixes), calls, git);
  }
}
