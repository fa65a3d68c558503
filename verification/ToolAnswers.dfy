/** What the workspace tools answer, and what a whole run and a whole assignment answer from it. */
module ToolAnswers {
  import opened Wrappers
  import opened Text
  import opened BoundedLoops
  import opened LoopBudgets
  import opened LoopDecisions
  import opened RepositoryEdits
  import opened Paths
  import opened Publishing
  import opened Executors
  import opened ValidatedPublishing

  // ------------------------------------------------------------------------------------ one answer

  predicate Reads(operation: string) {
    operation == "repository.status" || operation == "repository.diff" || operation == "file.read" || operation == "file.search"
  }

  /** A read answers what the world answers on this tree. */
  ghost predicate ReadAnswers<R(!new)>(o: Outside<R>, r: R, was: Edits, step: Step, now: Edits) {
    step.output == o.read(r, step.request, was.tree).1 && now == was
  }

  /** A patch needs a replacement that can be read and a key, and then answers what the edit does. */
  ghost predicate PatchAnswers<R(!new)>(o: Outside<R>, r: R, was: Edits, step: Step, now: Edits) {
    var read, key := o.replacementIn(step.request.input), step.request.key;
    if read.None? then step.output == Err("HARNESS_TOOL_INPUT_INVALID") && now == was
    else if key.None? then step.output == Err("HARNESS_IDEMPOTENCY_REQUIRED") && now == was
    else
      var a := Applied(o.sha, o.prefixes, was, key.value, read.value, o.io(r, read.value).1);
      && now == a.edits
      && (a.result.Ok? ==> step.output == Ok(Output(None, None, o.patchText(a.result.value))))
      && (step.output == Err("HARNESS_IDEMPOTENCY_REQUIRED") <==> a.result == Err(BadKey))
      && (step.output == Err("HARNESS_PATH_DENIED") <==> a.result == Err(PathDenied))
      && (step.output == Err("HARNESS_IDEMPOTENCY_CONFLICT") <==> a.result == Err(KeyConflict))
      && (step.output == Err("HARNESS_ARTIFACT_INVALID") <==> a.result in {Err(BadContent), Err(ExpectedMissing), Err(ContentMoved)})
  }

  predicate MayValidate<R(!new)>(o: Outside<R>, request: ToolRequest) {
    && o.profileIn(request.input).Some?
    && o.profileIn(request.input).value in o.allowedProfiles && o.profileIn(request.input).value in o.configuredProfiles
  }

  /** A validation runs only under a profile that is both allowed and configured, and answers its verdict and diff. */
  ghost predicate ValidationAnswers<R(!new)>(o: Outside<R>, r: R, was: Edits, step: Step, now: Edits) {
    var profile := o.profileIn(step.request.input);
    if !MayValidate(o, step.request) then
      && step.output == Err(if profile.None? then "HARNESS_TOOL_INPUT_INVALID" else "HARNESS_VALIDATION_PROFILE_DENIED")
      && now == was
    else
      var (rest, tree, verdict) := o.validate(r, profile.value, was.tree);
      var diff := o.diff(rest, tree).1;
      && now == Edits(tree, was.applied)
      && (step.output.Ok? <==> verdict.Ok? && diff.Ok?)
      && (verdict.Err? ==> step.output == Err(verdict.error))
      && (verdict.Ok? && diff.Err? ==> step.output == Err(diff.error))
      && (step.output.Ok? ==>
            step.output.value == Output(Some(verdict.value.status), Some(verdict.value.code), o.verdictText(verdict.value, diff.value)))
  }

  /** One step of the history, on what it found and what it left. */
  ghost predicate StepAnswers<R(!new)>(o: Outside<R>, r: R, was: Edits, step: Step, now: Edits) {
    && step.tree == now.tree
    && if Reads(step.request.operation) then ReadAnswers(o, r, was, step, now)
       else if step.request.operation == "patch.apply" then PatchAnswers(o, r, was, step, now)
       else if step.request.operation == "validation.run" then ValidationAnswers(o, r, was, step, now)
       else step.output == Err("HARNESS_OPERATION_UNSUPPORTED") && now == was
  }

  /** The result the loop is given: a validation that passed, and any output without a status, has succeeded. */
  predicate Carries(sha: string -> string, request: ToolRequest, output: Output, result: ToolResult) {
    && result.id == request.id && result.operation == request.operation
    && result.output == output.text && result.code == output.code
    && result.outputBytes == ByteLength(output.text) % 0x1_0000_0000_0000_0000 && result.digest == sha(output.text)
    && (result.status == "succeeded" <==> output.status in {None, Some("passed"), Some("succeeded")})
    && (result.status != "succeeded" ==> output.status == Some(result.status))
  }

  lemma PatchStep<R(!new)>(o: Outside<R>, b: Bench<R>, request: ToolRequest)
    ensures var p := ApplyPatch(o, b, request);
            PatchAnswers(o, b.rest, b.edits, Step(request, p.output, p.bench.edits.tree), p.bench.edits)
  {
    hide Applied;
  }

  lemma ValidationStep<R(!new)>(o: Outside<R>, b: Bench<R>, request: ToolRequest)
    ensures var p := RunValidation(o, b, request);
            ValidationAnswers(o, b.rest, b.edits, Step(request, p.output, p.bench.edits.tree), p.bench.edits)
  {
    if MayValidate(o, request) {
      var (rest, tree, verdict) := o.validate(b.rest, o.profileIn(request.input).value, b.edits.tree);
      var (more, diff) := o.diff(rest, tree);
      var p := RunValidation(o, b, request);
      assert verdict.Err? ==> p.output == Err(verdict.error);
      assert verdict.Ok? && diff.Err? ==> p.output == Err(diff.error);
      assert verdict.Ok? && diff.Ok? ==> p.output.Ok?;
      assert p.bench.edits == Edits(tree, b.edits.applied);
    }
  }

  lemma CarriesResult(sha: string -> string, request: ToolRequest, output: Output)
    ensures Carries(sha, request, output, ResultOf(sha, request, output))
  {
  }

  ghost predicate CallAnswers<R(!new)>(o: Outside<R>, b: Bench<R>, step: Step, after: Bench<R>, result: Result<ToolResult, string>) {
    && after.trail == b.trail + [step]
    && StepAnswers(o, b.rest, b.edits, step, after.edits)
    && if step.output.Ok? then result.Ok? && Carries(o.sha, step.request, step.output.value, result.value)
       else result == Err(step.output.error)
  }

  /** Every call of a tool is answered as its operation calls for, and leaves one step in the history. */
  lemma {:induction false} EveryCallIsAnswered<R(!new)>(o: Outside<R>, b: Bench<R>, request: ToolRequest) returns (step: Step)
    ensures step.request == request
    ensures CallAnswers(o, b, step, ExecuteTool(o, b, request).0, ExecuteTool(o, b, request).1)
  {
    PatchStep(o, b, request);
    ValidationStep(o, b, request);
    hide PatchAnswers, ApplyPatch, ValidationAnswers, RunValidation;
    var p := Perform(o, b, request);
    step := Step(request, p.output, p.bench.edits.tree);
    assert StepAnswers(o, b.rest, b.edits, step, p.bench.edits);
    if p.output.Ok? {
      CarriesResult(o.sha, request, p.output.value);
    }
    hide Perform, StepAnswers, Carries, ResultOf;
  }

  // ------------------------------------------------------------------------------------ a whole run

  /** The steps one after another: step `i` finds what `edits[i]` says, with the world at `worlds[i]`. */
  ghost predicate Chains<R(!new)>(o: Outside<R>, trail: seq<Step>, edits: seq<Edits>, worlds: seq<R>) {
    && |worlds| == |trail| && |edits| == |trail| + 1
    && forall i | 0 <= i < |trail| :: StepAnswers(o, worlds[i], edits[i], trail[i], edits[i + 1])
  }

  /** The results the loop has taken in are the outputs of the steps, in order. */
  ghost predicate TakesIn(sha: string -> string, trail: seq<Step>, accepted: seq<Accepted>) {
    && |accepted| <= |trail|
    && forall i | 0 <= i < |accepted| ::
         trail[i].output.Ok? && Carries(sha, trail[i].request, trail[i].output.value, accepted[i].result)
  }

  ghost predicate Explains<R(!new)>(o: Outside<R>, first: Edits, s: State<Bench<R>>, edits: seq<Edits>, worlds: seq<R>) {
    && Chains(o, s.world.trail, edits, worlds)
    && edits[0] == first && edits[|s.world.trail|] == s.world.edits
    && TakesIn(o.sha, s.world.trail, s.accepted)
  }

  ghost predicate Explained<R(!new)>(o: Outside<R>, first: Edits, s: State<Bench<R>>) {
    exists edits, worlds :: Explains(o, first, s, edits, worlds)
  }

  /** All but the tools leave the bench as it is. */
  lemma HeardKeepsBench<R(!new)>(o: Outside<R>, b: Budgets, s: State<Bench<R>>)
    ensures SameBench(s.world, HeardAt(Env(o), b, s).world)
  {
    var env := Env(o);
    var told := Told(b, s.now.outcome);
    OthersKeepBench(o, s.world, told, Finish(""));
    var (w, cancelled) := env.cancelled(s.world);
    OthersKeepBench(o, w, told, Finish(""));
    var (v, ms) := env.elapsedMs(w);
    OthersKeepBench(o, v, told, Finish(""));
    var (x, action) := env.nextAction(v, told);
    hide Env;
    SameTwice(s.world, w, v);
    SameTwice(s.world, v, x);
    if action.Ok? {
      OthersKeepBench(o, x, told, action.value);
      SameTwice(s.world, x, env.modelTurn(x, action.value).0);
    }
  }

  lemma ServedByTools<R(!new)>(o: Outside<R>, w: Bench<R>, request: ToolRequest)
    ensures var v := ServedAt(Env(o), w, request);
            v.result == ExecuteTool(o, w, request).1 && SameBench(ExecuteTool(o, w, request).0, v.world)
  {
    assert Env(o).execute(w, request) == ExecuteTool(o, w, request);
    var (x, result) := ExecuteTool(o, w, request);
    if result.Ok? {
      assert Env(o).toolCall(x, request, result.value) == Back(x, o.toolCall(x.rest, request, result.value));
    }
    hide ExecuteTool;
  }

  lemma ChainMore<R(!new)>(o: Outside<R>, trail: seq<Step>, edits: seq<Edits>, worlds: seq<R>, step: Step, r: R, now: Edits)
    requires Chains(o, trail, edits, worlds) && StepAnswers(o, r, edits[|trail|], step, now)
    ensures |edits| == |trail| + 1 && Chains(o, trail + [step], edits + [now], worlds + [r])
  {
    hide StepAnswers;
  }

  lemma TakesMore(sha: string -> string, trail: seq<Step>, accepted: seq<Accepted>, step: Step, more: seq<Accepted>)
    requires TakesIn(sha, trail, accepted) && (|accepted| == |trail| || more == [])
    requires more == [] || (|more| == 1 && step.output.Ok? && Carries(sha, step.request, step.output.value, more[0].result))
    ensures TakesIn(sha, trail + [step], accepted + more)
  {
    hide Carries;
  }

  lemma Aligned<R(!new)>(allowed: set<string>, b: Budgets, base: Tree, s: State<Bench<R>>)
    requires MayDecide(s) && Kept(allowed, b, s) && Traced(base, s)
    ensures |s.accepted| == |s.world.trail|
  {
    hide Recorded, Counted, Metered, Progressing, Repaired;
  }

  lemma AdvanceExplains<R(!new)>(o: Outside<R>, allowed: set<string>, b: Budgets, base: Tree, first: Edits, s: State<Bench<R>>)
    requires MayDecide(s) && Kept(allowed, b, s) && Traced(base, s) && Explained(o, first, s)
    ensures Explained(o, first, Advance(Env(o), allowed, b, s))
  {
    hide Advance, HeardAt, Chains, TakesIn, Kept, Traced, Env, MayDecide;
    var env, t := Env(o), Advance(Env(o), allowed, b, s);
    var h := HeardAt(env, b, s);
    var edits, worlds :| Explains(o, first, s, edits, worlds);
    Aligned(allowed, b, base, s);
    AdvanceBegins(env, allowed, b, s);
    AdvanceContinues(env, allowed, b, s);
    HeardKeepsBench(o, b, s);
    hide Begins;
    if Hands(allowed, b, s, h) {
      var request := h.action.value.request;
      ServedByTools(o, h.world, request);
      var step := EveryCallIsAnswered(o, h.world, request);
      var after := ExecuteTool(o, h.world, request).0;
      ChainMore(o, s.world.trail, edits, worlds, step, h.world.rest, after.edits);
      var v := ServedAt(env, h.world, request);
      var more := if Takes(b, s, request, v) then [Accepted(request, v.result.value)] else [];
      TakesMore(o.sha, s.world.trail, s.accepted, step, more);
      assert Explains(o, first, t, edits + [after.edits], worlds + [h.world.rest]);
    } else {
      assert Explains(o, first, t, edits, worlds);
    }
  }

  lemma NothingExplained<R(!new)>(o: Outside<R>, first: Edits, s: State<Bench<R>>, rest: R)
    requires s == Start(Bench(first, false, rest, []))
    ensures Explained(o, first, s)
  {
    var worlds: seq<R> := [];
    assert Explains(o, first, s, [first], worlds);
  }

  /**
   * Over every run, from the base on, each step of the history answers what its operation does on the tree and the key
   * record that the step before it left, and what the loop takes in are those answers in order.
   */
  lemma EveryRunIsAnswered<R(!new)>(o: Outside<R>, a: Assignment, base: Commit, rest: R) returns (edits: seq<Edits>, worlds: seq<R>)
    ensures Explains(o, Edits(base.tree, map[]), RunOf(o, a, base, rest), edits, worlds)
  {
    hide *;
    var start := StartOf(base, rest);
    StartKeeps(o, a, base, rest, start);
    RunKeepsAll(o, a, base.tree, Edits(base.tree, map[]), start);
    RunIs(o, a, base, rest);
    edits, worlds := Explanation(o, a, base.tree, Edits(base.tree, map[]), RunOf(o, a, base, rest));
  }

  function StartOf<R(!new)>(base: Commit, rest: R): State<Bench<R>> {
    Start(Bench(Edits(base.tree, map[]), false, rest, []))
  }

  lemma RunKeepsAll<R(!new)>(o: Outside<R>, a: Assignment, base: Tree, first: Edits, start: State<Bench<R>>)
    requires Keeps(o, a, base, first, start)
    ensures Keeps(o, a, base, first, Run(Env(o), a.allowed, a.budgets, start))
  {
    hide *;
    forall t: State<Bench<R>> | Keeps(o, a, base, first, t) && !t.now.done
      ensures Keeps(o, a, base, first, Advance(Env(o), a.allowed, a.budgets, t))
    {
      AdvanceKeepsAll(o, a, base, first, t);
    }
    RunKeeps(Env(o), a.allowed, a.budgets, start, (t: State<Bench<R>>) => Keeps(o, a, base, first, t));
  }

  lemma RunIs<R(!new)>(o: Outside<R>, a: Assignment, base: Commit, rest: R)
    ensures RunOf(o, a, base, rest) == Run(Env(o), a.allowed, a.budgets, StartOf(base, rest))
  {
    hide Run, Env;
  }

  lemma StartKeeps<R(!new)>(o: Outside<R>, a: Assignment, base: Commit, rest: R, start: State<Bench<R>>)
    requires start == StartOf(base, rest)
    ensures Keeps(o, a, base.tree, Edits(base.tree, map[]), start)
  {
    hide Explained, Traced, Kept, Concluded;
    NothingExplained(o, Edits(base.tree, map[]), start, rest);
    StartTraced(base, rest);
    StartKept(a.allowed, a.budgets, start.world);
    StartConcluded(start);
  }

  lemma AdvanceKeepsAll<R(!new)>(o: Outside<R>, a: Assignment, base: Tree, first: Edits, t: State<Bench<R>>)
    requires Keeps(o, a, base, first, t) && !t.now.done
    ensures Keeps(o, a, base, first, Advance(Env(o), a.allowed, a.budgets, t))
  {
    hide Explained, Traced, Kept, Concluded, Advance, Env;
    MayGoOn(t);
    AdvanceExplains(o, a.allowed, a.budgets, base, first, t);
    AdvanceTraces(o, a.allowed, a.budgets, base, t);
    AdvanceKeeps(Env(o), a.allowed, a.budgets, t);
    AdvanceConcludes(Env(o), a.allowed, a.budgets, t);
  }

  lemma MayGoOn<R(!new)>(t: State<Bench<R>>)
    requires !t.now.done && Concluded(t.now)
    ensures MayDecide(t)
  {
  }

  ghost predicate Keeps<R(!new)>(o: Outside<R>, a: Assignment, base: Tree, first: Edits, t: State<Bench<R>>) {
    Concluded(t.now) && Kept(a.allowed, a.budgets, t) && Traced(base, t) && Explained(o, first, t)
  }

  lemma Explanation<R(!new)>(o: Outside<R>, a: Assignment, base: Tree, first: Edits, s: State<Bench<R>>)
    returns (edits: seq<Edits>, worlds: seq<R>)
    requires Keeps(o, a, base, first, s)
    ensures Explains(o, first, s, edits, worlds)
  {
    edits, worlds :| Explains(o, first, s, edits, worlds);
  }

  // ----------------------------------------------------------------------------- keys over a whole run

  /** The step is a patch under this key. */
  predicate PatchesWith(step: Step, key: string) {
    step.request.operation == "patch.apply" && step.request.key == Some(key)
  }

  lemma StepKeepsKeys<R(!new)>(o: Outside<R>, r: R, was: Edits, step: Step, now: Edits, key: string)
    requires StepAnswers(o, r, was, step, now)
    ensures key in was.applied ==> key in now.applied
    ensures key in was.applied && PatchesWith(step, key) ==> now == was
    ensures PatchesWith(step, key) && step.output.Ok? ==> key in now.applied
  {
    hide Encode, Placeable, ByteLength, Normalize, IsKey, Allowed;
  }

  lemma {:induction false} KeyStays<R(!new)>(o: Outside<R>, trail: seq<Step>, edits: seq<Edits>, worlds: seq<R>, key: string, i: nat, j: nat)
    requires Chains(o, trail, edits, worlds) && i <= j <= |trail| && key in edits[i].applied
    ensures key in edits[j].applied
  {
    hide StepAnswers;
    if i < j {
      KeyStays(o, trail, edits, worlds, key, i, j - 1);
      StepKeepsKeys(o, worlds[j - 1], edits[j - 1], trail[j - 1], edits[j], key);
    }
  }

  /** Over a whole run, validations and all, once a patch has succeeded no other under its key changes the tree. */
  lemma RunKeyWritesOnce<R(!new)>(o: Outside<R>, a: Assignment, base: Commit, rest: R, key: string, i: nat, j: nat)
    requires var trail := RunOf(o, a, base, rest).world.trail;
             i < j < |trail| && PatchesWith(trail[i], key) && trail[i].output.Ok? && PatchesWith(trail[j], key)
    ensures var trail := RunOf(o, a, base, rest).world.trail;
            trail[j].tree == trail[j - 1].tree
  {
    var trail := RunOf(o, a, base, rest).world.trail;
    var edits, worlds := EveryRunIsAnswered(o, a, base, rest);
    hide RunOf;
    assert StepAnswers(o, worlds[i], edits[i], trail[i], edits[i + 1]);
    assert StepAnswers(o, worlds[j - 1], edits[j - 1], trail[j - 1], edits[j]);
    assert StepAnswers(o, worlds[j], edits[j], trail[j], edits[j + 1]);
    StepKeepsKeys(o, worlds[i], edits[i], trail[i], edits[i + 1], key);
    KeyStays(o, trail, edits, worlds, key, i + 1, j);
    StepKeepsKeys(o, worlds[j], edits[j], trail[j], edits[j + 1], key);
    hide PatchAnswers, ReadAnswers, ValidationAnswers;
  }

  // --------------------------------------------------------------------------- a whole assignment

  /** What the diff shows becomes the patch of the report: its digest and its length in bytes. */
  predicate Describes(sha: string -> string, diff: string, patch: Option<Patch>) {
    if diff == "" then patch == None else patch == Some(Patch(sha(diff), ByteLength(diff)))
  }

  /** The assignment gets as far as its verdict on a run: the workspace was prepared and the evidence is there. */
  ghost predicate IsJudged<R(!new)>(o: Outside<R>, a: Assignment, x: Surroundings<R>, rest: R) {
    && x.prepared.Ok?
    && var b := RunOf(o, a, x.prepared.value, rest).world; x.evidence(b.rest, b.edits.tree).Ok?
  }

  /**
   * Each answer of an assignment by its cause. A run all of whose steps were answered is refused for want of validation
   * exactly when it was to persist a change that its history does not end by validating.
   */
  lemma AssignmentAnswersExactly<R(!new)>(o: Outside<R>, a: Assignment, x: Surroundings<R>, rest: R, source: Source)
    ensures var r := Assign(o, a, x, rest, source).result;
            && (forall c :: r == Err(NotPrepared(c)) <==> x.prepared == Err(c))
            && (x.prepared.Ok? ==>
                  var s := RunOf(o, a, x.prepared.value, rest);
                  forall c :: r == Err(NoEvidence(c)) <==> x.evidence(s.world.rest, s.world.edits.tree) == Err(c))
            && (!IsJudged(o, a, x, rest) ==> r.Err? && (r.error.NotPrepared? || r.error.NoEvidence?))
    ensures IsJudged(o, a, x, rest) ==>
              var base, s := x.prepared.value, RunOf(o, a, x.prepared.value, rest);
              var tree, r := s.world.edits.tree, Assign(o, a, x, rest, source).result;
              var found := x.evidence(s.world.rest, tree).value;
              var unvalidated := a.persist && found.diff != "" && !s.world.passed;
              var p := Publish(x.quote, x.meanwhile(source), Workspace(base, tree, o.prefixes), a.message, x.git, x.others).result;
              var publishing := !unvalidated && a.persist && s.now.outcome.status == Completed;
              && (s.now.outcome.status != Failed ==>
                    (r == Err(ValidationRequired) <==> a.persist && found.diff != "" && !EndsValidated(s.world.trail, tree)))
              && (r == Err(ValidationRequired) <==> unvalidated)
              && (forall e :: r == Err(NotPublished(e)) <==> publishing && p == Err(e))
              && (r.Ok? <==> !unvalidated && (publishing ==> p.Ok?))
              && (r.Ok? ==>
                    && r.value.outcome == s.now.outcome && Describes(o.sha, found.diff, r.value.patch)
                    && r.value.changed == found.changed && r.value.cleaned == x.cleaned
                    && r.value.published == if publishing then p.value else None)
  {
    hide Run, EndsValidated, Publish;
    if x.prepared.Ok? {
      EveryRunTraces(o, a, x.prepared.value, rest);
    }
  }
}
