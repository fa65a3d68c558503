/** The workspace tools behind the bounded loop, and one whole assignment (agents/node/src/harness_executor.rs). */
module Executors {
  import opened Wrappers
  import opened Text
  import opened BoundedLoops
  import opened RepositoryEdits
  import opened Publishing
  import opened Paths

  /** What a tool answers: the `status` and `code` members of its JSON value, if any, and the whole value as text. */
  datatype Output = Output(status: Option<string>, code: Option<string>, text: string)

  /** How a validation process ended. */
  datatype Verdict = Verdict(status: string, code: string)

  /**
   * Everything beside the workspace: it acts on a state `R` of its own. Reads are given the tree and leave it; a
   * validation process may leave any tree behind.
   */
  datatype Outside<!R(!new)> = Outside(
    sha: string -> string,
    prefixes: seq<Path>,
    allowedProfiles: set<string>,
    configuredProfiles: set<string>,
    cancelled: R -> (R, bool),
    elapsedMs: R -> (R, nat),
    nextAction: (R, Context) -> (R, Result<Action, string>),
    modelTurn: (R, Action) -> (R, Option<string>),
    toolCall: (R, ToolRequest, ToolResult) -> (R, Option<string>),
    read: (R, ToolRequest, Tree) -> (R, Result<Output, string>),
    replacementIn: string -> Option<Replacement>,
    profileIn: string -> Option<string>,
    io: (R, Replacement) -> (R, Io),
    validate: (R, string, Tree) -> (R, Tree, Result<Verdict, string>),
    diff: (R, Tree) -> (R, Result<string, string>),
    patchText: PatchResult -> string,
    verdictText: (Verdict, string) -> string)

  /** One request that reached the tools, what it was answered and the tree it left: the history of a run. */
  datatype Step = Step(request: ToolRequest, output: Result<Output, string>, tree: Tree)

  /** The workspace, the applied keys and the `validation_passed` flag, with the rest of the world and the history. */
  datatype Bench<!R(!new)> = Bench(edits: Edits, passed: bool, rest: R, trail: seq<Step>)

  datatype Performed<!R(!new)> = Performed(bench: Bench<R>, output: Result<Output, string>)

  const PASSED := "passed"
  const SUCCEEDED := "succeeded"

  function EditCode(e: EditError): string {
    match e
    case BadKey => "HARNESS_IDEMPOTENCY_REQUIRED"
    case BadContent => "HARNESS_ARTIFACT_INVALID"
    case PathDenied => "HARNESS_PATH_DENIED"
    case KeyConflict => "HARNESS_IDEMPOTENCY_CONFLICT"
    case ExpectedMissing => "HARNESS_ARTIFACT_INVALID"
    case ContentMoved => "HARNESS_ARTIFACT_INVALID"
  }

  // ------------------------------------------------------------------------------- one operation

  predicate IsRead(operation: string) {
    operation in {"repository.status", "repository.diff", "file.read", "file.search"}
  }

  predicate IsPatch(operation: string) {
    operation == "patch.apply"
  }

  predicate IsValidation(operation: string) {
    operation == "validation.run"
  }

  function ApplyPatch<R(!new)>(o: Outside<R>, b: Bench<R>, request: ToolRequest): Performed<R> {
    var unproven := b.(passed := false);
    match o.replacementIn(request.input)
    case None => Performed(unproven, Err("HARNESS_TOOL_INPUT_INVALID"))
    case Some(replacement) =>
      if request.key.None? then Performed(unproven, Err("HARNESS_IDEMPOTENCY_REQUIRED"))
      else
        var (rest, io) := o.io(b.rest, replacement);
        var a := Applied(o.sha, o.prefixes, b.edits, request.key.value, replacement, io);
        Performed(unproven.(edits := a.edits, rest := rest),
                  match a.result
                  case Ok(result) => Ok(Output(None, None, o.patchText(result)))
                  case Err(e) => Err(EditCode(e)))
  }

  function RunValidation<R(!new)>(o: Outside<R>, b: Bench<R>, request: ToolRequest): Performed<R> {
    match o.profileIn(request.input)
    case None => Performed(b, Err("HARNESS_TOOL_INPUT_INVALID"))
    case Some(profile) =>
      if profile !in o.allowedProfiles || profile !in o.configuredProfiles
      then Performed(b, Err("HARNESS_VALIDATION_PROFILE_DENIED"))
      else
        var (rest, tree, verdict) := o.validate(b.rest, profile, b.edits.tree);
        var left := b.(rest := rest, edits := b.edits.(tree := tree));
        if verdict.Err? then Performed(left, Err(verdict.error))
        else
          var (more, diff) := o.diff(rest, tree);
          Performed(left.(rest := more, passed := verdict.value.status == PASSED),
                    match diff
                    case Ok(text) => Ok(Output(Some(verdict.value.status), Some(verdict.value.code), o.verdictText(verdict.value, text)))
                    case Err(e) => Err(e))
  }

  function Perform<R(!new)>(o: Outside<R>, b: Bench<R>, request: ToolRequest): Performed<R> {
    if IsRead(request.operation) then
      var (rest, output) := o.read(b.rest, request, b.edits.tree);
      Performed(b.(rest := rest), output)
    else if IsPatch(request.operation) then ApplyPatch(o, b, request)
    else if IsValidation(request.operation) then RunValidation(o, b, request)
    else Performed(b, Err("HARNESS_OPERATION_UNSUPPORTED"))
  }

  function ResultOf(sha: string -> string, request: ToolRequest, output: Output): ToolResult {
    ToolResult(request.id, request.operation,
               match output.status
               case None => SUCCEEDED
               case Some(status) => (if status == PASSED then SUCCEEDED else status),
               output.code, output.text, Wrapped(ByteLength(output.text)), sha(output.text))
  }

  function ExecuteTool<R(!new)>(o: Outside<R>, b: Bench<R>, request: ToolRequest): (Bench<R>, Result<ToolResult, string>) {
    var p := Perform(o, b, request);
    (p.bench.(trail := b.trail + [Step(request, p.output, p.bench.edits.tree)]),
     match p.output
     case Ok(output) => Ok(ResultOf(o.sha, request, output))
     case Err(e) => Err(e))
  }

  class WorkspaceTools<!R(!new)> {
    const outside: Outside<R>
    const repository: RepositoryToolRunner
    var passed: bool
    var rest: R
    ghost var trail: seq<Step>

    ghost predicate Valid() {
      repository.sha == outside.sha && repository.prefixes == outside.prefixes
    }

    ghost function State(): Bench<R>
      reads this, repository
    {
      Bench(repository.State(), passed, rest, trail)
    }

    constructor (outside: Outside<R>, repository: RepositoryToolRunner, rest: R)
      requires repository.sha == outside.sha && repository.prefixes == outside.prefixes
      ensures Valid() && this.outside == outside && this.repository == repository
      ensures State() == Bench(repository.State(), false, rest, [])
    {
      this.outside, this.repository, this.rest := outside, repository, rest;
      passed, trail := false, [];
    }

    method Execute(request: ToolRequest) returns (r: Result<ToolResult, string>)
      requires Valid()
      modifies this, repository
      ensures (State(), r) == ExecuteTool(outside, old(State()), request)
    {
      var output: Result<Output, string> := Err("HARNESS_OPERATION_UNSUPPORTED");
      match request.operation {
        case "repository.status" => output := Read(request);
        case "repository.diff" => output := Read(request);
        case "file.read" => output := Read(request);
        case "file.search" => output := Read(request);
        case "patch.apply" => output := Patch(request);
        case "validation.run" => output := Validation(request);
        case _ =>
      }
      trail := trail + [Step(request, output, repository.tree)];
      if output.Err? {
        return Err(output.error);
      }
      return Ok(ResultOf(outside.sha, request, output.value));
    }

    method Read(request: ToolRequest) returns (output: Result<Output, string>)
      requires Valid() && IsRead(request.operation)
      modifies this`rest
      ensures Performed(State(), output) == Perform(outside, old(State()), request)
    {
      var (left, answer) := outside.read(rest, request, repository.tree);
      rest := left;
      return answer;
    }

    method Patch(request: ToolRequest) returns (output: Result<Output, string>)
      requires Valid()
      modifies this`passed, this`rest, repository
      ensures Performed(State(), output) == ApplyPatch(outside, old(State()), request)
    {
      passed := false;
      var replacement := outside.replacementIn(request.input);
      if replacement.None? {
        return Err("HARNESS_TOOL_INPUT_INVALID");
      }
      if request.key.None? {
        return Err("HARNESS_IDEMPOTENCY_REQUIRED");
      }
      var (left, io) := outside.io(rest, replacement.value);
      rest := left;
      var result := repository.ApplyReplacement(request.key.value, replacement.value, io);
      if result.Err? {
        return Err(EditCode(result.error));
      }
      return Ok(Output(None, None, outside.patchText(result.value)));
    }

    method Validation(request: ToolRequest) returns (output: Result<Output, string>)
      requires Valid()
      modifies this`passed, this`rest, repository`tree
      ensures Performed(State(), output) == RunValidation(outside, old(State()), request)
    {
      var profile := outside.profileIn(request.input);
      if profile.None? {
        return Err("HARNESS_TOOL_INPUT_INVALID");
      }
      if profile.value !in outside.allowedProfiles || profile.value !in outside.configuredProfiles {
        return Err("HARNESS_VALIDATION_PROFILE_DENIED");
      }
      var (left, tree, verdict) := outside.validate(rest, profile.value, repository.tree);
      rest, repository.tree := left, tree;
      if verdict.Err? {
        return Err(verdict.error);
      }
      passed := verdict.value.status == PASSED;
      var (more, diff) := outside.diff(rest, repository.tree);
      rest := more;
      if diff.Err? {
        return Err(diff.error);
      }
      return Ok(Output(Some(verdict.value.status), Some(verdict.value.code), outside.verdictText(verdict.value, diff.value)));
    }
  }

  // -------------------------------------------------------------------------------- the assignment

  function Back<R(!new), T>(b: Bench<R>, answer: (R, T)): (Bench<R>, T) {
    (b.(rest := answer.0), answer.1)
  }

  /** The loop's collaborators, all acting on one bench. */
  function Env<R(!new)>(o: Outside<R>): Collaborators<Bench<R>> {
    Collaborators(
      (b: Bench<R>) => Back(b, o.cancelled(b.rest)),
      (b: Bench<R>) => Back(b, o.elapsedMs(b.rest)),
      (b: Bench<R>, context: Context) => Back(b, o.nextAction(b.rest, context)),
      (b: Bench<R>, action: Action) => Back(b, o.modelTurn(b.rest, action)),
      (b: Bench<R>, request: ToolRequest) => ExecuteTool(o, b, request),
      (b: Bench<R>, request: ToolRequest, result: ToolResult) => Back(b, o.toolCall(b.rest, request, result)))
  }

  datatype Assignment = Assignment(allowed: set<string>, budgets: Budgets, persist: bool, message: string)

  datatype Refusal = NotPrepared(code: string) | NoEvidence(code: string) | ValidationRequired | NotPublished(error: PublishError)

  /** The complete diff against the base, and the changed paths of `git status`. */
  datatype Evidence = Evidence(diff: string, changed: seq<string>)

  datatype Patch = Patch(digest: string, size: nat)

  datatype Report = Report(outcome: Outcome, patch: Option<Patch>, changed: seq<string>, published: Option<Commit>, cleaned: bool)

  /**
   * The surroundings of one assignment: whether the workspace could be cloned, what others do to the project during the
   * run and while it publishes, what evidence can be gathered, how publishing goes and whether cleaning up does.
   */
  datatype Surroundings<!R(!new)> = Surroundings(
    prepared: Result<Commit, string>,
    meanwhile: Source -> Source,
    evidence: (R, Tree) -> Result<Evidence, string>,
    quote: Path -> string,
    git: Git,
    others: Others,
    cleaned: bool)

  /** The project afterwards, the answer, and the rest of the world as the run left it. */
  datatype Assigned<!R(!new)> = Assigned(source: Source, result: Result<Report, Refusal>, rest: R)

  function PatchOf(sha: string -> string, diff: string): Option<Patch> {
    if diff == "" then None else Some(Patch(sha(diff), ByteLength(diff)))
  }

  function RunOf<R(!new)>(o: Outside<R>, a: Assignment, base: Commit, rest: R): State<Bench<R>> {
    Run(Env(o), a.allowed, a.budgets, Start(Bench(Edits(base.tree, map[]), false, rest, [])))
  }

  function Assign<R(!new)>(o: Outside<R>, a: Assignment, x: Surroundings<R>, rest: R, source: Source): Assigned<R> {
    if x.prepared.Err? then Assigned(source, Err(NotPrepared(x.prepared.error)), rest)
    else
      var s := RunOf(o, a, x.prepared.value, rest);
      Conclude(o, a, x, s.world, s.now.outcome, x.meanwhile(source))
  }

  function Conclude<R(!new)>(o: Outside<R>, a: Assignment, x: Surroundings<R>, b: Bench<R>, outcome: Outcome, source: Source): Assigned<R>
    requires x.prepared.Ok?
  {
    var base, found := x.prepared.value, x.evidence(b.rest, b.edits.tree);
    if found.Err? then Assigned(source, Err(NoEvidence(found.error)), b.rest)
    else
      var report := Report(outcome, PatchOf(o.sha, found.value.diff), found.value.changed, None, x.cleaned);
      if a.persist && report.patch.Some? && !b.passed then Assigned(source, Err(ValidationRequired), b.rest)
      else if !a.persist || outcome.status != Completed then Assigned(source, Ok(report), b.rest)
      else
        var p := Publish(x.quote, source, Workspace(base, b.edits.tree, o.prefixes), a.message, x.git, x.others);
        Assigned(p.source,
                 match p.result
                 case Ok(revision) => Ok(report.(published := revision))
                 case Err(e) => Err(NotPublished(e)),
                 b.rest)
  }

  method ExecuteHarnessAssignment<R(!new)>(o: Outside<R>, a: Assignment, x: Surroundings<R>, rest: R, project: SourceRepository)
    returns (r: Result<Report, Refusal>, left: R)
    modifies project
    ensures Assigned(project.State(), r, left) == Assign(o, a, x, rest, old(project.State()))
  {
    hide Run, Publish;
    if x.prepared.Err? {
      return Err(NotPrepared(x.prepared.error)), rest;
    }
    var base := x.prepared.value;
    var bench, outcome := RunBoundedLoop(Env(o), a.allowed, a.budgets, Bench(Edits(base.tree, map[]), false, rest, []));
    project.Interfere(x.meanwhile);
    var found := x.evidence(bench.rest, bench.edits.tree);
    if found.Err? {
      return Err(NoEvidence(found.error)), bench.rest;
    }
    var patch := PatchOf(o.sha, found.value.diff);
    if a.persist && patch.Some? && !bench.passed {
      return Err(ValidationRequired), bench.rest;
    }
    var revision := None;
    if a.persist && outcome.status == Completed {
      var ws := Workspace(base, bench.edits.tree, o.prefixes);
      var published := project.PublishValidatedChanges(x.quote, ws, a.message, x.git, x.others);
      if published.Err? {
        return Err(NotPublished(published.error)), bench.rest;
      }
      revision := published.value;
    }
    return Ok(Report(outcome, patch, found.value.changed, revision, x.cleaned)), bench.rest;
  }
}
