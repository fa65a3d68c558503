/** Publishing a workspace back to its project as one fast-forward commit (`publish_validated_changes`, agents/node/src/harness.rs). */
module Publishing {
  import opened Wrappers
  import opened Text
  import opened Paths
  import opened RepositoryEdits

  /** A revision is the commit it names: its parent, its whole tree and its message. */
  datatype Commit = Root(tree: Tree) | Child(parent: Commit, tree: Tree, message: string)

  /** A local project: its HEAD, the files in its working tree and the commits its object store holds. */
  datatype Source = Source(head: Commit, files: Tree, objects: set<Commit>)

  datatype Workspace = Workspace(base: Commit, tree: Tree, prefixes: seq<Path>)

  datatype PublishError = NotOwned | StatusTooLong | ChangeDenied | SourceFailed | Conflict | GitFailed

  /** Whether each command can run, and whether Git reports a deletion and an addition as a rename. */
  datatype Git = Git(owned: bool, statusRead: bool, statusFits: bool, sourceFound: bool, sourceRead: bool, staged: bool,
                     committed: bool, fetched: bool, merged: bool, pairsRenames: bool)

  /** What other programs do to the project once its HEAD has been checked: before the fetch, and before the merge. */
  datatype Others = Others(afterCheck: Source -> Source, afterFetch: Source -> Source)

  predicate Differs(was: Tree, now: Tree, p: Path) {
    if p in was && p in now then was[p] != now[p] else p in was || p in now
  }

  function Changed(was: Tree, now: Tree): set<Path> {
    set p | p in was.Keys + now.Keys && Differs(was, now, p)
  }

  predicate ShowsRename(was: Tree, now: Tree, git: Git) {
    git.pairsRenames && (exists p | p in was :: p !in now) && exists q | q in now :: q !in was
  }

  // ----------------------------------------------------------------------- what Git prints for a path

  predicate IsPlainChar(c: char) {
    '!' <= c <= '~' && c != '"' && c != '\\'
  }

  /** Git prints such a path as it is; it puts every other one in quotes, with escapes. */
  predicate IsPlain(p: Path) {
    forall i, j | 0 <= i < |p| && 0 <= j < |p[i]| :: IsPlainChar(p[i][j])
  }

  function StatusText(quote: Path -> string, p: Path): string {
    if IsPlain(p) && p != [] then Join(p) else "\"" + quote(p)
  }

  /** The check on one line of `git status`. */
  predicate LineAccepted(prefixes: seq<Path>, text: string) {
    var value := Trim(text);
    && !Contains(value, " -> ")
    && Normalize(value).Some?
    && ExtendsOne(prefixes, Normalize(value).value)
  }

  predicate PathsAccepted(quote: Path -> string, ws: Workspace) {
    forall p | p in Changed(ws.base.tree, ws.tree) :: LineAccepted(ws.prefixes, StatusText(quote, p))
  }

  // -------------------------------------------------------------------------------- fetch and merge

  /** A commit and all its ancestors. */
  function History(c: Commit): set<Commit> {
    if c.Root? then {c} else {c} + History(c.parent)
  }

  function Fetched(source: Source, revision: Commit): Source {
    source.(objects := source.objects + History(revision))
  }

  /** The files with the step from `was` to `now` applied to them. */
  function Overlay(files: Tree, was: Tree, now: Tree): Tree {
    map p | p in files.Keys + now.Keys && (if Differs(was, now, p) then p in now else p in files) ::
      if Differs(was, now, p) then now[p] else files[p]
  }

  /** No file that the step from `was` to `now` touches has been changed since. */
  predicate Untouched(files: Tree, was: Tree, now: Tree) {
    forall p | p in Changed(was, now) :: !Differs(was, files, p)
  }

  /** `git merge --ff-only`; `None` when it refuses. */
  function FastForwarded(source: Source, revision: Commit): Option<Source> {
    if revision !in source.objects then None
    else if revision in History(source.head) then Some(source)
    else if source.head !in History(revision) || !Untouched(source.files, source.head.tree, revision.tree) then None
    else Some(source.(head := revision, files := Overlay(source.files, source.head.tree, revision.tree)))
  }

  // ------------------------------------------------------------------------------------- publishing

  datatype Published = Published(source: Source, result: Result<Option<Commit>, PublishError>)

  /** All but the merge: it ends early, or with the commit that is to be merged. */
  function BeforeMerge(quote: Path -> string, source: Source, ws: Workspace, message: string, git: Git, others: Others): Published {
    if !git.owned then Published(source, Err(NotOwned))
    else if !git.statusRead then Published(source, Err(GitFailed))
    else if !git.statusFits then Published(source, Err(StatusTooLong))
    else if Changed(ws.base.tree, ws.tree) == {} then Published(source, Ok(None))
    else if ShowsRename(ws.base.tree, ws.tree, git) || !PathsAccepted(quote, ws) then Published(source, Err(ChangeDenied))
    else if !git.sourceFound then Published(source, Err(SourceFailed))
    else if !git.sourceRead then Published(source, Err(GitFailed))
    else if source.files != source.head.tree || source.head != ws.base then Published(source, Err(Conflict))
    else
      var checked, revision := others.afterCheck(source), Child(ws.base, ws.tree, message);
      if !git.staged || !git.committed || !git.fetched then Published(checked, Err(GitFailed))
      else Published(others.afterFetch(Fetched(checked, revision)), Ok(Some(revision)))
  }

  function Publish(quote: Path -> string, source: Source, ws: Workspace, message: string, git: Git, others: Others): Published {
    var p := BeforeMerge(quote, source, ws, message, git, others);
    if p.result.Err? || p.result.value.None? then p
    else
      var merged := FastForwarded(p.source, p.result.value.value);
      if !git.merged || merged.None? then p.(result := Err(GitFailed)) else p.(source := merged.value)
  }

  class SourceRepository {
    var head: Commit
    var files: Tree
    var objects: set<Commit>

    ghost function State(): Source
      reads this
    {
      Source(head, files, objects)
    }

    constructor (source: Source)
      ensures State() == source
    {
      head, files, objects := source.head, source.files, source.objects;
    }

    /** What other programs do to the project between two commands. */
    method Interfere(others: Source -> Source)
      modifies this
      ensures State() == others(old(State()))
    {
      var after := others(Source(head, files, objects));
      head, files, objects := after.head, after.files, after.objects;
    }

    method MergeFastForward(revision: Commit) returns (ok: bool)
      modifies this
      ensures ok <==> FastForwarded(old(State()), revision).Some?
      ensures State() == FastForwarded(old(State()), revision).GetOr(old(State()))
    {
      if revision !in objects {
        return false;
      }
      if revision in History(head) {
        return true;
      }
      if head !in History(revision) {
        return false;
      }
      var left := Changed(head.tree, revision.tree);
      ghost var touched := left;
      while left != {}
        invariant left <= touched && forall p | p in touched - left :: !Differs(head.tree, files, p)
        decreases left
      {
        var p :| p in left;
        if Differs(head.tree, files, p) {
          return false;
        }
        left := left - {p};
      }
      head, files := revision, Overlay(files, head.tree, revision.tree);
      return true;
    }

    method PublishValidatedChanges(quote: Path -> string, ws: Workspace, message: string, git: Git, others: Others)
      returns (r: Result<Option<Commit>, PublishError>)
      modifies this
      ensures Published(State(), r) == Publish(quote, old(State()), ws, message, git, others)
    {
      hide FastForwarded, LineAccepted, StatusText;
      if !git.owned {
        return Err(NotOwned);
      }
      if !git.statusRead {
        return Err(GitFailed);
      }
      if !git.statusFits {
        return Err(StatusTooLong);
      }
      var lines := Changed(ws.base.tree, ws.tree);
      if lines == {} {
        return Ok(None);
      }
      if ShowsRename(ws.base.tree, ws.tree, git) {
        return Err(ChangeDenied);
      }
      var left := lines;
      while left != {}
        invariant left <= lines
        invariant forall p | p in lines && p !in left :: LineAccepted(ws.prefixes, StatusText(quote, p))
        decreases left
      {
        var p :| p in left;
        if !LineAccepted(ws.prefixes, StatusText(quote, p)) {
          return Err(ChangeDenied);
        }
        left := left - {p};
      }
      if !git.sourceFound {
        return Err(SourceFailed);
      }
      if !git.sourceRead {
        return Err(GitFailed);
      }
      if files != head.tree {
        return Err(Conflict);
      }
      if head != ws.base {
        return Err(Conflict);
      }
      Interfere(others.afterCheck);
      if !git.staged || !git.committed {
        return Err(GitFailed);
      }
      var revision := Child(ws.base, ws.tree, message);
      if !git.fetched {
        return Err(GitFailed);
      }
      objects := objects + History(revision);
      Interfere(others.afterFetch);
      if !git.merged {
        return Err(GitFailed);
      }
      var merged := MergeFastForward(revision);
      if !merged {
        return Err(GitFailed);
      }
      return Ok(Some(revision));
    }
  }

  // ------------------------------------------------------------------- where the project can move from

  lemma SameTree(was: Tree, now: Tree)
    requires Changed(was, now) == {}
    ensures was == now
  {
    forall p
      ensures p in was <==> p in now
      ensures p in was && p in now ==> was[p] == now[p]
    {
      assert p !in Changed(was, now);
    }
  }

  function Height(c: Commit): nat {
    if c.Root? then 0 else 1 + Height(c.parent)
  }

  /** An ancestor is lower, and there is one of each height. */
  lemma {:induction false} AncestorsAreLower(c: Commit, a: Commit)
    requires a in History(c)
    ensures Height(a) <= Height(c) && (Height(a) == Height(c) ==> a == c)
  {
    if c.Child? && a != c {
      AncestorsAreLower(c.parent, a);
    }
  }

  lemma OverlayOnClean(was: Tree, now: Tree)
    ensures Overlay(was, was, now) == now && Untouched(was, was, now)
  {
  }

  /** The fast-forward moves HEAD exactly from a proper ancestor, with no touched file changed since. */
  lemma MergeMovesExactly(source: Source, base: Commit, tree: Tree, message: string)
    ensures var revision := Child(base, tree, message);
            var merged := FastForwarded(source, revision);
            && (merged.Some? && merged.value.head != source.head <==>
                  && revision in source.objects && source.head in History(base)
                  && Untouched(source.files, source.head.tree, tree))
            && (merged.Some? && merged.value.head == source.head ==> merged.value == source && revision in History(source.head))
            && (merged.Some? && merged.value.head != source.head ==>
                  && merged.value == Source(revision, Overlay(source.files, source.head.tree, tree), source.objects))
  {
    hide Overlay, Untouched, Differs;
    var revision := Child(base, tree, message);
    if source.head in History(base) {
      AncestorsAreLower(base, source.head);
      if revision in History(source.head) {
        AncestorsAreLower(source.head, revision);
      }
    }
  }

  /** The publish reaches the merge: every check passed on the project as it was found, and every command before ran. */
  ghost predicate ReachesMerge(quote: Path -> string, source: Source, ws: Workspace, git: Git) {
    && git.owned && git.statusRead && git.statusFits && git.sourceFound && git.sourceRead
    && git.staged && git.committed && git.fetched
    && ws.tree != ws.base.tree && PathsAccepted(quote, ws) && !ShowsRename(ws.base.tree, ws.tree, git)
    && source.head == ws.base && source.files == ws.base.tree
  }

  /**
   * All or nothing against whatever other programs do in between. With `late` the project just before the merge, it
   * moves exactly when the merge is reached and runs, the commit is still in the store, HEAD is the recorded base or one
   * of its ancestors, and no file to be touched was changed; it moves to one child of the base. Otherwise publishing
   * leaves `late` as it is, and reports success only if the commit already is in its history.
   */
  lemma {:induction false} PublishIsAllOrNothing(quote: Path -> string, source: Source, ws: Workspace, message: string, git: Git, others: Others)
    ensures var late := BeforeMerge(quote, source, ws, message, git, others).source;
            var p := Publish(quote, source, ws, message, git, others);
            var revision := Child(ws.base, ws.tree, message);
            && (p.source.head != late.head <==>
                  && ReachesMerge(quote, source, ws, git) && git.merged
                  && revision in late.objects && late.head in History(ws.base)
                  && Untouched(late.files, late.head.tree, ws.tree))
            && (if p.source.head != late.head then
                  && p.source == Source(revision, Overlay(late.files, late.head.tree, ws.tree), late.objects)
                  && p.result == Ok(Some(revision))
                else
                  && p.source == late
                  && (p.result.Ok? && p.result.value.Some? ==>
                        && ReachesMerge(quote, source, ws, git) && p.result.value.value == revision
                        && revision in History(late.head)))
            && (p.result == Ok(None) ==> ws.tree == ws.base.tree)
  {
    hide PathsAccepted, ShowsRename, FastForwarded, Untouched, Overlay;
    var late := BeforeMerge(quote, source, ws, message, git, others).source;
    MergeMovesExactly(late, ws.base, ws.tree, message);
    UnchangedExactly(ws);
  }

  lemma UnchangedExactly(ws: Workspace)
    ensures Changed(ws.base.tree, ws.tree) == {} <==> ws.tree == ws.base.tree
  {
    if Changed(ws.base.tree, ws.tree) == {} {
      SameTree(ws.base.tree, ws.tree);
    }
  }

  /** The changes could be listed, there are some, and every one of them may be published. */
  ghost predicate MayPublish(quote: Path -> string, ws: Workspace, git: Git) {
    && git.owned && git.statusRead && git.statusFits && ws.tree != ws.base.tree
    && !(git.pairsRenames && (exists p :: p in ws.base.tree && p !in ws.tree) && exists q :: q in ws.tree && q !in ws.base.tree)
    && forall p | Differs(ws.base.tree, ws.tree, p) :: LineAccepted(ws.prefixes, StatusText(quote, p))
  }

  /** The project is found clean at the recorded base. */
  predicate FoundAtBase(source: Source, ws: Workspace, git: Git) {
    git.sourceFound && git.sourceRead && source.files == ws.base.tree && source.head == ws.base
  }

  lemma RenamesShow(was: Tree, now: Tree, git: Git)
    ensures ShowsRename(was, now, git)
       <==> git.pairsRenames && (exists p :: p in was && p !in now) && exists q :: q in now && q !in was
  {
  }

  lemma MayPublishIs(quote: Path -> string, ws: Workspace, git: Git)
    ensures MayPublish(quote, ws, git)
       <==> && git.owned && git.statusRead && git.statusFits && ws.tree != ws.base.tree
            && !ShowsRename(ws.base.tree, ws.tree, git) && PathsAccepted(quote, ws)
  {
    hide LineAccepted, StatusText;
    RenamesShow(ws.base.tree, ws.tree, git);
    assert forall p :: Differs(ws.base.tree, ws.tree, p) <==> p in Changed(ws.base.tree, ws.tree);
  }

  /** Every answer by its cause: what is checked, in which order, and what goes wrong after the checks. */
  lemma {:induction false} PublishAnswersExactly(quote: Path -> string, source: Source, ws: Workspace, message: string, git: Git, others: Others)
    ensures var r := Publish(quote, source, ws, message, git, others).result;
            var late := BeforeMerge(quote, source, ws, message, git, others).source;
            var revision := Child(ws.base, ws.tree, message);
            var may, found := MayPublish(quote, ws, git), FoundAtBase(source, ws, git);
            && (r == Err(NotOwned) <==> !git.owned)
            && (r == Err(StatusTooLong) <==> git.owned && git.statusRead && !git.statusFits)
            && (r == Ok(None) <==> git.owned && git.statusRead && git.statusFits && ws.tree == ws.base.tree)
            && (r == Err(ChangeDenied) <==>
                  git.owned && git.statusRead && git.statusFits && ws.tree != ws.base.tree && !may)
            && (r == Err(SourceFailed) <==> may && !git.sourceFound)
            && (r == Err(Conflict) <==> may && git.sourceFound && git.sourceRead && !found)
            && (r == Ok(Some(revision)) <==>
                  && may && found && git.staged && git.committed && git.fetched && git.merged
                  && revision in late.objects
                  && (|| revision in History(late.head)
                      || (late.head in History(ws.base) && Untouched(late.files, late.head.tree, ws.tree))))
            && (r.Ok? ==> r.value in {None, Some(revision)})
  {
    var late := BeforeMerge(quote, source, ws, message, git, others).source;
    MayPublishIs(quote, ws, git);
    UnchangedExactly(ws);
    MergeMovesExactly(late, ws.base, ws.tree, message);
    hide PathsAccepted, ShowsRename, MayPublish, Untouched, Overlay, History;
    MergeAnswers(late, Child(ws.base, ws.tree, message));
    hide FastForwarded;
  }

  lemma MergeAnswers(source: Source, revision: Commit)
    ensures FastForwarded(source, revision).Some?
       <==> && revision in source.objects
            && (|| revision in History(source.head)
                || (source.head in History(revision) && Untouched(source.files, source.head.tree, revision.tree)))
  {
    hide Untouched, Overlay, History;
  }

  /** The two trees hold the same at `p`: the same content, or nothing. */
  predicate Agree(a: Tree, b: Tree, p: Path) {
    (p in a <==> p in b) && (p in a ==> a[p] == b[p])
  }

  /**
   * The merge of a publish changes no file but those in which HEAD and the workspace differ, and these to what the
   * workspace holds; it goes ahead only where each of them still is what HEAD has.
   */
  lemma {:induction false} PublishTouchesOnlyChanges(quote: Path -> string, source: Source, ws: Workspace, message: string, git: Git, others: Others)
    requires var late := BeforeMerge(quote, source, ws, message, git, others).source;
             Publish(quote, source, ws, message, git, others).source.head != late.head
    ensures var late := BeforeMerge(quote, source, ws, message, git, others).source;
            var files := Publish(quote, source, ws, message, git, others).source.files;
            && (forall p :: if Agree(late.head.tree, ws.tree, p) then Agree(files, late.files, p) else Agree(files, ws.tree, p))
            && (forall p :: Agree(late.head.tree, ws.tree, p) || Agree(late.head.tree, late.files, p))
  {
    PublishIsAllOrNothing(quote, source, ws, message, git, others);
    var late := BeforeMerge(quote, source, ws, message, git, others).source;
    OverlayTouches(late.files, late.head.tree, ws.tree);
    hide Publish, BeforeMerge, Overlay, Untouched, Agree, ReachesMerge;
  }

  lemma OverlayTouches(files: Tree, was: Tree, now: Tree)
    requires Untouched(files, was, now)
    ensures forall p :: if Agree(was, now, p) then Agree(Overlay(files, was, now), files, p) else Agree(Overlay(files, was, now), now, p)
    ensures forall p :: Agree(was, now, p) || Agree(was, files, p)
  {
    forall p
      ensures Agree(was, now, p) || Agree(was, files, p)
    {
      assert Agree(was, now, p) || p in Changed(was, now);
    }
  }

  function Alone(): Others {
    Others((s: Source) => s, (s: Source) => s)
  }

  /** When nobody else acts, the project moves from the recorded base only, and ends clean at the workspace's tree. */
  lemma {:induction false} AlonePublishes(quote: Path -> string, source: Source, ws: Workspace, message: string, git: Git)
    ensures var p := Publish(quote, source, ws, message, git, Alone());
            var revision := Child(ws.base, ws.tree, message);
            if ReachesMerge(quote, source, ws, git) && git.merged then
              p.source == Source(revision, ws.tree, source.objects + History(revision)) && p.result == Ok(Some(revision))
            else
              && p.source.head == source.head && p.source.files == source.files
              && !(p.result.Ok? && p.result.value.Some?)
  {
    hide PathsAccepted, ShowsRename, FastForwarded, Untouched, Overlay;
    PublishIsAllOrNothing(quote, source, ws, message, git, Alone());
    var revision := Child(ws.base, ws.tree, message);
    MergeMovesExactly(Fetched(source, revision), ws.base, ws.tree, message);
    OverlayOnClean(ws.base.tree, ws.tree);
    UnchangedExactly(ws);
    if ws.base in History(ws.base) && revision in History(ws.base) {
      AncestorsAreLower(ws.base, revision);
    }
  }

  const ALL_RUNS := Git(true, true, true, true, true, true, true, true, true, false)

  function RewindTo(root: Commit): Others {
    Others((s: Source) => Source(root, root.tree, s.objects), (s: Source) => s)
  }

  /** The check of HEAD does not bind the merge: rewound by others to any ancestor in between, the project still moves. */
  lemma RewoundProjectMoves(quote: Path -> string, root: Commit, ws: Workspace, message: string)
    requires ws.tree != ws.base.tree && PathsAccepted(quote, ws) && root in History(ws.base)
    ensures var source := Source(ws.base, ws.base.tree, {ws.base});
            && BeforeMerge(quote, source, ws, message, ALL_RUNS, RewindTo(root)).source.head == root
            && Publish(quote, source, ws, message, ALL_RUNS, RewindTo(root)).source.head == Child(ws.base, ws.tree, message)
  {
    hide PathsAccepted, Overlay, Untouched;
    var source := Source(ws.base, ws.base.tree, {ws.base});
    UnchangedExactly(ws);
    OverlayOnClean(root.tree, ws.tree);
    AncestorsAreLower(ws.base, root);
    PublishIsAllOrNothing(quote, source, ws, message, ALL_RUNS, RewindTo(root));
    hide FastForwarded;
  }

  /** One such project: two commits, rewound to the first. */
  lemma RewoundExample(quote: Path -> string, root: Commit, base: Commit, ws: Workspace)
    requires root == Root(map[]) && base == Child(root, map[["a", "b"] := "1"], "")
    requires ws == Workspace(base, map[["a", "b"] := "2"], [["a"]])
    ensures Publish(quote, Source(base, base.tree, {base}), ws, "", ALL_RUNS, RewindTo(root)).source.head == Child(base, ws.tree, "")
  {
    var p := ["a", "b"];
    assert Changed(base.tree, ws.tree) == {p};
    PlainLineExactly(ws.prefixes, p);
    assert ws.prefixes[0] <= p;
    hide Publish, LineAccepted;
    assert ws.tree[p] != base.tree[p];
    RewoundProjectMoves(quote, root, ws, "");
  }

  // ------------------------------------------------------------------------------- the path check

  ghost predicate IsPathText(s: string) {
    forall i | 0 <= i < |s| :: IsPlainChar(s[i])
  }

  lemma {:induction false} JoinIsPlain(p: Path)
    requires p != [] && IsPlain(p)
    ensures IsPathText(Join(p))
  {
    if |p| > 1 {
      assert forall i, j | 0 <= i < |p[1..]| && 0 <= j < |p[1..][i]| :: p[1..][i][j] == p[i + 1][j];
      JoinIsPlain(p[1..]);
    }
  }

  lemma PlainTextIsItself(s: string)
    requires IsPathText(s)
    ensures Trim(s) == s && !Contains(s, " -> ")
  {
    assert s != [] ==> IsPlainChar(s[0]) && IsPlainChar(s[|s| - 1]);
    assert forall i | 0 <= i < |s| :: s[i..][0] == s[i] && IsPlainChar(s[i]);
  }

  lemma QuotedTextKeepsQuote(s: string)
    requires s != [] && s[0] == '"'
    ensures Trim(s) != [] && Trim(s)[0] == '"'
  {
    assert TrimStart(s) == s;
    TrimEndDrops(s);
    assert !IsWhitespace(s[0]) && forall k | k == 0 :: s[k..] == s;
  }

  ghost predicate NoQuotedPrefix(prefixes: seq<Path>) {
    forall i | 0 <= i < |prefixes| :: IsNormal(prefixes[i]) && prefixes[i][0][0] != '"'
  }

  lemma QuotedLineDenied(prefixes: seq<Path>, s: string)
    requires NoQuotedPrefix(prefixes) && s != [] && s[0] == '"'
    ensures !LineAccepted(prefixes, s)
  {
    QuotedTextKeepsQuote(s);
    var value := Trim(s);
    if Normalize(value).Some? {
      SplitPieces(value);
      var p := Normalize(value).value;
      assert p[0] == Split(value)[0] && p[0][0] == '"';
      forall i | 0 <= i < |prefixes|
        ensures !(prefixes[i] <= p)
      {
        assert IsNormal(prefixes[i]) && IsComponent(prefixes[i][0]);
        assert prefixes[i][0] != p[0];
      }
    }
  }

  lemma PlainLineExactly(prefixes: seq<Path>, p: Path)
    requires IsNormal(p) && IsPlain(p)
    ensures LineAccepted(prefixes, Join(p)) <==> ExtendsOne(prefixes, p)
  {
    JoinIsPlain(p);
    PlainTextIsItself(Join(p));
    NormalizeJoin(p);
  }

  /**
   * Which changes the check lets through, for allowed prefixes that do not begin with a quote: those where Git prints
   * every changed path as it is and every one extends an allowed prefix component by component.
   */
  lemma {:induction false} PathCheckExactly(quote: Path -> string, ws: Workspace)
    requires NoQuotedPrefix(ws.prefixes)
    requires forall p | p in Changed(ws.base.tree, ws.tree) :: IsNormal(p)
    ensures PathsAccepted(quote, ws)
       <==> forall p | p in Changed(ws.base.tree, ws.tree) :: IsPlain(p) && ExtendsOne(ws.prefixes, p)
  {
    forall p | p in Changed(ws.base.tree, ws.tree)
      ensures LineAccepted(ws.prefixes, StatusText(quote, p)) <==> IsPlain(p) && ExtendsOne(ws.prefixes, p)
    {
      if IsPlain(p) {
        PlainLineExactly(ws.prefixes, p);
      } else {
        QuotedLineDenied(ws.prefixes, StatusText(quote, p));
      }
    }
  }

  // ------------------------------------------------------------------------- edits meet the check

  lemma ChangedThrough(a: Tree, b: Tree, c: Tree, p: Path)
    requires p in Changed(a, c)
    ensures p in Changed(a, b) || p in Changed(b, c)
  {
  }

  /** Edits through the tools change allowed paths only, and delete nothing. */
  lemma {:induction false} EditsStayAllowed(sha: string -> string, prefixes: seq<Path>, s: Edits, calls: seq<Call>)
    ensures s.tree.Keys <= ApplyAll(sha, prefixes, s, calls).tree.Keys
    ensures forall p | p in Changed(s.tree, ApplyAll(sha, prefixes, s, calls).tree) :: IsNormal(p) && Allowed(prefixes, p)
  {
    if calls != [] {
      var n := |calls| - 1;
      var before, after := ApplyAll(sha, prefixes, s, calls[..n]), ApplyAll(sha, prefixes, s, calls);
      EditsStayAllowed(sha, prefixes, s, calls[..n]);
      var last := calls[n];
      if after.tree != before.tree {
        NormalizeIsNormal(last.replacement.path);
      }
      forall p | p in Changed(s.tree, after.tree)
        ensures IsNormal(p) && Allowed(prefixes, p)
      {
        ChangedThrough(s.tree, before.tree, after.tree, p);
      }
    }
  }

  /**
   * When only the tools have edited the workspace, the check lets the change through exactly when a prefix is named and
   * Git prints every changed path as it is: the tools read an empty list as no restriction and take any file name.
   */
  lemma {:induction false} ToolEditsPassExactly(quote: Path -> string, sha: string -> string, ws: Workspace, calls: seq<Call>, git: Git)
    requires NoQuotedPrefix(ws.prefixes)
    requires ws.tree == ApplyAll(sha, ws.prefixes, Edits(ws.base.tree, map[]), calls).tree && ws.tree != ws.base.tree
    ensures !ShowsRename(ws.base.tree, ws.tree, git) && PathsAccepted(quote, ws)
       <==> ws.prefixes != [] && forall p | p in Changed(ws.base.tree, ws.tree) :: IsPlain(p)
  {
    EditsStayAllowed(sha, ws.prefixes, Edits(ws.base.tree, map[]), calls);
    PathCheckExactly(quote, ws);
    UnchangedExactly(ws);
    var p :| p in Changed(ws.base.tree, ws.tree);
    assert Allowed(ws.prefixes, p);
  }

  lemma OneEdit(sha: string -> string, prefixes: seq<Path>, p: Path, content: string)
    requires IsDigest(sha) && IsNormal(p) && |p| == 2 && Allowed(prefixes, [p[0]])
    requires (forall i | 0 <= i < |p| :: NUL !in p[i]) && FitsFile(content)
    ensures var a := Applied(sha, prefixes, Edits(map[], map[]), "k", Replacement(Join(p), None, content), Io(true, true, true));
            a.result.Ok? && a.edits.tree == map[p := content]
  {
    NormalizeJoin(p);
    assert p[..1] == [p[0]];
    FreshEditSucceedsExactly(sha, prefixes, Edits(map[], map[]), "k", Replacement(Join(p), None, content), Io(true, true, true));
    hide Encode, Normalize;
  }

  /** With `src` allowed the tools write `src/a b`, and the check then denies it. */
  lemma SpacedNameDenied(quote: Path -> string, sha: string -> string)
    requires IsDigest(sha)
    ensures var a := Applied(sha, [["src"]], Edits(map[], map[]), "k", Replacement(Join(["src", "a b"]), None, ""), Io(true, true, true));
            a.result.Ok? && !PathsAccepted(quote, Workspace(Root(map[]), a.edits.tree, [["src"]]))
  {
    var p, prefixes := ["src", "a b"], [["src"]];
    assert prefixes[0] <= [p[0]] && !IsPlainChar(p[1][1]);
    OneEdit(sha, prefixes, p, "");
    OnePath(quote, prefixes, p);
  }

  /** With no prefix named the tools write `src/a`, and the check denies that too. */
  lemma UnrestrictedEditDenied(quote: Path -> string, sha: string -> string)
    requires IsDigest(sha)
    ensures var a := Applied(sha, [], Edits(map[], map[]), "k", Replacement(Join(["src", "a"]), None, ""), Io(true, true, true));
            a.result.Ok? && !PathsAccepted(quote, Workspace(Root(map[]), a.edits.tree, []))
  {
    var p, prefixes := ["src", "a"], [];
    OneEdit(sha, prefixes, p, "");
    OnePath(quote, prefixes, p);
  }

  lemma OnePath(quote: Path -> string, prefixes: seq<Path>, p: Path)
    requires NoQuotedPrefix(prefixes) && IsNormal(p)
    ensures PathsAccepted(quote, Workspace(Root(map[]), map[p := ""], prefixes)) <==> IsPlain(p) && ExtendsOne(prefixes, p)
  {
    var ws := Workspace(Root(map[]), map[p := ""], prefixes);
    assert Changed(ws.base.tree, ws.tree) == {p};
    PathCheckExactly(quote, ws);
  }
}
