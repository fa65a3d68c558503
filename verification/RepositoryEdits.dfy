/** Content-addressed file replacement with idempotency keys (`apply_replacement`, agents/node/src/harness_tools.rs). */
module RepositoryEdits {
  import opened Wrappers
  import opened Text
  import opened Paths

  const MAX_FILE_BYTES: nat := 2 * 1024 * 1024
  const NUL: char := '\0'

  /** The files of a workspace; directories exist through the files below them. */
  type Tree = map<Path, string>

  datatype Replacement = Replacement(path: string, expected: Option<string>, content: string)

  datatype PatchResult = PatchResult(path: string, previous: Option<string>, digest: string, bytes: nat, replay: bool)

  datatype EditError =
    | BadKey | BadContent | PathDenied | KeyConflict
    | ExpectedMissing                        // the file exists and no digest was named
    | ContentMoved                           // the file is not the one that was named

  datatype Stored = Stored(input: string, result: PatchResult)

  datatype Edits = Edits(tree: Tree, applied: map<string, Stored>)

  /** The file system's own part: whether it resolves the path, and whether reading and then writing go through. */
  datatype Io = Io(resolves: bool, readable: bool, writable: bool)

  predicate IsKeyChar(c: char) {
    '0' <= c <= '9' || 'a' <= c <= 'z' || 'A' <= c <= 'Z' || c in {'-', '_', '.'}
  }

  predicate IsKey(key: string) {
    0 < |key| <= 128 && forall i | 0 <= i < |key| :: IsKeyChar(key[i])
  }

  /** What `replacement_digest` hashes: path, expected digest and content, with a NUL after each of the first two. */
  function Encode(r: Replacement): string {
    r.path + [NUL] + r.expected.GetOr("") + [NUL] + r.content
  }

  /** A file cannot sit where a directory is, nor below another file, nor under a name with a NUL. */
  predicate Placeable(tree: Tree, p: Path) {
    && (forall q | q in tree :: q == p || !(q <= p || p <= q))
    && (forall i | 0 <= i < |p| :: NUL !in p[i])
  }

  function Read(sha: string -> string, tree: Tree, p: Path): Option<string> {
    if p in tree then Some(sha(tree[p])) else None
  }

  /** `None` when the caller named the file that is there: this content, or no file at all. */
  function NamingError(actual: Option<string>, expected: Option<string>): Option<EditError> {
    if actual.Some? && expected.Some? && Lower(actual.value) == Lower(expected.value) then None
    else if actual.None? && expected.None? then None
    else if actual.Some? && expected.None? then Some(ExpectedMissing)
    else Some(ContentMoved)
  }

  /** The parent directory is resolved for writing too, so it must be a path of its own and an allowed one. */
  predicate HasWritableParent(prefixes: seq<Path>, p: Path) {
    |p| >= 2 && Allowed(prefixes, p[..|p| - 1])
  }

  datatype Answer = Answer(edits: Edits, result: Result<PatchResult, EditError>)

  function Applied(sha: string -> string, prefixes: seq<Path>, s: Edits, key: string, r: Replacement, io: Io): Answer {
    if !IsKey(key) then Answer(s, Err(BadKey))
    else if ByteLength(r.content) > MAX_FILE_BYTES || NUL in r.content then Answer(s, Err(BadContent))
    else
      var p := Normalize(r.path);
      if p.None? || !Allowed(prefixes, p.value) || !io.resolves then Answer(s, Err(PathDenied))
      else
        var input := sha(Encode(r));
        if key in s.applied then
          Answer(s, if s.applied[key].input != input then Err(KeyConflict) else Ok(s.applied[key].result.(replay := true)))
        else if !Placeable(s.tree, p.value) || !io.readable then Answer(s, Err(PathDenied))
        else
          var previous := Read(sha, s.tree, p.value);
          var unnamed := NamingError(previous, r.expected);
          if unnamed.Some? then Answer(s, Err(unnamed.value))
          else if !HasWritableParent(prefixes, p.value) || !io.writable then Answer(s, Err(PathDenied))
          else
            var result := PatchResult(r.path, previous, sha(r.content), ByteLength(r.content), false);
            Answer(Edits(s.tree[p.value := r.content], s.applied[key := Stored(input, result)]), Ok(result))
  }

  class RepositoryToolRunner {
    const sha: string -> string
    const prefixes: seq<Path>
    var tree: Tree
    var applied: map<string, Stored>

    ghost function State(): Edits
      reads this
    {
      Edits(tree, applied)
    }

    constructor (sha: string -> string, prefixes: seq<Path>, tree: Tree)
      ensures this.sha == sha && this.prefixes == prefixes && State() == Edits(tree, map[])
    {
      this.sha, this.prefixes, this.tree, applied := sha, prefixes, tree, map[];
    }

    method ApplyReplacement(key: string, r: Replacement, io: Io) returns (result: Result<PatchResult, EditError>)
      modifies this
      ensures Answer(State(), result) == Applied(sha, prefixes, old(State()), key, r, io)
    {
      if !IsKey(key) {
        return Err(BadKey);
      }
      if ByteLength(r.content) > MAX_FILE_BYTES || NUL in r.content {
        return Err(BadContent);
      }
      var path := Normalize(r.path);
      if path.None? || !Allowed(prefixes, path.value) || !io.resolves {
        return Err(PathDenied);
      }
      var input := sha(Encode(r));
      if key in applied {
        var stored := applied[key];
        if stored.input != input {
          return Err(KeyConflict);
        }
        return Ok(stored.result.(replay := true));
      }
      if !Placeable(tree, path.value) || !io.readable {
        return Err(PathDenied);
      }
      var previous := Read(sha, tree, path.value);
      match (previous, r.expected) {
        case (Some(actual), Some(expected)) =>
          if Lower(actual) != Lower(expected) {
            return Err(ContentMoved);
          }
        case (None, None) =>
        case (Some(_), None) => return Err(ExpectedMissing);
        case _ => return Err(ContentMoved);
      }
      if !HasWritableParent(prefixes, path.value) || !io.writable {
        return Err(PathDenied);
      }
      tree := tree[path.value := r.content];
      var done := PatchResult(r.path, previous, sha(r.content), ByteLength(r.content), false);
      applied := applied[key := Stored(input, done)];
      return Ok(done);
    }
  }

  // ------------------------------------------------------------------- what the digest identifies

  /** SHA-256 taken as collision-free, printed in lower-case hexadecimal. */
  ghost predicate IsDigest(sha: string -> string) {
    && (forall a, b :: sha(a) == sha(b) ==> a == b)
    && (forall a :: Lower(sha(a)) == sha(a) && NUL !in sha(a))
  }

  lemma {:induction false} FirstNul(a: string, x: string, b: string, y: string)
    requires NUL !in a && NUL !in b && a + [NUL] + x == b + [NUL] + y
    ensures a == b && x == y
  {
    var s := a + [NUL] + x;
    assert s[|a|] == NUL && (forall i | 0 <= i < |a| :: s[i] == a[i] && a[i] in a);
    assert s == b + [NUL] + y;
    assert s[|b|] == NUL && (forall i | 0 <= i < |b| :: s[i] == b[i] && b[i] in b);
    assert |a| == |b|;
    assert a == s[..|a|] == b && x == s[|a| + 1..] == y;
  }

  lemma {:induction false} LastNul(x: string, a: string, y: string, b: string)
    requires NUL !in a && NUL !in b && x + [NUL] + a == y + [NUL] + b
    ensures x == y && a == b
  {
    var s := x + [NUL] + a;
    assert s[|x|] == NUL && (forall i | |x| < i < |s| :: s[i] == a[i - |x| - 1] && s[i] in a);
    assert s == y + [NUL] + b;
    assert s[|y|] == NUL && (forall i | |y| < i < |s| :: s[i] == b[i - |y| - 1] && s[i] in b);
    assert |x| == |y|;
    assert x == s[..|x|] == y && a == s[|x| + 1..] == b;
  }

  ghost predicate SameInput(a: Replacement, b: Replacement) {
    a.path == b.path && a.expected.GetOr("") == b.expected.GetOr("") && a.content == b.content
  }

  /**
   * Two accepted inputs hash alike exactly when they are the same edit, except that a missing expected digest and an
   * empty one coincide. The expected digest itself may hold anything.
   */
  lemma {:induction false} DigestIdentifies(sha: string -> string, a: Replacement, b: Replacement)
    requires IsDigest(sha) && NUL !in a.path && NUL !in b.path && NUL !in a.content && NUL !in b.content
    ensures sha(Encode(a)) == sha(Encode(b)) <==> SameInput(a, b)
  {
    if Encode(a) == Encode(b) {
      var x, y := a.expected.GetOr(""), b.expected.GetOr("");
      assert Encode(a) == a.path + [NUL] + (x + [NUL] + a.content);
      assert Encode(b) == b.path + [NUL] + (y + [NUL] + b.content);
      FirstNul(a.path, x + [NUL] + a.content, b.path, y + [NUL] + b.content);
      LastNul(x, a.content, y, b.content);
    }
  }

  /** An edit that has been applied cannot be confused even with a path or expected digest that holds NULs. */
  lemma {:induction false} AppliedDigestIdentifies(sha: string -> string, a: Replacement, b: Replacement)
    requires IsDigest(sha) && NUL !in a.path && NUL !in a.expected.GetOr("") && NUL !in a.content && NUL !in b.content
    ensures sha(Encode(a)) == sha(Encode(b)) <==> SameInput(a, b)
  {
    if Encode(a) == Encode(b) {
      var x, y := a.expected.GetOr(""), b.expected.GetOr("");
      LastNul(a.path + [NUL] + x, a.content, b.path + [NUL] + y, b.content);
      var s := a.path + [NUL] + x;
      assert forall i | 0 <= i < |s| && i != |a.path| :: s[i] in a.path || s[i] in x;
      assert s == b.path + [NUL] + y && s[|b.path|] == NUL;
      assert a.path == s[..|a.path|] == b.path && x == s[|a.path| + 1..] == y;
    }
  }

  // --------------------------------------------------------------------------- one call

  /**
   * A fresh success writes exactly one file, and what it replaces is what the caller named: no file when no digest was
   * given, else the only content with that digest. Every other call leaves the tree alone.
   */
  lemma {:induction false} WritesOnlyWhatWasNamed(sha: string -> string, prefixes: seq<Path>, s: Edits, key: string, r: Replacement, io: Io)
    requires IsDigest(sha)
    ensures var a := Applied(sha, prefixes, s, key, r, io);
            if a.result.Ok? && !a.result.value.replay && key !in s.applied then
              var p := Normalize(r.path);
              && p.Some? && IsNormal(p.value) && Allowed(prefixes, p.value)
              && a.edits.tree == s.tree[p.value := r.content]
              && (p.value in s.tree <==> r.expected.Some?)
              && (p.value in s.tree ==> forall c :: Lower(sha(c)) == Lower(r.expected.value) <==> c == s.tree[p.value])
            else a.edits == s
  {
    var a := Applied(sha, prefixes, s, key, r, io);
    if a.result.Ok? && !a.result.value.replay && key !in s.applied {
      NormalizeIsNormal(r.path);
      var p := Normalize(r.path).value;
      if p in s.tree {
        forall c
          ensures Lower(sha(c)) == Lower(r.expected.value) <==> c == s.tree[p]
        {
          assert Lower(sha(c)) == sha(c) && Lower(sha(s.tree[p])) == sha(s.tree[p]);
        }
      }
    }
  }

  /** What the caller named is what is there: no file and no digest, or a file and its digest in either case. */
  ghost predicate NamesCurrent(sha: string -> string, tree: Tree, p: Path, expected: Option<string>) {
    if p in tree then expected.Some? && Lower(expected.value) == sha(tree[p]) else expected.None?
  }

  /**
   * When a fresh key's edit succeeds: an acceptable key and content, a path two components deep or more whose directory
   * is allowed and free of other files, and the current content named. So no file at the root of the workspace can be
   * edited, nor one that is itself an allowed prefix.
   */
  lemma FreshEditSucceedsExactly(sha: string -> string, prefixes: seq<Path>, s: Edits, key: string, r: Replacement, io: Io)
    requires IsDigest(sha) && key !in s.applied
    ensures Applied(sha, prefixes, s, key, r, io).result.Ok?
       <==> && IsKey(key) && FitsFile(r.content) && io == Io(true, true, true)
            && Normalize(r.path).Some?
            && var p := Normalize(r.path).value;
            && |p| >= 2 && (prefixes == [] || ExtendsOne(prefixes, p[..|p| - 1]))
            && Placeable(s.tree, p) && NamesCurrent(sha, s.tree, p, r.expected)
  {
    hide IsKey, ByteLength, Normalize, Placeable;
    if Normalize(r.path).Some? {
      var p := Normalize(r.path).value;
      if |p| >= 2 && ExtendsOne(prefixes, p[..|p| - 1]) {
        var i :| 0 <= i < |prefixes| && prefixes[i] <= p[..|p| - 1];
        assert prefixes[i] <= p;
      }
      if p in s.tree {
        assert Lower(sha(s.tree[p])) == sha(s.tree[p]);
      }
    }
  }

  /** What a fresh success answers: digest and size of the file now in the tree, and the digest of the one it replaced. */
  lemma {:induction false} FreshEditAnswers(sha: string -> string, prefixes: seq<Path>, s: Edits, key: string, r: Replacement, io: Io)
    requires key !in s.applied && Applied(sha, prefixes, s, key, r, io).result.Ok?
    ensures var a := Applied(sha, prefixes, s, key, r, io);
            && Normalize(r.path).Some?
            && var p := Normalize(r.path).value;
            && p in a.edits.tree && a.edits.tree[p] == r.content
            && a.result.value.path == r.path
            && a.result.value.digest == sha(a.edits.tree[p])
            && a.result.value.previous == (if p in s.tree then Some(sha(s.tree[p])) else None)
            && a.result.value.bytes == ByteLength(a.edits.tree[p]) && !a.result.value.replay
  {
    hide Encode, Placeable, IsKey, ByteLength;
  }

  /**
   * Edits chain: whatever happened to other files since, an edit under a fresh key that names the digest an earlier one
   * answered is not refused for naming the wrong content, as long as the file is the one that was written.
   */
  lemma {:induction false} AnsweredDigestNamesFile(sha: string -> string, prefixes: seq<Path>, s: Edits, key: string, r: Replacement, io: Io,
                              later: Edits, key2: string, r2: Replacement, io2: Io)
    requires IsDigest(sha) && key !in s.applied && Applied(sha, prefixes, s, key, r, io).result.Ok?
    requires key2 !in later.applied && Normalize(r2.path) == Normalize(r.path)
    requires Normalize(r.path).value in later.tree && later.tree[Normalize(r.path).value] == r.content
    requires r2.expected.Some? && Lower(r2.expected.value) == Applied(sha, prefixes, s, key, r, io).result.value.digest
    ensures var a := Applied(sha, prefixes, later, key2, r2, io2);
            && a.result != Err(ContentMoved) && a.result != Err(ExpectedMissing)
            && (a.result.Ok? <==>
                  && IsKey(key2) && FitsFile(r2.content) && io2 == Io(true, true, true)
                  && Placeable(later.tree, Normalize(r.path).value))
  {
    FreshEditAnswers(sha, prefixes, s, key, r, io);
    FreshEditSucceedsExactly(sha, prefixes, s, key, r, io);
    FreshEditSucceedsExactly(sha, prefixes, later, key2, r2, io2);
    EditRefusesExactly(sha, prefixes, later, key2, r2, io2);
    hide Applied, IsKey, FitsFile, Placeable, Normalize;
  }

  /** A key of 1 to 128 letters, digits, hyphens, underscores and dots. */
  lemma KeyExactly(key: string)
    ensures IsKey(key) <==>
              && 1 <= |key| <= 128
              && (forall i | 0 <= i < |key| ::
                    || '0' <= key[i] <= '9' || 'a' <= key[i] <= 'z' || 'A' <= key[i] <= 'Z'
                    || key[i] == '-' || key[i] == '_' || key[i] == '.')
  {
    assert forall c: char ::
        IsKeyChar(c) <==> '0' <= c <= '9' || 'a' <= c <= 'z' || 'A' <= c <= 'Z' || c == '-' || c == '_' || c == '.';
  }

  /** An edit of a fresh key whose path can be read, and so gets as far as being compared with the file. */
  predicate IsCompared(prefixes: seq<Path>, s: Edits, key: string, r: Replacement, io: Io) {
    && IsKey(key) && FitsFile(r.content) && Reachable(prefixes, r.path, io) && key !in s.applied
    && Placeable(s.tree, Normalize(r.path).value) && io.readable
  }

  /** Each refusal by its cause; what is refused for none of the others is refused for its path. */
  lemma {:induction false} EditRefusesExactly(sha: string -> string, prefixes: seq<Path>, s: Edits, key: string, r: Replacement, io: Io)
    requires IsDigest(sha)
    ensures var e := Applied(sha, prefixes, s, key, r, io).result;
            && (e == Err(BadKey) <==> !IsKey(key))
            && (e == Err(BadContent) <==> IsKey(key) && (ByteLength(r.content) > 2 * 1024 * 1024 || '\0' in r.content))
            && (e == Err(KeyConflict) <==>
                  && IsKey(key) && FitsFile(r.content) && Reachable(prefixes, r.path, io)
                  && key in s.applied && s.applied[key].input != sha(Encode(r)))
            && (e == Err(ExpectedMissing) <==>
                  && IsCompared(prefixes, s, key, r, io)
                  && Normalize(r.path).value in s.tree && r.expected.None?)
            && (e == Err(ContentMoved) <==>
                  && IsCompared(prefixes, s, key, r, io) && r.expected.Some?
                  && !NamesCurrent(sha, s.tree, Normalize(r.path).value, r.expected))
            && (e == Err(PathDenied) <==>
                  && IsKey(key) && FitsFile(r.content)
                  && (|| !Reachable(prefixes, r.path, io)
                      || (key !in s.applied && !(Placeable(s.tree, Normalize(r.path).value) && io.readable))
                      || (&& IsCompared(prefixes, s, key, r, io)
                          && NamesCurrent(sha, s.tree, Normalize(r.path).value, r.expected)
                          && !(HasWritableParent(prefixes, Normalize(r.path).value) && io.writable))))
  {
    hide IsKey, Placeable, Normalize, HasWritableParent, Encode, Allowed;
    if Normalize(r.path).Some? && Normalize(r.path).value in s.tree {
      assert Lower(sha(s.tree[Normalize(r.path).value])) == sha(s.tree[Normalize(r.path).value]);
    }
    hide Lower, ByteLength;
  }

  /** A file at the root, with no restriction on paths at all; and a file that is the one allowed prefix. */
  lemma RootAndPrefixFilesRefused(sha: string -> string)
    ensures Applied(sha, [], Edits(map[], map[]), "k", Replacement("a", None, ""), Io(true, true, true)).result == Err(PathDenied)
    ensures Applied(sha, [["b", "a"]], Edits(map[], map[]), "k", Replacement("b/a", None, ""), Io(true, true, true)).result
         == Err(PathDenied)
  {
    var root, file := ["a"], ["b", "a"];
    assert Join(root) == "a" && Join(file) == "b" + "/" + Join(file[1..]) && file[1..] == root;
    NormalizeJoin(root);
    NormalizeJoin(file);
    assert [file][0] <= file;
    assert file[..1] == ["b"];
  }

  // --------------------------------------------------------------------------- any sequence of calls

  datatype Call = Call(key: string, replacement: Replacement, io: Io)

  function ApplyAll(sha: string -> string, prefixes: seq<Path>, s: Edits, calls: seq<Call>): Edits {
    if calls == [] then s
    else
      var before := ApplyAll(sha, prefixes, s, calls[..|calls| - 1]);
      var last := calls[|calls| - 1];
      Applied(sha, prefixes, before, last.key, last.replacement, last.io).edits
  }

  /** The answer to call `i` of a sequence. */
  function AnswerAt(sha: string -> string, prefixes: seq<Path>, s: Edits, calls: seq<Call>, i: nat): Answer
    requires i < |calls|
  {
    Applied(sha, prefixes, ApplyAll(sha, prefixes, s, calls[..i]), calls[i].key, calls[i].replacement, calls[i].io)
  }

  /** Nothing ever leaves the record of applied keys. */
  lemma {:induction false} RecordsStay(sha: string -> string, prefixes: seq<Path>, s: Edits, calls: seq<Call>, i: nat)
    requires i <= |calls|
    ensures forall k | k in ApplyAll(sha, prefixes, s, calls[..i]).applied ::
              k in ApplyAll(sha, prefixes, s, calls).applied
              && ApplyAll(sha, prefixes, s, calls).applied[k] == ApplyAll(sha, prefixes, s, calls[..i]).applied[k]
    decreases |calls|
  {
    if i == |calls| {
      assert calls[..i] == calls;
    } else {
      assert calls[..|calls| - 1][..i] == calls[..i];
      RecordsStay(sha, prefixes, s, calls[..|calls| - 1], i);
    }
  }

  predicate FitsFile(content: string) {
    ByteLength(content) <= MAX_FILE_BYTES && NUL !in content
  }

  predicate Reachable(prefixes: seq<Path>, path: string, io: Io) {
    Normalize(path).Some? && Allowed(prefixes, Normalize(path).value) && io.resolves
  }

  /** What a later use of an applied key is answered: it never touches the tree, and an acceptable edit replays or conflicts. */
  ghost predicate Replays(prefixes: seq<Path>, before: Edits, stored: PatchResult, same: bool, r: Replacement, io: Io, a: Answer) {
    && a.edits == before
    && a.result == if !FitsFile(r.content) then Err(BadContent)
                   else if !Reachable(prefixes, r.path, io) then Err(PathDenied)
                   else if same then Ok(stored.(replay := true))
                   else Err(KeyConflict)
  }

  /** The edit of a fresh success: accepted as it is, and free of NULs. */
  ghost predicate IsClean(prefixes: seq<Path>, key: string, r: Replacement) {
    && IsKey(key) && FitsFile(r.content)
    && NUL !in r.path && NUL !in r.expected.GetOr("")
    && Normalize(r.path).Some? && Allowed(prefixes, Normalize(r.path).value)
  }

  lemma KeyReuse(sha: string -> string, prefixes: seq<Path>, before: Edits, key: string, a: Replacement, b: Replacement, io: Io)
    requires IsDigest(sha) && IsClean(prefixes, key, a)
    requires key in before.applied && before.applied[key].input == sha(Encode(a))
    ensures Replays(prefixes, before, before.applied[key].result, SameInput(a, b), b, io, Applied(sha, prefixes, before, key, b, io))
  {
    hide Encode, Placeable, ByteLength;
    if NUL !in b.content {
      AppliedDigestIdentifies(sha, a, b);
    }
  }

  /**
   * Over any sequence of calls a key writes at most once: after its success every further call with it leaves the tree
   * alone, answers the stored result for the same edit and conflicts on another acceptable one.
   */
  lemma {:induction false} KeyWritesOnce(sha: string -> string, prefixes: seq<Path>, s: Edits, calls: seq<Call>, i: nat, j: nat)
    requires IsDigest(sha) && i < j < |calls| && calls[i].key == calls[j].key
    requires calls[i].key !in ApplyAll(sha, prefixes, s, calls[..i]).applied && AnswerAt(sha, prefixes, s, calls, i).result.Ok?
    ensures Replays(prefixes, ApplyAll(sha, prefixes, s, calls[..j]), AnswerAt(sha, prefixes, s, calls, i).result.value,
                    SameInput(calls[i].replacement, calls[j].replacement), calls[j].replacement, calls[j].io,
                    AnswerAt(sha, prefixes, s, calls, j))
  {
    var k := calls[i].key;
    var before := ApplyAll(sha, prefixes, s, calls[..j]);
    var at := ApplyAll(sha, prefixes, s, calls[..i]);
    FreshSuccess(sha, prefixes, at, k, calls[i].replacement, calls[i].io);
    assert calls[..j][..i + 1] == calls[..i + 1] && calls[..i + 1][..i] == calls[..i];
    assert ApplyAll(sha, prefixes, s, calls[..i + 1]) == AnswerAt(sha, prefixes, s, calls, i).edits;
    RecordsStay(sha, prefixes, s, calls[..j], i + 1);
    hide Applied, ApplyAll;
    KeyReuse(sha, prefixes, before, k, calls[i].replacement, calls[j].replacement, calls[j].io);
  }

  lemma FreshSuccess(sha: string -> string, prefixes: seq<Path>, s: Edits, key: string, r: Replacement, io: Io)
    requires IsDigest(sha) && key !in s.applied && Applied(sha, prefixes, s, key, r, io).result.Ok?
    ensures IsClean(prefixes, key, r)
    ensures var a := Applied(sha, prefixes, s, key, r, io);
            key in a.edits.applied && a.edits.applied[key] == Stored(sha(Encode(r)), a.result.value)
  {
    WrittenPathHasNoNul(s.tree, r.path);
    if r.expected.Some? {
      LowerKeepsNul(r.expected.value);
    }
  }

  lemma LowerKeepsNul(s: string)
    ensures NUL in Lower(s) <==> NUL in s
  {
    assert forall i | 0 <= i < |s| :: Lower(s)[i] == NUL <==> s[i] == NUL;
    if NUL in s {
      var i :| 0 <= i < |s| && s[i] == NUL;
      assert Lower(s)[i] == NUL;
    }
  }

  lemma {:induction false} JoinedNul(s: string)
    requires NUL in s && s != "" && s[0] != '/'
    ensures exists i | 0 <= i < |Components(Split(s))| :: NUL in Components(Split(s))[i]
  {
    NulPiece(s);
    var i :| 0 <= i < |Split(s)| && NUL in Split(s)[i];
    NulComponent(Split(s), i);
  }

  lemma {:induction false} NulPiece(s: string)
    requires NUL in s
    ensures exists i | 0 <= i < |Split(s)| :: NUL in Split(s)[i]
  {
    if s[0] == NUL {
      assert Split(s)[0][0] == NUL;
      assert NUL in Split(s)[0];
    } else {
      assert s == [s[0]] + s[1..];
      NulPiece(s[1..]);
      var i :| 0 <= i < |Split(s[1..])| && NUL in Split(s[1..])[i];
      if s[0] == '/' {
        assert Split(s)[i + 1] == Split(s[1..])[i];
      } else {
        assert i == 0 ==> Split(s)[0] == [s[0]] + Split(s[1..])[0];
        assert i > 0 ==> Split(s)[i] == Split(s[1..])[i];
        assert NUL in Split(s)[i];
      }
    }
  }

  lemma {:induction false} NulComponent(pieces: seq<string>, i: nat)
    requires i < |pieces| && NUL in pieces[i]
    ensures exists k | 0 <= k < |Components(pieces)| :: NUL in Components(pieces)[k]
  {
    if i == 0 {
      assert pieces[0] != "" && pieces[0] != ".";
      assert Components(pieces)[0] == pieces[0];
    } else {
      NulComponent(pieces[1..], i - 1);
      var k :| 0 <= k < |Components(pieces[1..])| && NUL in Components(pieces[1..])[k];
      var d := |Components(pieces)| - |Components(pieces[1..])|;
      assert Components(pieces)[k + d] == Components(pieces[1..])[k];
    }
  }

  lemma WrittenPathHasNoNul(tree: Tree, path: string)
    requires Normalize(path).Some? && Placeable(tree, Normalize(path).value)
    ensures NUL !in path
  {
    if NUL in path {
      JoinedNul(path);
    }
  }
}
