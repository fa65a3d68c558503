/** Workspace paths: normalisation, component-wise prefixes and the text Git prints (agents/node/src/harness.rs). */
module Paths {
  import opened Wrappers

  /** The components of a normalised relative path. */
  type Path = seq<string>

  function Split(s: string): (pieces: seq<string>)
    ensures |pieces| >= 1
    ensures s == "" <==> pieces == [""]
  {
    if s == "" then [""]
    else
      var rest := Split(s[1..]);
      if s[0] == '/' then [""] + rest else [[s[0]] + rest[0]] + rest[1..]
  }

  /** Empty pieces and inner `.` pieces vanish, as `Path::components` has it. */
  function Components(pieces: seq<string>): Path {
    if pieces == [] then []
    else (if pieces[0] == "" || pieces[0] == "." then [] else [pieces[0]]) + Components(pieces[1..])
  }

  function Normalize(s: string): Option<Path> {
    if s == "" || s[0] == '/' then None
    else
      var pieces := Split(s);
      if pieces[0] == "." || ".." in pieces then None else Some(Components(pieces))
  }

  predicate IsComponent(c: string) {
    c != "" && c != "." && c != ".." && '/' !in c
  }

  predicate IsNormal(p: Path) {
    p != [] && forall i | 0 <= i < |p| :: IsComponent(p[i])
  }

  function Join(p: Path): string
    requires p != []
  {
    if |p| == 1 then p[0] else p[0] + "/" + Join(p[1..])
  }

  lemma {:induction false} SplitPieces(s: string)
    ensures forall i | 0 <= i < |Split(s)| :: '/' !in Split(s)[i]
    ensures s != "" && s[0] != '/' ==> Split(s)[0] != "" && Split(s)[0][0] == s[0]
  {
    if s != "" {
      SplitPieces(s[1..]);
    }
  }

  lemma {:induction false} ComponentsOf(pieces: seq<string>)
    ensures forall c | c in Components(pieces) :: c in pieces && c != "" && c != "."
  {
    if pieces != [] {
      ComponentsOf(pieces[1..]);
    }
  }

  /** A path that is accepted has at least one component, and none of them can leave the workspace. */
  lemma NormalizeIsNormal(s: string)
    requires Normalize(s).Some?
    ensures IsNormal(Normalize(s).value)
  {
    var pieces := Split(s);
    SplitPieces(s);
    ComponentsOf(pieces);
    assert Components(pieces) == [pieces[0]] + Components(pieces[1..]);
    var p := Normalize(s).value;
    assert forall i | 0 <= i < |p| :: p[i] in p;
  }

  lemma {:induction false} SplitOne(c: string, rest: string)
    requires '/' !in c
    ensures Split(c) == [c] && Split(c + "/" + rest) == [c] + Split(rest)
  {
    if c == "" {
      assert c + "/" + rest == "/" + rest;
      assert ("/" + rest)[1..] == rest;
    } else {
      SplitOne(c[1..], rest);
      var whole := c + "/" + rest;
      assert whole[1..] == c[1..] + "/" + rest && whole[0] == c[0];
      assert [c[0]] + c[1..] == c;
    }
  }

  lemma {:induction false} SplitJoin(p: Path)
    requires IsNormal(p)
    ensures Split(Join(p)) == p && Join(p) != "" && Join(p)[0] == p[0][0]
  {
    assert IsComponent(p[0]);
    if |p| == 1 {
      SplitOne(p[0], "");
    } else {
      hide Split;
      assert forall i | 0 <= i < |p| - 1 :: p[1..][i] == p[i + 1];
      SplitJoin(p[1..]);
      SplitOne(p[0], Join(p[1..]));
      assert p == [p[0]] + p[1..];
    }
  }

  lemma {:induction false} ComponentsKeep(p: Path)
    requires forall i | 0 <= i < |p| :: IsComponent(p[i])
    ensures Components(p) == p
  {
    if p != [] {
      ComponentsKeep(p[1..]);
    }
  }

  /** Printing a path and normalising the text gives the path back. */
  lemma NormalizeJoin(p: Path)
    requires IsNormal(p)
    ensures Normalize(Join(p)) == Some(p)
  {
    SplitJoin(p);
    ComponentsKeep(p);
    assert IsComponent(p[0]) && p[0][0] in p[0];
    assert forall i | 0 <= i < |p| :: IsComponent(p[i]) && p[i] != "..";
  }

  /** Place `i` of the pieces holds a component: neither empty, as between two slashes, nor a single dot. */
  predicate Names(pieces: seq<string>, i: int)
    requires 0 <= i < |pieces|
  {
    pieces[i] != "" && pieces[i] != "."
  }

  /** The components of `p` are exactly the named places of the pieces, in order. */
  ghost predicate Picks(pieces: seq<string>, p: Path, places: seq<int>) {
    && |places| == |p|
    && (forall k | 0 <= k < |p| :: 0 <= places[k] < |pieces| && p[k] == pieces[places[k]])
    && (forall j, k | 0 <= j < k < |p| :: places[j] < places[k])
    && (forall i | 0 <= i < |pieces| :: Names(pieces, i) <==> i in places)
  }

  lemma {:induction false} ComponentsPick(pieces: seq<string>) returns (places: seq<int>)
    ensures Picks(pieces, Components(pieces), places)
  {
    if pieces == [] {
      places := [];
    } else {
      var n := |pieces| - 1;
      places := ComponentsPick(pieces[..n]);
      ComponentsMore(pieces[..n], pieces[n]);
      assert pieces == pieces[..n] + [pieces[n]];
      assert forall i | 0 <= i < n :: Names(pieces, i) <==> Names(pieces[..n], i);
      var before := places;
      if Names(pieces, n) {
        places := before + [n];
        assert forall i | 0 <= i < n :: i in places <==> i in before;
      }
      assert forall k | 0 <= k < |before| :: before[k] in before;
    }
  }

  lemma {:induction false} ComponentsMore(pieces: seq<string>, piece: string)
    ensures Components(pieces + [piece]) == Components(pieces) + if piece == "" || piece == "." then [] else [piece]
  {
    var none := pieces[..0];
    if |pieces| == 0 {
      assert pieces + [piece] == [piece] && [piece][1..] == none;
      assert Components(none) == [];
    } else {
      ComponentsMore(pieces[1..], piece);
      assert (pieces + [piece])[1..] == pieces[1..] + [piece];
    }
  }

  lemma {:induction false} SplitText(pieces: seq<string>)
    requires pieces != [] && forall i | 0 <= i < |pieces| :: '/' !in pieces[i]
    ensures Split(Join(pieces)) == pieces
  {
    hide Split;
    if |pieces| == 1 {
      SplitOne(pieces[0], "");
    } else {
      SplitText(pieces[1..]);
      SplitOne(pieces[0], Join(pieces[1..]));
      assert pieces == [pieces[0]] + pieces[1..];
    }
  }

  lemma JoinBegins(pieces: seq<string>)
    requires pieces != [] && '/' !in pieces[0]
    ensures Join(pieces) == "" || Join(pieces)[0] == '/' <==> pieces[0] == ""
  {
    assert pieces[0] != "" ==> pieces[0][0] in pieces[0];
  }

  /**
   * Any text is some pieces with slashes between them. It is a workspace path exactly when it begins with neither a slash
   * nor a lone dot and goes up nowhere; its components are then the other named pieces, in order.
   */
  lemma NormalizeExactly(pieces: seq<string>) returns (places: seq<int>)
    requires pieces != [] && forall i | 0 <= i < |pieces| :: '/' !in pieces[i]
    ensures Normalize(Join(pieces)).Some?
       <==> pieces[0] != "" && pieces[0] != "." && forall i | 0 <= i < |pieces| :: pieces[i] != ".."
    ensures Normalize(Join(pieces)).Some? ==> Picks(pieces, Normalize(Join(pieces)).value, places)
  {
    SplitText(pieces);
    JoinBegins(pieces);
    places := ComponentsPick(pieces);
    hide Split, Join, Components;
  }

  predicate ExtendsOne(prefixes: seq<Path>, p: Path) {
    exists i | 0 <= i < |prefixes| :: prefixes[i] <= p
  }

  /** `require_allowed_prefix`: an empty list allows every path. */
  predicate Allowed(prefixes: seq<Path>, p: Path) {
    prefixes == [] || ExtendsOne(prefixes, p)
  }
}
