/** What a search answers, told by following names through the tree. */
module SearchListing {
  import opened Wrappers
  import opened Text
  import opened RepositorySearch

  /** A line of a file: the way to the file, as positions among the sorted entries on each level, and the line's index. */
  datatype Place = Place(way: seq<nat>, line: nat)

  /** A file that can be read as text and is at most two megabytes. */
  predicate IsReadable(node: Node) {
    node.File? && node.size <= 2 * 1024 * 1024 && node.text.Some?
  }

  /** The way leads through readable directories, none named `.git`, to such a file and a line of it with the query. */
  predicate IsFound(d: Node, p: Place, query: string)
    decreases p.way
  {
    && d.Directory? && d.readable && p.way != [] && p.way[0] < |d.entries|
    && var e := d.entries[p.way[0]];
    if |p.way| == 1 then IsReadable(e.node) && p.line < |e.node.text.value| && Contains(e.node.text.value[p.line], query)
    else e.node.Directory? && e.name != ".git" && IsFound(e.node, Place(p.way[1..], p.line), query)
  }

  /** The path of the file, its names joined by slashes below the path of the root. */
  function PathOf(path: string, d: Node, p: Place, query: string): string
    requires IsFound(d, p, query)
    decreases p.way
  {
    var e := d.entries[p.way[0]];
    var here := path + "/" + e.name;
    if |p.way| == 1 then here else PathOf(here, e.node, Place(p.way[1..], p.line), query)
  }

  function LineAt(d: Node, p: Place, query: string): string
    requires IsFound(d, p, query)
    decreases p.way
  {
    var e := d.entries[p.way[0]];
    if |p.way| == 1 then e.node.text.value[p.line] else LineAt(e.node, Place(p.way[1..], p.line), query)
  }

  const MARKERS := ["authorization:", "api_key=", "apikey=", "password=", "access_token=", "secret_key="]

  /** A line that holds a marker in any case is replaced; of the rest the first 500 characters are shown. */
  ghost predicate Shows(excerpt: string, line: string) {
    if exists i | 0 <= i < |MARKERS| :: Contains(Lower(line), MARKERS[i]) then excerpt == "[REDACTED]"
    else excerpt == if |line| <= 500 then line else line[..500]
  }

  ghost predicate IsMatchAt(m: Match, path: string, d: Node, p: Place, query: string)
    requires IsFound(d, p, query)
  {
    && |m.path| == |PathOf(path, d, p, query)|
    && (forall i | 0 <= i < |m.path| :: m.path[i] == if PathOf(path, d, p, query)[i] == '\\' then '/' else PathOf(path, d, p, query)[i])
    && m.line == p.line + 1
    && Shows(m.excerpt, LineAt(d, p, query))
  }

  /** In each directory files come first, from the first to the last, then subdirectories from the last to the first. */
  predicate Precedes(p: Place, q: Place)
    decreases p.way
  {
    if p.way == [] || q.way == [] then false
    else if |p.way| == 1 && |q.way| == 1 then p.way[0] < q.way[0] || (p.way[0] == q.way[0] && p.line < q.line)
    else if |p.way| == 1 || |q.way| == 1 then |p.way| == 1
    else p.way[0] > q.way[0] || (p.way[0] == q.way[0] && Precedes(Place(p.way[1..], p.line), Place(q.way[1..], q.line)))
  }

  // --------------------------------------------------------------------------- places beside events

  ghost predicate IsEventAt(e: Event, path: string, d: Node, p: Place, query: string) {
    e.Hit? ==>
      && IsFound(d, p, query) && IsMatchAt(e.found, path, d, p, query)
      && e.cost == ByteLength(PathOf(path, d, p, query)) + ByteLength(e.found.excerpt) + 32
  }

  ghost predicate InOrder(events: seq<Event>, places: seq<Place>)
    requires |places| == |events|
  {
    forall k, l | 0 <= k < l < |events| && events[k].Hit? && events[l].Hit? :: Precedes(places[k], places[l])
  }

  ghost predicate Locates(path: string, d: Node, query: string, events: seq<Event>, places: seq<Place>) {
    && |places| == |events|
    && (forall k | 0 <= k < |events| :: IsEventAt(events[k], path, d, places[k], query))
    && InOrder(events, places)
  }

  /** Event `k` is the hit at place `p`. */
  ghost predicate ListsAt(events: seq<Event>, places: seq<Place>, p: Place, k: int) {
    0 <= k < |events| && |places| == |events| && places[k] == p && events[k].Hit?
  }

  ghost predicate Lists(events: seq<Event>, places: seq<Place>, p: Place) {
    exists k :: ListsAt(events, places, p, k)
  }

  // ------------------------------------------------------------------------------------- one line

  lemma MarkersAre(lower: string)
    ensures (exists i | 0 <= i < |MARKERS| :: Contains(lower, MARKERS[i])) <==>
              || Contains(lower, "authorization:") || Contains(lower, "api_key=") || Contains(lower, "apikey=")
              || Contains(lower, "password=") || Contains(lower, "access_token=") || Contains(lower, "secret_key=")
  {
    hide Contains;
    assert MARKERS[0] == "authorization:" && MARKERS[1] == "api_key=" && MARKERS[2] == "apikey=";
    assert MARKERS[3] == "password=" && MARKERS[4] == "access_token=" && MARKERS[5] == "secret_key=";
  }

  lemma ExcerptShows(line: string)
    ensures Shows(Excerpt(line), line)
  {
    MarkersAre(Lower(line));
    hide Contains, Lower;
  }

  /** The lines of a file from `k` on that hold the query, in order. */
  function LinesWith(lines: seq<string>, query: string, k: nat): (at: seq<nat>)
    requires k <= |lines|
    ensures forall m | 0 <= m < |at| :: k <= at[m] < |lines| && Contains(lines[at[m]], query)
    decreases |lines| - k
  {
    if k == |lines| then []
    else (if Contains(lines[k], query) then [k] else []) + LinesWith(lines, query, k + 1)
  }

  lemma {:induction false} LinesIncrease(lines: seq<string>, query: string, k: nat)
    requires k <= |lines|
    ensures forall m, n | 0 <= m < n < |LinesWith(lines, query, k)| :: LinesWith(lines, query, k)[m] < LinesWith(lines, query, k)[n]
    decreases |lines| - k
  {
    if k < |lines| {
      LinesIncrease(lines, query, k + 1);
      hide Contains;
    }
  }

  lemma {:induction false} LinesComplete(lines: seq<string>, query: string, k: nat, l: nat) returns (m: nat)
    requires k <= l < |lines| && Contains(lines[l], query)
    ensures m < |LinesWith(lines, query, k)| && LinesWith(lines, query, k)[m] == l
    decreases |lines| - k
  {
    if k == l {
      m := 0;
    } else {
      m := LinesComplete(lines, query, k + 1, l);
      if Contains(lines[k], query) {
        m := m + 1;
      }
    }
  }

  lemma {:induction false} LinesListed(path: string, lines: seq<string>, query: string, k: nat)
    requires k <= |lines|
    ensures |LineEvents(path, lines, query, k)| == |LinesWith(lines, query, k)|
    ensures forall m | 0 <= m < |LinesWith(lines, query, k)| ::
              LineEvents(path, lines, query, k)[m]
              == HitOf(path, LinesWith(lines, query, k)[m], lines[LinesWith(lines, query, k)[m]])
    decreases |lines| - k
  {
    if k < |lines| {
      LinesListed(path, lines, query, k + 1);
      hide Contains, HitOf;
    }
  }

  // ------------------------------------------------------------------------------- one directory

  /** The places of directory `d`'s own entries from `i` on. */
  ghost predicate IsOwn(p: Place, i: nat) {
    |p.way| == 1 && p.way[0] >= i
  }

  ghost predicate OwnLocated(path: string, d: Node, query: string, i: nat, events: seq<Event>, places: seq<Place>) {
    && Locates(path, d, query, events, places)
    && (forall k | 0 <= k < |events| && events[k].Hit? :: IsOwn(places[k], i))
    && (forall p | IsFound(d, p, query) && IsOwn(p, i) :: Lists(events, places, p))
  }

  const NOWHERE := Place([], 0)

  lemma OwnFound(d: Node, i: nat, line: nat, query: string)
    requires d.Directory? && d.readable && i < |d.entries|
    ensures IsFound(d, Place([i], line), query) <==>
              && IsReadable(d.entries[i].node) && line < |d.entries[i].node.text.value|
              && Contains(d.entries[i].node.text.value[line], query)
    ensures IsFound(d, Place([i], line), query) ==>
              && PathOf("", d, Place([i], line), query) == "" + "/" + d.entries[i].name
              && LineAt(d, Place([i], line), query) == d.entries[i].node.text.value[line]
  {
    hide Contains;
  }

  lemma HitIsMatch(path: string, d: Node, i: nat, line: nat, query: string)
    requires IsFound(d, Place([i], line), query)
    ensures var e := d.entries[i];
            IsEventAt(HitOf(ChildPath(path, e), line, e.node.text.value[line]), path, d, Place([i], line), query)
  {
    ExcerptShows(d.entries[i].node.text.value[line]);
    hide Contains, Excerpt, ByteLength;
  }

  /** What one entry's events tell: hits at this entry only, and all of them. */
  ghost predicate EntryLocated(path: string, d: Node, i: nat, query: string, events: seq<Event>, places: seq<Place>) {
    && Locates(path, d, query, events, places)
    && (forall k | 0 <= k < |events| && events[k].Hit? :: places[k].way == [i])
    && (forall p | IsFound(d, p, query) && p.way == [i] :: Lists(events, places, p))
  }

  lemma FileLocated(path: string, d: Node, i: nat, query: string) returns (places: seq<Place>)
    requires d.Directory? && d.readable && i < |d.entries| && IsSearched(d.entries[i].node)
    ensures EntryLocated(path, d, i, query, EntryEvents(path, d.entries[i], query), places)
  {
    var e := d.entries[i];
    var lines, child := e.node.text.value, ChildPath(path, e);
    var events, at := LineEvents(child, lines, query, 0), LinesWith(lines, query, 0);
    assert events == EntryEvents(path, e, query);
    LinesListed(child, lines, query, 0);
    LinesIncrease(lines, query, 0);
    hide LineEvents, LinesWith, HitOf, Contains, EntryEvents, IsMatchAt, ChildPath;
    places := seq(|at|, k requires 0 <= k < |at| => Place([i], at[k]));
    forall k | 0 <= k < |events|
      ensures IsEventAt(events[k], path, d, places[k], query)
    {
      OwnFound(d, i, at[k], query);
      HitIsMatch(path, d, i, at[k], query);
    }
    forall p | IsFound(d, p, query) && p.way == [i]
      ensures Lists(events, places, p)
    {
      assert p == Place([i], p.line);
      OwnFound(d, i, p.line, query);
      var k := LinesComplete(lines, query, 0, p.line);
      HitIsHit(child, at[k], lines[at[k]]);
      assert ListsAt(events, places, p, k);
    }
  }

  lemma OtherLocated(path: string, d: Node, i: nat, query: string) returns (places: seq<Place>)
    requires d.Directory? && d.readable && i < |d.entries| && !IsSearched(d.entries[i].node)
    ensures EntryLocated(path, d, i, query, EntryEvents(path, d.entries[i], query), places)
  {
    var events := EntryEvents(path, d.entries[i], query);
    places := seq(|events|, _ => NOWHERE);
    assert forall p: Place | p.way == [i] :: !IsFound(d, p, query);
  }

  lemma HitIsHit(path: string, index: nat, line: string)
    ensures HitOf(path, index, line).Hit?
  {
  }

  lemma ListsJoined(a: seq<Event>, b: seq<Event>, pa: seq<Place>, pb: seq<Place>, p: Place)
    requires |pa| == |a| && |pb| == |b| && (Lists(a, pa, p) || Lists(b, pb, p))
    ensures Lists(a + b, pa + pb, p)
  {
    if Lists(a, pa, p) {
      var k :| ListsAt(a, pa, p, k);
      assert ListsAt(a + b, pa + pb, p, k);
    } else {
      var k :| ListsAt(b, pb, p, k);
      assert ListsAt(a + b, pa + pb, p, k + |a|);
    }
  }

  lemma LocatesJoined(path: string, d: Node, query: string, a: seq<Event>, b: seq<Event>, pa: seq<Place>, pb: seq<Place>)
    requires Locates(path, d, query, a, pa) && Locates(path, d, query, b, pb)
    requires forall k, l | 0 <= k < |a| && 0 <= l < |b| && a[k].Hit? && b[l].Hit? :: Precedes(pa[k], pb[l])
    ensures Locates(path, d, query, a + b, pa + pb)
  {
    hide IsEventAt, Precedes;
    var events, places := a + b, pa + pb;
    forall k | 0 <= k < |events|
      ensures IsEventAt(events[k], path, d, places[k], query)
    {
      assert events[k] == (if k < |a| then a[k] else b[k - |a|]) && places[k] == if k < |a| then pa[k] else pb[k - |a|];
    }
    forall k, l | 0 <= k < l < |events| && events[k].Hit? && events[l].Hit?
      ensures Precedes(places[k], places[l])
    {
      assert k >= |a| ==> Precedes(pb[k - |a|], pb[l - |a|]);
    }
  }

  /** The own files of `d` from entry `i` on, in order. */
  lemma {:induction false} OwnListed(path: string, d: Node, i: nat, query: string) returns (places: seq<Place>)
    requires d.Directory? && d.readable && i <= |d.entries|
    ensures OwnLocated(path, d, query, i, OwnEvents(path, d.entries[i..], query), places)
    decreases |d.entries| - i
  {
    if i == |d.entries| {
      places := [];
      assert d.entries[i..] == [];
      assert forall p: Place | IsFound(d, p, query) :: !IsOwn(p, i);
    } else {
      var here;
      if IsSearched(d.entries[i].node) {
        here := FileLocated(path, d, i, query);
      } else {
        here := OtherLocated(path, d, i, query);
      }
      var rest := OwnListed(path, d, i + 1, query);
      FirstEntry(path, d.entries, i, query);
      places := here + rest;
      OwnJoined(path, d, i, query, EntryEvents(path, d.entries[i], query), OwnEvents(path, d.entries[i + 1..], query), here, rest);
    }
  }

  lemma OwnJoined(path: string, d: Node, i: nat, query: string, a: seq<Event>, b: seq<Event>, pa: seq<Place>, pb: seq<Place>)
    requires EntryLocated(path, d, i, query, a, pa) && OwnLocated(path, d, query, i + 1, b, pb)
    ensures OwnLocated(path, d, query, i, a + b, pa + pb)
  {
    hide IsFound, IsEventAt, Lists;
    forall k, l | 0 <= k < |a| && 0 <= l < |b| && a[k].Hit? && b[l].Hit?
      ensures Precedes(pa[k], pb[l])
    {
      assert pa[k].way == [i] && IsOwn(pb[l], i + 1);
    }
    LocatesJoined(path, d, query, a, b, pa, pb);
    forall k | 0 <= k < |a + b| && (a + b)[k].Hit?
      ensures IsOwn((pa + pb)[k], i)
    {
      assert k < |a| ==> pa[k].way == [i];
      assert k >= |a| ==> IsOwn(pb[k - |a|], i + 1);
    }
    forall p | IsFound(d, p, query) && IsOwn(p, i)
      ensures Lists(a + b, pa + pb, p)
    {
      assert p.way == [i] || IsOwn(p, i + 1);
      ListsJoined(a, b, pa, pb, p);
    }
  }

  // ------------------------------------------------------------------------------- subdirectories

  predicate IsBelow(p: Place, i: nat) {
    |p.way| > 1 && p.way[0] >= i
  }

  ghost predicate BelowLocated(path: string, d: Node, query: string, i: nat, events: seq<Event>, places: seq<Place>) {
    && Locates(path, d, query, events, places)
    && (forall k | 0 <= k < |events| && events[k].Hit? :: IsBelow(places[k], i))
    && (forall p | IsFound(d, p, query) && IsBelow(p, i) :: Lists(events, places, p))
  }

  ghost predicate AllLocated(path: string, d: Node, query: string, events: seq<Event>, places: seq<Place>) {
    && Locates(path, d, query, events, places)
    && (forall p | IsFound(d, p, query) :: Lists(events, places, p))
  }

  function Under(i: nat, p: Place): Place {
    Place([i] + p.way, p.line)
  }

  lemma FoundUnder(path: string, d: Node, i: nat, p: Place, query: string)
    requires d.Directory? && d.readable && i < |d.entries| && IsOpen(d.entries[i])
    ensures p.way != [] ==> (IsFound(d, Under(i, p), query) <==> IsFound(d.entries[i].node, p, query))
    ensures IsFound(d.entries[i].node, p, query) ==>
              && PathOf(path, d, Under(i, p), query) == PathOf(ChildPath(path, d.entries[i]), d.entries[i].node, p, query)
              && LineAt(d, Under(i, p), query) == LineAt(d.entries[i].node, p, query)
  {
    assert Under(i, p).way[1..] == p.way;
  }

  lemma EventUnder(path: string, d: Node, i: nat, p: Place, query: string, e: Event)
    requires d.Directory? && d.readable && i < |d.entries| && IsOpen(d.entries[i])
    requires IsEventAt(e, ChildPath(path, d.entries[i]), d.entries[i].node, p, query)
    ensures IsEventAt(e, path, d, Under(i, p), query)
    ensures e.Hit? ==> p.way != []
  {
    FoundUnder(path, d, i, p, query);
    hide Shows, ChildPath, ByteLength;
  }

  lemma SubtreeLocated(path: string, d: Node, i: nat, query: string, events: seq<Event>, sub: seq<Place>) returns (places: seq<Place>)
    requires d.Directory? && d.readable && i < |d.entries| && IsOpen(d.entries[i])
    requires AllLocated(ChildPath(path, d.entries[i]), d.entries[i].node, query, events, sub)
    ensures Locates(path, d, query, events, places)
    ensures forall k | 0 <= k < |events| && events[k].Hit? :: |places[k].way| > 1 && places[k].way[0] == i
    ensures forall p | IsFound(d, p, query) && |p.way| > 1 && p.way[0] == i :: Lists(events, places, p)
  {
    places := seq(|sub|, k requires 0 <= k < |sub| => Under(i, sub[k]));
    hide IsEventAt, IsOpen, ChildPath;
    forall k | 0 <= k < |events|
      ensures IsEventAt(events[k], path, d, places[k], query)
      ensures events[k].Hit? ==> |places[k].way| > 1
    {
      EventUnder(path, d, i, sub[k], query, events[k]);
    }
    forall k, l | 0 <= k < l < |events| && events[k].Hit? && events[l].Hit?
      ensures Precedes(places[k], places[l])
    {
      EventUnder(path, d, i, sub[k], query, events[k]);
      EventUnder(path, d, i, sub[l], query, events[l]);
      PrecedesUnder(i, sub[k], sub[l]);
    }
    forall p | IsFound(d, p, query) && |p.way| > 1 && p.way[0] == i
      ensures Lists(events, places, p)
    {
      var q := Place(p.way[1..], p.line);
      assert Under(i, q) == p;
      FoundUnder(path, d, i, q, query);
      var k :| ListsAt(events, sub, q, k);
      assert ListsAt(events, places, p, k);
    }
  }

  lemma PrecedesUnder(i: nat, p: Place, q: Place)
    requires p.way != [] && q.way != []
    ensures Precedes(Under(i, p), Under(i, q)) <==> Precedes(p, q)
  {
    assert Under(i, p).way[1..] == p.way && Under(i, q).way[1..] == q.way;
  }

  /** The subdirectories of `d` from entry `i` on, the last first. */
  lemma {:induction false} BelowListed(path: string, d: Node, i: nat, query: string) returns (places: seq<Place>)
    requires d.Directory? && d.readable && i <= |d.entries|
    ensures BelowLocated(path, d, query, i, WalkBack(path, d.entries[i..], query), places)
    decreases d, 0, |d.entries| - i
  {
    if i == |d.entries| {
      places := [];
      assert d.entries[i..] == [];
      assert forall p: Place | IsFound(d, p, query) :: !IsBelow(p, i);
    } else {
      places := BelowListed(path, d, i + 1, query);
      FirstEntry(path, d.entries, i, query);
      var e, events := d.entries[i], WalkBack(path, d.entries[i + 1..], query);
      if IsOpen(e) {
        var sub := TreeListed(ChildPath(path, e), e.node, query);
        var below := SubtreeLocated(path, d, i, query, Walk(ChildPath(path, e), e.node, query), sub);
        BelowJoined(path, d, i, query, events, Walk(ChildPath(path, e), e.node, query), places, below);
        places := places + below;
      } else {
        NothingBelow(path, d, i, query, events, places);
      }
    }
  }

  lemma NothingBelow(path: string, d: Node, i: nat, query: string, events: seq<Event>, places: seq<Place>)
    requires d.Directory? && i < |d.entries| && !IsOpen(d.entries[i]) && BelowLocated(path, d, query, i + 1, events, places)
    ensures BelowLocated(path, d, query, i, events, places)
  {
    hide Locates, Lists;
    forall p | IsFound(d, p, query) && IsBelow(p, i)
      ensures IsBelow(p, i + 1)
    {
    }
    assert forall k | 0 <= k < |events| && events[k].Hit? && k < |places| && IsBelow(places[k], i + 1) :: IsBelow(places[k], i);
    SameLength(path, d, query, events, places);
  }

  lemma SameLength(path: string, d: Node, query: string, events: seq<Event>, places: seq<Place>)
    requires Locates(path, d, query, events, places)
    ensures |places| == |events|
  {
  }

  lemma BelowJoined(path: string, d: Node, i: nat, query: string, a: seq<Event>, b: seq<Event>, pa: seq<Place>, pb: seq<Place>)
    requires BelowLocated(path, d, query, i + 1, a, pa) && Locates(path, d, query, b, pb)
    requires forall k | 0 <= k < |b| && b[k].Hit? :: |pb[k].way| > 1 && pb[k].way[0] == i
    requires forall p | IsFound(d, p, query) && |p.way| > 1 && p.way[0] == i :: Lists(b, pb, p)
    ensures BelowLocated(path, d, query, i, a + b, pa + pb)
  {
    hide IsFound, IsEventAt, Lists;
    forall k, l | 0 <= k < |a| && 0 <= l < |b| && a[k].Hit? && b[l].Hit?
      ensures Precedes(pa[k], pb[l])
    {
      assert IsBelow(pa[k], i + 1);
    }
    LocatesJoined(path, d, query, a, b, pa, pb);
    forall k | 0 <= k < |a + b| && (a + b)[k].Hit?
      ensures IsBelow((pa + pb)[k], i)
    {
      assert k < |a| ==> IsBelow(pa[k], i + 1);
    }
    forall p | IsFound(d, p, query) && IsBelow(p, i)
      ensures Lists(a + b, pa + pb, p)
    {
      assert p.way[0] == i || IsBelow(p, i + 1);
      ListsJoined(a, b, pa, pb, p);
    }
  }

  /** The whole walk: its hits are the found places, all of them, in order. */
  lemma {:induction false} TreeListed(path: string, d: Node, query: string) returns (places: seq<Place>)
    requires d.Directory?
    ensures AllLocated(path, d, query, Walk(path, d, query), places)
    decreases d, 1
  {
    if !d.readable {
      places := [NOWHERE];
    } else {
      var own := OwnListed(path, d, 0, query);
      var below := BelowListed(path, d, 0, query);
      assert d.entries[0..] == d.entries;
      places := own + below;
      TreeJoined(path, d, query, OwnEvents(path, d.entries, query), WalkBack(path, d.entries, query), own, below);
    }
  }

  lemma TreeJoined(path: string, d: Node, query: string, a: seq<Event>, b: seq<Event>, pa: seq<Place>, pb: seq<Place>)
    requires OwnLocated(path, d, query, 0, a, pa) && BelowLocated(path, d, query, 0, b, pb)
    ensures AllLocated(path, d, query, a + b, pa + pb)
  {
    hide IsEventAt, Lists;
    forall k, l | 0 <= k < |a| && 0 <= l < |b| && a[k].Hit? && b[l].Hit?
      ensures Precedes(pa[k], pb[l])
    {
      assert IsOwn(pa[k], 0) && IsBelow(pb[l], 0);
    }
    LocatesJoined(path, d, query, a, b, pa, pb);
    forall p | IsFound(d, p, query)
      ensures Lists(a + b, pa + pb, p)
    {
      assert IsOwn(p, 0) || IsBelow(p, 0);
      ListsJoined(a, b, pa, pb, p);
    }
  }

  // --------------------------------------------------------------------------------- the answer

  /** Every answered match is a found line, with its path, number and excerpt, and the matches come in order. */
  ghost predicate IsSound(matches: seq<Match>, path: string, root: Node, places: seq<Place>, query: string) {
    && |places| == |matches|
    && (forall m | 0 <= m < |matches| :: IsFound(root, places[m], query) && IsMatchAt(matches[m], path, root, places[m], query))
    && (forall m, n | 0 <= m < n < |matches| :: Precedes(places[m], places[n]))
  }

  lemma PrefixIsSound(matches: seq<Match>, path: string, root: Node, query: string, events: seq<Event>, all: seq<Place>)
    requires Locates(path, root, query, events, all) && |matches| <= |events|
    requires forall m | 0 <= m < |matches| :: events[m].Hit? && matches[m] == events[m].found
    ensures IsSound(matches, path, root, all[..|matches|], query)
  {
    hide IsFound, IsMatchAt, Precedes;
    forall m | 0 <= m < |matches|
      ensures IsFound(root, all[m], query) && IsMatchAt(matches[m], path, root, all[m], query)
    {
      assert IsEventAt(events[m], path, root, all[m], query);
    }
  }

  /** On every tree the search answers, each match is a found line and they come in order. */
  lemma {:induction false} AnswersAreFound(path: string, root: Node, query: string, maxResults: nat, maxBytes: nat) returns (places: seq<Place>)
    requires IsQuery(query, maxResults, maxBytes) && root.Directory? && Found(path, root, query, maxResults, maxBytes).Ok?
    ensures IsSound(Found(path, root, query, maxResults, maxBytes).value, path, root, places, query)
  {
    var events := Walk(path, root, query);
    var all := TreeListed(path, root, query);
    SearchIsLongestPrefix(path, root, query, maxResults, maxBytes);
    hide Walk, Found, Take, Locates, IsSound;
    var matches := Found(path, root, query, maxResults, maxBytes).value;
    assert |matches| <= Calm(events);
    places := all[..|matches|];
    PrefixIsSound(matches, path, root, query, events, all);
  }

  lemma {:induction false} NeverBeforeItself(p: Place)
    ensures !Precedes(p, p)
    decreases p.way
  {
    if p.way != [] {
      NeverBeforeItself(Place(p.way[1..], p.line));
    }
  }

  /** The bytes that the first `n` places take: path, excerpt and 32 each. */
  function Bytes(path: string, root: Node, places: seq<Place>, query: string, n: nat): nat
    requires n <= |places| && forall k | 0 <= k < n :: IsFound(root, places[k], query)
  {
    if n == 0 then 0
    else
      var p := places[n - 1];
      Bytes(path, root, places, query, n - 1)
      + ByteLength(PathOf(path, root, p, query)) + ByteLength(Excerpt(LineAt(root, p, query))) + 32
  }

  lemma ShowsOne(a: string, b: string, line: string)
    requires Shows(a, line) && Shows(b, line)
    ensures a == b
  {
    hide Contains, Lower;
  }

  lemma EventCost(path: string, root: Node, query: string, e: Event, p: Place)
    requires e.Hit? && IsEventAt(e, path, root, p, query)
    ensures IsFound(root, p, query)
    ensures e.cost == ByteLength(PathOf(path, root, p, query)) + ByteLength(Excerpt(LineAt(root, p, query))) + 32
  {
    hide ByteLength, Excerpt, PathOf, LineAt, IsFound, Shows;
    ExcerptShows(LineAt(root, p, query));
    ShowsOne(e.found.excerpt, Excerpt(LineAt(root, p, query)), LineAt(root, p, query));
  }

  lemma {:induction false} CostIsBytes(path: string, root: Node, query: string, events: seq<Event>, places: seq<Place>, n: nat)
    requires Locates(path, root, query, events, places) && n <= |events| && forall k | 0 <= k < n :: events[k].Hit?
    ensures forall k | 0 <= k < n :: IsFound(root, places[k], query)
    ensures Cost(events, n) == Bytes(path, root, places, query, n)
  {
    hide ByteLength, Excerpt, PathOf, LineAt, IsFound, IsEventAt, InOrder;
    if n > 0 {
      CostIsBytes(path, root, query, events, places, n - 1);
      EventCost(path, root, query, events[n - 1], places[n - 1]);
    }
  }

  /** The listing of a tree: every found place once, in order. */
  ghost predicate IsListing(root: Node, places: seq<Place>, query: string) {
    && (forall p :: p in places <==> IsFound(root, p, query))
    && (forall m, n | 0 <= m < n < |places| :: Precedes(places[m], places[n]) && places[m] != places[n])
  }

  ghost predicate Affords(path: string, root: Node, places: seq<Place>, query: string, n: nat, maxResults: nat, maxBytes: nat)
    requires n <= |places| && forall k | 0 <= k < n :: IsFound(root, places[k], query)
  {
    n <= maxResults && Bytes(path, root, places, query, n) <= maxBytes
  }

  lemma HitsAreListing(path: string, root: Node, query: string, events: seq<Event>, places: seq<Place>)
    requires AllLocated(path, root, query, events, places) && forall k | 0 <= k < |events| :: events[k].Hit?
    ensures IsListing(root, places, query)
    ensures forall k | 0 <= k < |places| :: IsFound(root, places[k], query)
  {
    hide IsFound, Precedes, IsMatchAt;
    forall k | 0 <= k < |places|
      ensures IsFound(root, places[k], query)
    {
      assert IsEventAt(events[k], path, root, places[k], query);
    }
    forall p | IsFound(root, p, query)
      ensures p in places
    {
      var k :| ListsAt(events, places, p, k);
      assert places[k] == p;
    }
    forall m, n | 0 <= m < n < |places|
      ensures Precedes(places[m], places[n]) && places[m] != places[n]
    {
      NeverBeforeItself(places[m]);
    }
  }

  /** The longest affordable run of events, all of them hits, is the longest affordable beginning of their places. */
  lemma LongestOfListing(path: string, root: Node, query: string, events: seq<Event>, places: seq<Place>, matches: seq<Match>,
                         maxResults: nat, maxBytes: nat)
    requires Locates(path, root, query, events, places) && Calm(events) == |events|
    requires forall k | 0 <= k < |places| :: IsFound(root, places[k], query)
    requires IsLongest(events, maxResults, maxBytes, Ok(matches))
    ensures |matches| <= |places| && IsSound(matches, path, root, places[..|matches|], query)
    ensures Affords(path, root, places, query, |matches|, maxResults, maxBytes)
    ensures forall n: nat | |matches| < n <= |places| :: !Affords(path, root, places, query, n, maxResults, maxBytes)
  {
    hide IsFound, IsSound, Fits, Affords;
    PrefixIsSound(matches, path, root, query, events, places);
    forall n: nat | n <= |places|
      ensures Fits(events, n, maxResults, maxBytes) <==> Affords(path, root, places, query, n, maxResults, maxBytes)
    {
      AffordsIsFits(path, root, query, events, places, n, maxResults, maxBytes);
    }
    hide Locates;
  }

  lemma AffordsIsFits(path: string, root: Node, query: string, events: seq<Event>, places: seq<Place>, n: nat, maxResults: nat,
                      maxBytes: nat)
    requires Locates(path, root, query, events, places) && n <= |places|
    requires (forall k | 0 <= k < n :: IsFound(root, places[k], query)) && forall k | 0 <= k < n :: events[k].Hit?
    ensures Fits(events, n, maxResults, maxBytes) <==> Affords(path, root, places, query, n, maxResults, maxBytes)
  {
    CostIsBytes(path, root, query, events, places, n);
    hide Cost, Bytes, Locates, IsFound;
  }

  /**
   * On a readable tree without links the answer is the longest beginning of the listing of all found lines that fits both
   * budgets: within them, every found line is answered exactly once, and no other.
   */
  lemma {:induction false} QuietSearchAnswersAll(path: string, root: Node, query: string, maxResults: nat, maxBytes: nat)
    returns (places: seq<Place>)
    requires IsQuery(query, maxResults, maxBytes) && root.Directory? && Quiet(root)
    ensures IsListing(root, places, query)
    ensures forall k | 0 <= k < |places| :: IsFound(root, places[k], query)
    ensures var r := Found(path, root, query, maxResults, maxBytes);
            && r.Ok? && |r.value| <= |places|
            && IsSound(r.value, path, root, places[..|r.value|], query)
            && Affords(path, root, places, query, |r.value|, maxResults, maxBytes)
            && forall n: nat | |r.value| < n <= |places| :: !Affords(path, root, places, query, n, maxResults, maxBytes)
  {
    var events := Walk(path, root, query);
    places := TreeListed(path, root, query);
    WalkIsHits(path, root, query);
    assert forall k | 0 <= k < |events| :: events[k] in events;
    HitsAreListing(path, root, query, events, places);
    QuietTreesAnswer(path, root, query, maxResults, maxBytes);
    SearchIsLongestPrefix(path, root, query, maxResults, maxBytes);
    hide Walk, Found, Take, Locates, IsSound, IsListing, IsLongest, Affords;
    LongestOfListing(path, root, query, events, places, Found(path, root, query, maxResults, maxBytes).value, maxResults, maxBytes);
  }

  /** When a search is turned down, and why, before anything is read. */
  lemma SearchRefusesExactly(path: string, root: Node, query: string, maxResults: nat, maxBytes: nat)
    ensures var r := Found(path, root, query, maxResults, maxBytes);
            && (r == Err(QueryInvalid) <==>
                  AllWhitespace(query) || ByteLength(query) > 512 || maxResults == 0 || maxResults > 1000 || maxBytes == 0)
            && (r == Err(NotDirectory) <==> r != Err(QueryInvalid) && !root.Directory?)
  {
    BlankExactly(query);
    if IsQuery(query, maxResults, maxBytes) && root.Directory? {
      SearchIsLongestPrefix(path, root, query, maxResults, maxBytes);
      FaultsAreOfTheTree(path, root, query);
      hide Walk, Found;
    }
    hide IsBlank, ByteLength;
  }

  /** The walk itself only fails on a link or on something unreadable. */
  lemma {:induction false} FaultsAreOfTheTree(path: string, d: Node, query: string)
    requires d.Directory?
    ensures forall e | e in Walk(path, d, query) && e.Fault? :: e.error == SymlinkFound || e.error == IoFailed
    decreases d, 1
  {
    if d.readable {
      OwnFaults(path, d.entries, query);
      BelowFaults(path, d.entries, query);
    }
  }

  lemma {:induction false} OwnFaults(path: string, entries: seq<Entry>, query: string)
    ensures forall e | e in OwnEvents(path, entries, query) && e.Fault? :: e.error == SymlinkFound || e.error == IoFailed
  {
    if entries != [] {
      if IsSearched(entries[0].node) {
        LinesAreHits(ChildPath(path, entries[0]), entries[0].node.text.value, query, 0);
      }
      OwnFaults(path, entries[1..], query);
    }
  }

  lemma {:induction false} BelowFaults(path: string, entries: seq<Entry>, query: string)
    ensures forall e | e in WalkBack(path, entries, query) && e.Fault? :: e.error == SymlinkFound || e.error == IoFailed
    decreases entries, 0
  {
    if entries != [] {
      BelowFaults(path, entries[1..], query);
      if IsOpen(entries[0]) {
        FaultsAreOfTheTree(ChildPath(path, entries[0]), entries[0].node, query);
      }
    }
  }
}
