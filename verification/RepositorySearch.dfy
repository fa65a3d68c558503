/** The explicit-stack text search over a workspace (`search`, agents/node/src/harness_tools.rs). */
module RepositorySearch {
  import opened Wrappers
  import opened Text

  const MAX_FILE_BYTES: nat := 2 * 1024 * 1024
  const MAX_RESULTS: nat := 1000

  /** `text` is the lines of a file, or nothing when it holds a NUL or is not UTF-8. Entries are in sorted order. */
  datatype Node =
    | File(size: nat, text: Option<seq<string>>)
    | Directory(readable: bool, entries: seq<Entry>)
    | Link
    | Special
    | Unreadable

  datatype Entry = Entry(name: string, node: Node)

  datatype Match = Match(path: string, line: nat, excerpt: string)

  datatype SearchError = QueryInvalid | NotDirectory | SymlinkFound | IoFailed

  /** What the walk meets, in order: a matching line with its cost in bytes, or something that ends the search. */
  datatype Event = Hit(found: Match, cost: nat) | Fault(error: SearchError)

  // ------------------------------------------------------------------------------------ one file

  predicate IsSensitive(line: string) {
    var lower := Lower(line);
    || Contains(lower, "authorization:") || Contains(lower, "api_key=") || Contains(lower, "apikey=")
    || Contains(lower, "password=") || Contains(lower, "access_token=") || Contains(lower, "secret_key=")
  }

  function Excerpt(line: string): string {
    var shown := if IsSensitive(line) then "[REDACTED]" else line;
    if |shown| > 500 then shown[..500] else shown
  }

  function SlashPath(path: string): string {
    seq(|path|, i requires 0 <= i < |path| => if path[i] == '\\' then '/' else path[i])
  }

  function HitOf(path: string, index: nat, line: string): Event {
    Hit(Match(SlashPath(path), index + 1, Excerpt(line)), ByteLength(path) + ByteLength(Excerpt(line)) + 32)
  }

  /** The hits from line `k` on. */
  function LineEvents(path: string, lines: seq<string>, query: string, k: nat): seq<Event>
    requires k <= |lines|
    decreases |lines| - k
  {
    if k == |lines| then []
    else (if Contains(lines[k], query) then [HitOf(path, k, lines[k])] else []) + LineEvents(path, lines, query, k + 1)
  }

  predicate IsSearched(node: Node) {
    node.File? && node.size <= MAX_FILE_BYTES && node.text.Some?
  }

  function ChildPath(path: string, e: Entry): string {
    path + "/" + e.name
  }

  predicate IsOpen(e: Entry) {
    e.node.Directory? && e.name != ".git"
  }

  function EntryEvents(path: string, e: Entry, query: string): seq<Event> {
    match e.node
    case Link => [Fault(SymlinkFound)]
    case Unreadable => [Fault(IoFailed)]
    case File(_, _) => if IsSearched(e.node) then LineEvents(ChildPath(path, e), e.node.text.value, query, 0) else []
    case _ => []
  }

  // --------------------------------------------------------------------------------- the whole tree

  /** A directory's own entries in order. */
  function OwnEvents(path: string, entries: seq<Entry>, query: string): seq<Event> {
    if entries == [] then [] else EntryEvents(path, entries[0], query) + OwnEvents(path, entries[1..], query)
  }

  /** Recursively: a directory's own entries, then its subdirectories from the last to the first. */
  function Walk(path: string, d: Node, query: string): seq<Event>
    requires d.Directory?
    decreases d, 1
  {
    if !d.readable then [Fault(IoFailed)]
    else OwnEvents(path, d.entries, query) + WalkBack(path, d.entries, query)
  }

  function WalkBack(path: string, entries: seq<Entry>, query: string): seq<Event>
    decreases entries, 0
  {
    if entries == [] then []
    else
      var first := entries[0];
      WalkBack(path, entries[1..], query) + if IsOpen(first) then Walk(ChildPath(path, first), first.node, query) else []
  }

  /** Matches are taken until one exceeds a budget; a fault met before that ends the search with its error. */
  function Take(events: seq<Event>, maxResults: nat, maxBytes: nat, taken: seq<Match>, bytes: nat): Result<seq<Match>, SearchError>
    decreases |events|
  {
    if events == [] then Ok(taken)
    else match events[0]
      case Fault(error) => Err(error)
      case Hit(found, cost) =>
        if |taken| >= maxResults || bytes + cost > maxBytes then Ok(taken)
        else Take(events[1..], maxResults, maxBytes, taken + [found], bytes + cost)
  }

  predicate IsQuery(query: string, maxResults: nat, maxBytes: nat) {
    !IsBlank(query) && ByteLength(query) <= 512 && 0 < maxResults <= MAX_RESULTS && maxBytes > 0
  }

  function Found(path: string, root: Node, query: string, maxResults: nat, maxBytes: nat): Result<seq<Match>, SearchError> {
    if !IsQuery(query, maxResults, maxBytes) then Err(QueryInvalid)
    else if !root.Directory? then Err(NotDirectory)
    else Take(Walk(path, root, query), maxResults, maxBytes, [], 0)
  }

  // ------------------------------------------------------------------------------------ the stack

  datatype Pending = Pending(path: string, directory: Node)

  ghost predicate AllDirectories(stack: seq<Pending>) {
    forall i | 0 <= i < |stack| :: stack[i].directory.Directory?
  }

  /** What is left to meet when the stack is popped from its end. */
  function StackEvents(stack: seq<Pending>, query: string): seq<Event>
    requires AllDirectories(stack)
  {
    if stack == [] then []
    else
      var n := |stack| - 1;
      Walk(stack[n].path, stack[n].directory, query) + StackEvents(stack[..n], query)
  }

  function Weight(node: Node): nat
    decreases node, 1
  {
    if node.Directory? then 1 + Weights(node.entries) else 0
  }

  function Weights(entries: seq<Entry>): nat
    decreases entries, 0
  {
    if entries == [] then 0 else Weight(entries[0].node) + Weights(entries[1..])
  }

  function StackWeight(stack: seq<Pending>): nat {
    if stack == [] then 0 else StackWeight(stack[..|stack| - 1]) + Weight(stack[|stack| - 1].directory)
  }

  lemma PushAddsEvents(stack: seq<Pending>, top: Pending, query: string)
    requires AllDirectories(stack) && top.directory.Directory?
    ensures AllDirectories(stack + [top])
    ensures StackEvents(stack + [top], query) == Walk(top.path, top.directory, query) + StackEvents(stack, query)
    ensures StackWeight(stack + [top]) == StackWeight(stack) + Weight(top.directory)
  {
    assert (stack + [top])[..|stack|] == stack;
  }

  /** What remains in the middle of a directory: its later entries, their subdirectories, then the stack. */
  function RestOfDirectory(path: string, entries: seq<Entry>, i: nat, stack: seq<Pending>, query: string): seq<Event>
    requires i <= |entries| && AllDirectories(stack)
  {
    OwnEvents(path, entries[i..], query) + (WalkBack(path, entries[i..], query) + StackEvents(stack, query))
  }

  lemma FirstEntry(path: string, entries: seq<Entry>, i: nat, query: string)
    requires i < |entries|
    ensures OwnEvents(path, entries[i..], query) == EntryEvents(path, entries[i], query) + OwnEvents(path, entries[i + 1..], query)
    ensures !IsOpen(entries[i]) ==> WalkBack(path, entries[i..], query) == WalkBack(path, entries[i + 1..], query)
    ensures IsOpen(entries[i]) ==>
              && EntryEvents(path, entries[i], query) == []
              && WalkBack(path, entries[i..], query)
              == WalkBack(path, entries[i + 1..], query) + Walk(ChildPath(path, entries[i]), entries[i].node, query)
  {
    assert entries[i..][1..] == entries[i + 1..] && entries[i..][0] == entries[i];
    hide LineEvents, ChildPath, Walk;
    if !IsOpen(entries[i]) {
      assert WalkBack(path, entries[i + 1..], query) + [] == WalkBack(path, entries[i + 1..], query);
    }
  }

  lemma NextEntry(path: string, entries: seq<Entry>, i: nat, stack: seq<Pending>, query: string)
    requires i < |entries| && AllDirectories(stack) && !IsOpen(entries[i])
    ensures RestOfDirectory(path, entries, i, stack, query)
         == EntryEvents(path, entries[i], query) + RestOfDirectory(path, entries, i + 1, stack, query)
  {
    hide OwnEvents, WalkBack, EntryEvents, StackEvents, IsOpen;
    FirstEntry(path, entries, i, query);
    var first, own := EntryEvents(path, entries[i], query), OwnEvents(path, entries[i + 1..], query);
    Associates(first, own, WalkBack(path, entries[i + 1..], query) + StackEvents(stack, query));
  }

  lemma Associates(a: seq<Event>, b: seq<Event>, c: seq<Event>)
    ensures (a + b) + c == a + (b + c) && [] + a == a
  {
  }

  lemma NextDirectory(path: string, entries: seq<Entry>, i: nat, stack: seq<Pending>, query: string)
    requires i < |entries| && AllDirectories(stack) && IsOpen(entries[i])
    ensures AllDirectories(stack + [Pending(ChildPath(path, entries[i]), entries[i].node)])
    ensures RestOfDirectory(path, entries, i, stack, query)
         == RestOfDirectory(path, entries, i + 1, stack + [Pending(ChildPath(path, entries[i]), entries[i].node)], query)
  {
    var top := Pending(ChildPath(path, entries[i]), entries[i].node);
    PushAddsEvents(stack, top, query);
    hide OwnEvents, WalkBack, EntryEvents, StackEvents, Walk, ChildPath, AllDirectories;
    FirstEntry(path, entries, i, query);
    var own, back := OwnEvents(path, entries[i + 1..], query), WalkBack(path, entries[i + 1..], query);
    Associates(own, back, []);
    Associates(back, Walk(top.path, top.directory, query), StackEvents(stack, query));
  }

  lemma StackOfOne(top: Pending, query: string)
    requires top.directory.Directory?
    ensures AllDirectories([top]) && StackEvents([top], query) == Walk(top.path, top.directory, query)
  {
    var none: seq<Pending> := [];
    PushAddsEvents(none, top, query);
    assert none + [top] == [top];
    assert Walk(top.path, top.directory, query) + [] == Walk(top.path, top.directory, query);
  }

  lemma PopDirectory(stack: seq<Pending>, query: string)
    requires AllDirectories(stack) && stack != []
    ensures StackEvents(stack, query)
         == Walk(stack[|stack| - 1].path, stack[|stack| - 1].directory, query) + StackEvents(stack[..|stack| - 1], query)
    ensures StackWeight(stack) == StackWeight(stack[..|stack| - 1]) + 1 + Weights(stack[|stack| - 1].directory.entries)
  {
  }

  lemma NextWeight(entries: seq<Entry>, i: nat)
    requires i < |entries|
    ensures Weights(entries[i..]) == Weight(entries[i].node) + Weights(entries[i + 1..])
  {
    assert entries[i..][1..] == entries[i + 1..];
  }

  lemma TakeFault(top: Pending, stack: seq<Pending>, query: string, maxResults: nat, maxBytes: nat, taken: seq<Match>, bytes: nat)
    requires AllDirectories(stack) && top.directory.Directory? && !top.directory.readable
    ensures Take(Walk(top.path, top.directory, query) + StackEvents(stack, query), maxResults, maxBytes, taken, bytes) == Err(IoFailed)
  {
  }

  lemma TakeNothing(stack: seq<Pending>, query: string, maxResults: nat, maxBytes: nat, taken: seq<Match>, bytes: nat)
    requires AllDirectories(stack) && |stack| == 0
    ensures Take(StackEvents(stack, query), maxResults, maxBytes, taken, bytes) == Ok(taken)
  {
  }

  /** An entry that is not a directory to visit: its lines, its fault, or nothing. */
  lemma EntryEventsAre(path: string, e: Entry, query: string, rest: seq<Event>, maxResults: nat, maxBytes: nat, taken: seq<Match>, bytes: nat)
    ensures e.node.Link? ==> Take(EntryEvents(path, e, query) + rest, maxResults, maxBytes, taken, bytes) == Err(SymlinkFound)
    ensures e.node.Unreadable? ==> Take(EntryEvents(path, e, query) + rest, maxResults, maxBytes, taken, bytes) == Err(IoFailed)
    ensures IsSearched(e.node) ==> EntryEvents(path, e, query) == LineEvents(ChildPath(path, e), e.node.text.value, query, 0)
    ensures !e.node.Link? && !e.node.Unreadable? && !IsSearched(e.node) ==> EntryEvents(path, e, query) + rest == rest
  {
    assert [] + rest == rest;
  }

  /** Search as the node runs it: pops directories, scans their entries and pushes their subdirectories. */
  method Search(path: string, root: Node, query: string, maxResults: nat, maxBytes: nat) returns (r: Result<seq<Match>, SearchError>)
    ensures r == Found(path, root, query, maxResults, maxBytes)
  {
    if IsBlank(query) || ByteLength(query) > 512 || maxResults == 0 || maxResults > MAX_RESULTS || maxBytes == 0 {
      return Err(QueryInvalid);
    }
    if !root.Directory? {
      return Err(NotDirectory);
    }
    hide IsBlank, ByteLength, Walk, Take, StackEvents, StackWeight, Weights;
    var pending, matches: seq<Match>, outputBytes := [Pending(path, root)], [], 0;
    ghost var all := Walk(path, root, query);
    StackOfOne(Pending(path, root), query);
    while pending != []
      invariant AllDirectories(pending)
      invariant Take(all, maxResults, maxBytes, [], 0) == Take(StackEvents(pending, query), maxResults, maxBytes, matches, outputBytes)
      decreases StackWeight(pending)
    {
      PopDirectory(pending, query);
      var top := pending[|pending| - 1];
      pending := pending[..|pending| - 1];
      if !top.directory.readable {
        TakeFault(top, pending, query, maxResults, maxBytes, matches, outputBytes);
        return Err(IoFailed);
      }
      var ended;
      pending, matches, outputBytes, ended := ScanDirectory(top, query, maxResults, maxBytes, pending, matches, outputBytes);
      if ended.Some? {
        return ended.value;
      }
    }
    TakeNothing(pending, query, maxResults, maxBytes, matches, outputBytes);
    return Ok(matches);
  }

  /** The entries of one directory: files are scanned, open subdirectories go on the stack; some entries end the search. */
  method ScanDirectory(top: Pending, query: string, maxResults: nat, maxBytes: nat, stack: seq<Pending>, before: seq<Match>, spent: nat)
    returns (pending: seq<Pending>, matches: seq<Match>, outputBytes: nat, ended: Option<Result<seq<Match>, SearchError>>)
    requires AllDirectories(stack) && top.directory.Directory? && top.directory.readable
    ensures AllDirectories(pending)
    ensures Take(Walk(top.path, top.directory, query) + StackEvents(stack, query), maxResults, maxBytes, before, spent)
         == if ended.Some? then ended.value else Take(StackEvents(pending, query), maxResults, maxBytes, matches, outputBytes)
    ensures StackWeight(pending) <= StackWeight(stack) + Weights(top.directory.entries)
  {
    hide IsBlank, ByteLength, Excerpt, SlashPath, LineEvents, OwnEvents, WalkBack, Contains, Walk, Take, RestOfDirectory,
         EntryEvents, StackEvents, StackWeight, Weights, Weight, ChildPath, HitOf;
    pending, matches, outputBytes, ended := stack, before, spent, None;
    var entries := top.directory.entries;
    StartDirectory(top, stack, query);
    ghost var all := RestOfDirectory(top.path, entries, 0, stack, query);
    for i := 0 to |entries|
      invariant AllDirectories(pending)
      invariant Take(all, maxResults, maxBytes, before, spent)
             == Take(RestOfDirectory(top.path, entries, i, pending, query), maxResults, maxBytes, matches, outputBytes)
      invariant StackWeight(pending) + Weights(entries[i..]) <= StackWeight(stack) + Weights(entries)
    {
      var entry := entries[i];
      var child := ChildPath(top.path, entry);
      NextWeight(entries, i);
      if IsOpen(entry) {
        NextDirectory(top.path, entries, i, pending, query);
        PushAddsEvents(pending, Pending(child, entry.node), query);
        pending := pending + [Pending(child, entry.node)];
        continue;
      }
      NextEntry(top.path, entries, i, pending, query);
      ghost var rest := RestOfDirectory(top.path, entries, i + 1, pending, query);
      EntryEventsAre(top.path, entry, query, rest, maxResults, maxBytes, matches, outputBytes);
      if entry.node.Link? {
        ended := Some(Err(SymlinkFound));
        return;
      }
      if entry.node.Unreadable? {
        ended := Some(Err(IoFailed));
        return;
      }
      if IsSearched(entry.node) {
        var full;
        matches, outputBytes, full := ScanLines(child, entry.node.text.value, query, maxResults, maxBytes, matches, outputBytes, rest);
        if full {
          ended := Some(Ok(matches));
          return;
        }
      }
    }
    EndDirectory(top.path, entries, pending, query);
  }

  lemma StartDirectory(top: Pending, stack: seq<Pending>, query: string)
    requires AllDirectories(stack) && top.directory.Directory? && top.directory.readable
    ensures Weights(top.directory.entries[0..]) == Weights(top.directory.entries)
    ensures RestOfDirectory(top.path, top.directory.entries, 0, stack, query)
         == Walk(top.path, top.directory, query) + StackEvents(stack, query)
  {
    var es := top.directory.entries;
    assert es[0..] == es;
    assert (OwnEvents(top.path, es, query) + WalkBack(top.path, es, query)) + StackEvents(stack, query)
        == OwnEvents(top.path, es, query) + (WalkBack(top.path, es, query) + StackEvents(stack, query));
  }

  lemma EndDirectory(path: string, entries: seq<Entry>, stack: seq<Pending>, query: string)
    requires AllDirectories(stack)
    ensures RestOfDirectory(path, entries, |entries|, stack, query) == StackEvents(stack, query)
  {
    var none := entries[|entries|..];
    assert |none| == 0;
    assert OwnEvents(path, none, query) == [] && WalkBack(path, none, query) == [];
    assert [] + ([] + StackEvents(stack, query)) == StackEvents(stack, query);
  }

  /** One file's lines; `rest` is what would follow. */
  method ScanLines(path: string, lines: seq<string>, query: string, maxResults: nat, maxBytes: nat, before: seq<Match>, spent: nat,
                   ghost rest: seq<Event>)
    returns (matches: seq<Match>, outputBytes: nat, full: bool)
    ensures Take(LineEvents(path, lines, query, 0) + rest, maxResults, maxBytes, before, spent)
         == if full then Ok(matches) else Take(rest, maxResults, maxBytes, matches, outputBytes)
  {
    matches, outputBytes, full := before, spent, false;
    for index := 0 to |lines|
      invariant Take(LineEvents(path, lines, query, 0) + rest, maxResults, maxBytes, before, spent)
             == Take(LineEvents(path, lines, query, index) + rest, maxResults, maxBytes, matches, outputBytes)
    {
      ghost var now, next := LineEvents(path, lines, query, index) + rest, LineEvents(path, lines, query, index + 1) + rest;
      if !Contains(lines[index], query) {
        assert now == next;
        continue;
      }
      var excerpt := Excerpt(lines[index]);
      var size := ByteLength(path) + ByteLength(excerpt) + 32;
      assert now[0] == HitOf(path, index, lines[index]) && now[1..] == next;
      if |matches| >= maxResults || outputBytes + size > maxBytes {
        full := true;
        return;
      }
      outputBytes := outputBytes + size;
      matches := matches + [Match(SlashPath(path), index + 1, excerpt)];
    }
    assert LineEvents(path, lines, query, |lines|) + rest == rest;
  }

  // ------------------------------------------------------------------------------ what is taken

  /** The events up to the first fault. */
  function Calm(events: seq<Event>): (k: nat)
    ensures k <= |events|
    ensures forall i | 0 <= i < k :: events[i].Hit?
    ensures k < |events| ==> events[k].Fault?
  {
    if events == [] || events[0].Fault? then 0 else 1 + Calm(events[1..])
  }

  function Cost(events: seq<Event>, n: nat): nat
    requires n <= |events|
  {
    if n == 0 then 0 else Cost(events, n - 1) + if events[n - 1].Hit? then events[n - 1].cost else 0
  }

  /** The first `n` events, all hits, are within both budgets. */
  predicate Fits(events: seq<Event>, n: nat, maxResults: nat, maxBytes: nat)
    requires n <= |events|
  {
    n <= maxResults && Cost(events, n) <= maxBytes
  }

  lemma {:induction false} CostGrows(events: seq<Event>, m: nat, n: nat)
    requires m <= n <= |events|
    ensures Cost(events, m) <= Cost(events, n)
  {
    if m < n {
      CostGrows(events, m, n - 1);
    }
  }

  lemma {:induction false} TakeFrom(events: seq<Event>, k: nat, maxResults: nat, maxBytes: nat, taken: seq<Match>)
    requires k <= Calm(events) && |taken| == k && Fits(events, k, maxResults, maxBytes)
    requires forall i | 0 <= i < k :: taken[i] == events[i].found
    ensures IsLongest(events, maxResults, maxBytes, Take(events[k..], maxResults, maxBytes, taken, Cost(events, k)))
    decreases |events| - k
  {
    if k < |events| && events[k].Hit? && Fits(events, k + 1, maxResults, maxBytes) {
      assert events[k..][1..] == events[k + 1..];
      TakeFrom(events, k + 1, maxResults, maxBytes, taken + [events[k].found]);
    } else if k < |events| && events[k].Hit? {
      forall n | k < n <= Calm(events)
        ensures !Fits(events, n, maxResults, maxBytes)
      {
        CostGrows(events, k + 1, n);
      }
    }
  }

  /**
   * The answer is the longest run of leading matches that fits both budgets. It is an error exactly when a fault comes
   * before any match that does not fit.
   */
  ghost predicate IsLongest(events: seq<Event>, maxResults: nat, maxBytes: nat, r: Result<seq<Match>, SearchError>) {
    var calm := Calm(events);
    if calm < |events| && Fits(events, calm, maxResults, maxBytes) then r == Err(events[calm].error)
    else
      && r.Ok? && |r.value| <= calm && Fits(events, |r.value|, maxResults, maxBytes)
      && (forall i | 0 <= i < |r.value| :: r.value[i] == events[i].found)
      && forall n | |r.value| < n <= calm :: !Fits(events, n, maxResults, maxBytes)
  }

  /** For every tree the explicit stack answers the longest affordable prefix of the recursive walk. */
  lemma SearchIsLongestPrefix(path: string, root: Node, query: string, maxResults: nat, maxBytes: nat)
    requires IsQuery(query, maxResults, maxBytes) && root.Directory?
    ensures IsLongest(Walk(path, root, query), maxResults, maxBytes, Found(path, root, query, maxResults, maxBytes))
  {
    var events := Walk(path, root, query);
    assert events[0..] == events;
    TakeFrom(events, 0, maxResults, maxBytes, []);
  }

  // ------------------------------------------------------------------------ what the walk covers

  predicate Quiet(node: Node)
    decreases node, 1
  {
    match node
    case Directory(readable, entries) => readable && AllQuiet(entries)
    case Link => false
    case Unreadable => false
    case _ => true
  }

  predicate AllQuiet(entries: seq<Entry>)
    decreases entries, 0
  {
    entries != [] ==>
      && (Quiet(entries[0].node) || (entries[0].node.Directory? && entries[0].name == ".git"))
      && AllQuiet(entries[1..])
  }

  lemma {:induction false} LinesAreHits(path: string, lines: seq<string>, query: string, k: nat)
    requires k <= |lines|
    ensures forall e | e in LineEvents(path, lines, query, k) :: e.Hit?
    decreases |lines| - k
  {
    if k < |lines| {
      LinesAreHits(path, lines, query, k + 1);
    }
  }

  lemma {:induction false} OwnAreHits(path: string, entries: seq<Entry>, query: string)
    requires AllQuiet(entries)
    ensures forall e | e in OwnEvents(path, entries, query) :: e.Hit?
  {
    if entries != [] {
      if IsSearched(entries[0].node) {
        LinesAreHits(ChildPath(path, entries[0]), entries[0].node.text.value, query, 0);
      }
      OwnAreHits(path, entries[1..], query);
    }
  }

  lemma {:induction false} WalkIsHits(path: string, d: Node, query: string)
    requires d.Directory? && Quiet(d)
    ensures forall e | e in Walk(path, d, query) :: e.Hit?
    decreases d, 1
  {
    OwnAreHits(path, d.entries, query);
    WalkBackIsHits(path, d.entries, query);
  }

  lemma {:induction false} WalkBackIsHits(path: string, entries: seq<Entry>, query: string)
    requires AllQuiet(entries)
    ensures forall e | e in WalkBack(path, entries, query) :: e.Hit?
    decreases entries, 0
  {
    if entries != [] {
      WalkBackIsHits(path, entries[1..], query);
      if IsOpen(entries[0]) {
        WalkIsHits(ChildPath(path, entries[0]), entries[0].node, query);
      }
    }
  }

  /** On a readable tree without symbolic links every valid search succeeds. */
  lemma QuietTreesAnswer(path: string, root: Node, query: string, maxResults: nat, maxBytes: nat)
    requires IsQuery(query, maxResults, maxBytes) && root.Directory? && Quiet(root)
    ensures Found(path, root, query, maxResults, maxBytes).Ok?
  {
    WalkIsHits(path, root, query);
    SearchIsLongestPrefix(path, root, query, maxResults, maxBytes);
    var events := Walk(path, root, query);
    assert forall i | 0 <= i < |events| :: events[i] in events;
  }
}
