/** From the worker's stream to what the control plane has applied: turn, delta lines, relay and recovery in one. */
module EndToEnd {
  import opened Wrappers
  import opened Text
  import opened NativeStreams
  import opened RemainderAlgebra
  import DeltaLines
  import Encoding
  import NativeTurns
  import Relays
  import TextStreams
  import TurnDelivery

  function Mapped<A, B>(f: A -> B, xs: seq<A>): (ys: seq<B>)
    ensures |ys| == |xs| && forall i | 0 <= i < |xs| :: ys[i] == f(xs[i])
  {
    seq(|xs|, i requires 0 <= i < |xs| => f(xs[i]))
  }

  /** How deltas are written as JSON text and read back. */
  datatype Json = Json(show: Delta -> string, read: string -> Option<Delta>)

  ghost predicate IsJson(json: Json, isJson: string -> bool) {
    forall d :: json.read(json.show(d)) == Some(d) && isJson(json.show(d))
  }

  /**
   * The worker wrote these deltas among diagnostics that do not look like one, up to some point; its launcher reads what
   * there is and feeds it to a relay, and this is where the relay and the control plane stand.
   */
  ghost predicate Delivers(lossy: seq<Encoding.byte> -> string, items: seq<DeltaLines.Item>, deltas: seq<string>, n: nat,
                           feed: Relays.Feed, cuts: seq<nat>, applied: seq<string>) {
    && DeltaLines.IsLossy(lossy) && DeltaLines.HasWholeLines(items) && DeltaLines.KeepsApart(lossy, items)
    && DeltaLines.DeltasOf(items) == deltas && n <= |DeltaLines.Written(items)|
    && feed.pieces == DeltaLines.Scan(lossy, DeltaLines.Written(items)[..n]).deltas
    && Relays.IsCut(feed, cuts) && Relays.InOrder(feed, cuts, applied)
  }

  lemma FeedBegins(lossy: seq<Encoding.byte> -> string, items: seq<DeltaLines.Item>, deltas: seq<string>, n: nat,
                   feed: Relays.Feed, cuts: seq<nat>, applied: seq<string>) returns (c: nat)
    requires Delivers(lossy, items, deltas, n, feed, cuts, applied)
    ensures DeltaLines.BeginsWith(feed.pieces, deltas, c)
    ensures n == |DeltaLines.Written(items)| ==> feed.pieces == deltas
    ensures Relays.IsCut(feed, cuts) && Relays.InOrder(feed, cuts, applied)
  {
    hide DeltaLines.Scan, DeltaLines.Written, DeltaLines.DeltasOf, DeltaLines.KeepsApart, DeltaLines.IsLossy,
      DeltaLines.HasWholeLines, Relays.IsCut, Relays.InOrder;
    c := DeltaLines.CutStreamBegins(lossy, items, n);
  }

  /**
   * At every moment of every run, over any diagnostics, timing and link, and wherever the worker stops, the control plane
   * has applied exactly the first deltas of the turn, each as it was sent, and after them at most a part of the next. When
   * the call indices are contiguous the remainder of the final message then exists, and pushing it restores that message.
   */
  lemma {:induction false} NativeTurnReachesClient(
      shape: string -> NativeTurns.Shape, messages: Option<seq<string>>, first: NativeTurns.Reply, second: NativeTurns.Reply,
      json: Json, lossy: seq<Encoding.byte> -> string, items: seq<DeltaLines.Item>, n: nat, feed: Relays.Feed, cuts: seq<nat>,
      applied: seq<string>) returns (c: nat)
    requires IsJson(json, feed.isJson)
    requires Delivers(lossy, items, Mapped(json.show, NativeTurns.WholeTurn(shape, messages, first, second).sent), n, feed, cuts, applied)
    ensures var t := NativeTurns.WholeTurn(shape, messages, first, second);
            && c <= |applied| <= c + 1 && |applied| <= |t.sent|
            && Mapped(json.read, applied[..c]) == Mapped((d: Delta) => Some(d), t.sent[..c])
            && (|applied| > c ==> applied[c] <= json.show(t.sent[c]))
            && (n == |DeltaLines.Written(items)| ==> c == |applied|)
            && (t.result.Ok? && Contiguous(PushAll(EMPTY_ASSEMBLY, t.sent).to.calls, |t.result.value.message.calls|) ==>
                  TurnDelivery.Recovers(t.sent[..c], t.sent, t.result.value.message))
  {
    hide NativeTurns.WholeTurn, PushAll, TurnDelivery.Recovers, Relays.IsCut, Relays.InOrder, Delivers, DeltaLines.Written, Contiguous;
    var t := NativeTurns.WholeTurn(shape, messages, first, second);
    var shown := Mapped(json.show, t.sent);
    var whole := FeedBegins(lossy, items, shown, n, feed, cuts, applied);
    assert forall i | 0 <= i < whole :: feed.pieces[i] == feed.pieces[..whole][i] == shown[..whole][i] == shown[i];
    Relays.JsonNeverMerged(feed, cuts, applied);
    c := if n == |DeltaLines.Written(items)| || |applied| < whole then |applied| else whole;
    assert forall i | 0 <= i < |applied| :: applied[i] == feed.pieces[i];
    assert forall i | 0 <= i < c :: applied[i] == json.show(t.sent[i]);
    if t.result.Ok? {
      TurnDelivery.CutRecoveryExactly(shape, messages, first, second);
    }
  }

  lemma {:induction false} BeginningsJoin(heard: seq<string>, deltas: seq<string>, c: nat)
    requires DeltaLines.BeginsWith(heard, deltas, c)
    ensures Concat(heard) <= Concat(deltas)
  {
    assert deltas == deltas[..c] + deltas[c..];
    ConcatAppend(deltas[..c], deltas[c..]);
    if |heard| == c {
      assert heard == heard[..c];
    } else {
      var none := deltas[..0];
      assert heard == heard[..c] + [heard[c]];
      ConcatMore(heard[..c], heard[c]);
      assert deltas[c..] == (none + [deltas[c]]) + deltas[c + 1..];
      ConcatMore(none, deltas[c]);
      ConcatAppend(none + [deltas[c]], deltas[c + 1..]);
      assert Concat(none) == "" && Concat(none) + deltas[c] == deltas[c];
    }
    hide Concat;
  }

  /**
   * For a text stream, the text applied is always the beginning of what all chunks before the terminal event say together,
   * left-trimmed, however it was chunked, timed, batched and retried, and wherever the worker stops.
   */
  lemma {:induction false} TextReachesClient(events: seq<TextStreams.Event>, lossy: seq<Encoding.byte> -> string,
      items: seq<DeltaLines.Item>, n: nat, feed: Relays.Feed, cuts: seq<nat>, applied: seq<string>)
    requires Delivers(lossy, items, TextStreams.Parsed(events).sent, n, feed, cuts, applied)
    ensures Concat(applied) <= TrimStart(TextStreams.InputOf(events))
  {
    TextStreams.ReadsInput(events);
    hide TextStreams.InputOf, TextStreams.ReadEvents, TextStreams.Parsed, Relays.IsCut, Relays.InOrder, Delivers, Concat, DeltaLines.BeginsWith;
    var c := FeedBegins(lossy, items, TextStreams.Parsed(events).sent, n, feed, cuts, applied);
    BeginningsJoin(feed.pieces, TextStreams.Parsed(events).sent, c);
    Relays.AppliedIsPrefix(feed, cuts, applied);
    if TextStreams.Parsed(events).result.Ok? {
      TextStreams.SuccessShowsAnswer(events);
    } else {
      TextStreams.FailureShowsPrefix(events);
    }
  }
}
