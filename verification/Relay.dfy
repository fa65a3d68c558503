/** Numbered stream deltas over a lossy link (`relay_job_deltas` and its helpers, agents/node/src/main.rs). */
module Relays {
  import opened Wrappers
  import opened Text

  const ATTEMPTS: nat := 3
  const BATCH_MAX_BYTES: nat := 4 * 1024

  datatype Request = Request(sequence: nat, delta: string)

  datatype Ack = Ack(accepted: bool, duplicate: bool)

  /** The control plane's side: the deltas it has applied, in the order of their numbers from 1. */
  class ControlPlane {
    var applied: seq<string>

    constructor ()
      ensures applied == []
    {
      applied := [];
    }

    /** It accepts the next number, reports earlier ones as duplicates and refuses the rest. */
    method Receive(request: Request) returns (ack: Ack)
      modifies this
      ensures if request.sequence == |old(applied)| + 1
              then applied == old(applied) + [request.delta] && ack == Ack(true, false)
              else applied == old(applied) && ack == Ack(false, 1 <= request.sequence <= |applied|)
    {
      if request.sequence == |applied| + 1 {
        applied := applied + [request.delta];
        return Ack(true, false);
      }
      return Ack(false, 1 <= request.sequence <= |applied|);
    }
  }

  /**
   * What the link does to one attempt, after delivering late any earlier requests it still held: the answer is heard,
   * or it is not, whether or not the request arrived, with a failure that may be retried or one that may not.
   */
  datatype Fate =
    | Heard(late: seq<nat>)
    | Unheard(late: seq<nat>, arrives: bool, retryable: bool)

  /** Every failure may be retried, and no three attempts in a row fail. */
  ghost predicate IsMild(fates: nat -> Fate) {
    forall k: nat :: IsMildAt(fates, k)
  }

  ghost predicate IsMildAt(fates: nat -> Fate, k: nat) {
    (fates(k).Unheard? ==> fates(k).retryable) && (fates(k).Heard? || fates(k + 1).Heard? || fates(k + 2).Heard?)
  }

  datatype Exit = Delivered | NotAccepted | LinkFailed

  /** What the worker sends, and when: the pieces, which of them are JSON, and whether `try_recv` finds piece `k` there. */
  datatype Feed = Feed(pieces: seq<string>, isJson: string -> bool, waiting: nat -> bool)

  function Batch(feed: Feed, cuts: seq<nat>, i: nat): string {
    if i + 1 < |cuts| && cuts[i] <= cuts[i + 1] <= |feed.pieces| then Concat(feed.pieces[cuts[i]..cuts[i + 1]]) else ""
  }

  /** A batch is one piece of JSON, or text taken while it was below the size bound and more was waiting. */
  ghost predicate IsBatch(feed: Feed, from: nat, to: nat) {
    && from < to <= |feed.pieces|
    && (forall k | from < k < to ::
          !feed.isJson(feed.pieces[from]) && feed.waiting(k) && ByteLength(Concat(feed.pieces[from..k])) < BATCH_MAX_BYTES)
    && (feed.isJson(feed.pieces[from]) || to == |feed.pieces| || !feed.waiting(to)
        || ByteLength(Concat(feed.pieces[from..to])) >= BATCH_MAX_BYTES)
  }

  /** Batch `i` holds the pieces from `cuts[i]` to `cuts[i + 1]`. */
  ghost predicate IsCut(feed: Feed, cuts: seq<nat>) {
    && |cuts| >= 1 && cuts[0] == 0 && cuts[|cuts| - 1] <= |feed.pieces|
    && forall i | 0 <= i < |cuts| - 1 :: IsBatch(feed, cuts[i], cuts[i + 1])
  }

  /** Every attempt carries the batch of its number, numbers never go back, and none has more than three attempts. */
  ghost predicate Numbered(feed: Feed, cuts: seq<nat>, sent: seq<Request>) {
    && (forall i | 0 <= i < |sent| :: 1 <= sent[i].sequence < |cuts| && sent[i].delta == Batch(feed, cuts, sent[i].sequence - 1))
    && (forall i, j | 0 <= i < j < |sent| :: sent[i].sequence <= sent[j].sequence)
    && (forall i, j | 0 <= i && i + ATTEMPTS <= j < |sent| :: sent[i].sequence < sent[j].sequence)
  }

  /** The numbers applied are 1 to n, each once, with the batch of that number. */
  ghost predicate InOrder(feed: Feed, cuts: seq<nat>, applied: seq<string>) {
    |applied| < |cuts| && forall i | 0 <= i < |applied| :: applied[i] == Batch(feed, cuts, i)
  }

  lemma CutMore(feed: Feed, cuts: seq<nat>, next: nat)
    requires IsCut(feed, cuts) && IsBatch(feed, cuts[|cuts| - 1], next)
    ensures IsCut(feed, cuts + [next]) && Batch(feed, cuts + [next], |cuts| - 1) == Concat(feed.pieces[cuts[|cuts| - 1]..next])
  {
    hide Concat, ByteLength;
    var more := cuts + [next];
    forall i | 0 <= i < |cuts|
      ensures IsBatch(feed, more[i], more[i + 1])
    {
      assert i < |cuts| - 1 ==> IsBatch(feed, cuts[i], cuts[i + 1]);
    }
  }

  lemma CutKeeps(feed: Feed, cuts: seq<nat>, next: nat, sent: seq<Request>, applied: seq<string>)
    requires Numbered(feed, cuts, sent) && InOrder(feed, cuts, applied)
    ensures Numbered(feed, cuts + [next], sent) && InOrder(feed, cuts + [next], applied)
  {
    hide Concat;
    var more := cuts + [next];
    assert forall i: nat | i < |cuts| :: more[i] == cuts[i];
    assert forall i: nat | i < |cuts| - 1 :: Batch(feed, more, i) == Batch(feed, cuts, i);
  }

  lemma AttemptMore(feed: Feed, cuts: seq<nat>, was: seq<Request>, sent: seq<Request>, request: Request)
    requires Numbered(feed, cuts, sent) && 1 <= request.sequence < |cuts| && request.delta == Batch(feed, cuts, request.sequence - 1)
    requires was <= sent && |sent| < |was| + ATTEMPTS
    requires forall i | 0 <= i < |was| :: was[i].sequence < request.sequence
    requires forall i | |was| <= i < |sent| :: sent[i] == request
    ensures Numbered(feed, cuts, sent + [request])
  {
    hide Batch;
    assert forall i | 0 <= i < |was| :: sent[i] == was[i];
  }

  lemma AppliedMore(feed: Feed, cuts: seq<nat>, applied: seq<string>, request: Request)
    requires InOrder(feed, cuts, applied) && 1 <= request.sequence < |cuts| && request.delta == Batch(feed, cuts, request.sequence - 1)
    ensures request.sequence == |applied| + 1 ==> InOrder(feed, cuts, applied + [request.delta])
  {
    hide Batch;
  }

  class Relay {
    const feed: Feed
    const fates: nat -> Fate                 // by how many attempts were made before
    const plane: ControlPlane
    var next: nat                            // pieces taken from the channel
    var sent: seq<Request>                   // every attempt made, all of which the link remembers
    ghost var cuts: seq<nat>

    ghost predicate Valid()
      reads this, plane
    {
      IsCut(feed, cuts) && Numbered(feed, cuts, sent) && InOrder(feed, cuts, plane.applied)
    }

    /** The request in hand carries the latest batch, and the ones before it are applied. */
    ghost predicate InHand(request: Request)
      reads this, plane
    {
      |cuts| >= 2 && request == Request(|cuts| - 1, Batch(feed, cuts, |cuts| - 2)) && |plane.applied| >= |cuts| - 2
    }

    constructor (feed: Feed, fates: nat -> Fate, plane: ControlPlane)
      requires plane.applied == []
      ensures Valid() && next == 0 && cuts == [0] && sent == []
      ensures this.feed == feed && this.fates == fates && this.plane == plane
    {
      this.feed, this.fates, this.plane := feed, fates, plane;
      next, sent, cuts := 0, [], [0];
    }

    method CoalesceStreamDeltas(first: string) returns (batch: string)
      requires 0 < next <= |feed.pieces| && first == feed.pieces[next - 1]
      modifies this`next
      ensures IsBatch(feed, old(next) - 1, next) && batch == Concat(feed.pieces[old(next) - 1..next])
    {
      ghost var from, none := next - 1, feed.pieces[..0];
      assert feed.pieces[from..next] == none + [first];
      ConcatMore(none, first);
      batch := first;
      if feed.isJson(first) {
        return;
      }
      while ByteLength(batch) < BATCH_MAX_BYTES
        invariant from < next <= |feed.pieces| && batch == Concat(feed.pieces[from..next])
        invariant forall k | from < k < next :: feed.waiting(k) && ByteLength(Concat(feed.pieces[from..k])) < BATCH_MAX_BYTES
        decreases |feed.pieces| - next
      {
        hide Concat, ByteLength;
        if next == |feed.pieces| || !feed.waiting(next) {
          break;
        }
        ConcatMore(feed.pieces[from..next], feed.pieces[next]);
        assert feed.pieces[from..next + 1] == feed.pieces[from..next] + [feed.pieces[next]];
        batch := batch + feed.pieces[next];
        next := next + 1;
      }
    }

    /** Requests that the link still held reach the control plane, in any order and any number of times. */
    method DeliverLate(late: seq<nat>)
      requires Valid()
      modifies plane
      ensures Valid() && |plane.applied| >= |old(plane.applied)|
    {
      hide IsCut, Batch;
      for k := 0 to |late|
        invariant Valid() && |plane.applied| >= |old(plane.applied)|
      {
        if late[k] < |sent| {
          AppliedMore(feed, cuts, plane.applied, sent[late[k]]);
          var _ := plane.Receive(sent[late[k]]);
        }
      }
    }

    /** What is heard is never a refusal, and means that the batch in hand is applied. */
    method Arrive(request: Request, fate: Fate) returns (ack: Option<Ack>)
      requires Valid() && InHand(request)
      modifies plane
      ensures Valid() && InHand(request)
      ensures ack.Some? <==> fate.Heard?
      ensures ack.Some? ==> (ack.value.accepted || ack.value.duplicate) && |plane.applied| == request.sequence
    {
      hide IsCut, Batch, Numbered;
      ack := None;
      if fate.Heard? || fate.arrives {
        AppliedMore(feed, cuts, plane.applied, request);
        var answer := plane.Receive(request);
        if fate.Heard? {
          ack := Some(answer);
        }
      }
    }

    /** The next piece, with what can be batched to it, under the next number. */
    method TakePayload(sequence: nat) returns (payload: Request)
      requires Valid() && sequence == |cuts| && |plane.applied| == |cuts| - 1 && cuts[|cuts| - 1] == next < |feed.pieces|
      modifies this`next, this`cuts
      ensures Valid() && InHand(payload) && payload.sequence == sequence && |cuts| == |old(cuts)| + 1
      ensures old(next) < next == cuts[|cuts| - 1] <= |feed.pieces|
    {
      hide IsCut, Numbered, InOrder, Concat, Batch, ByteLength;
      var first := feed.pieces[next];
      next := next + 1;
      var delta := CoalesceStreamDeltas(first);
      CutMore(feed, cuts, next);
      CutKeeps(feed, cuts, next, sent, plane.applied);
      cuts := cuts + [next];
      return Request(sequence, delta);
    }

    /** `None` when the attempts for this number are used up, or a failure forbids another one. */
    method PostStreamDelta(request: Request) returns (ack: Option<Ack>)
      requires Valid() && InHand(request)
      requires forall i | 0 <= i < |sent| :: sent[i].sequence < request.sequence
      modifies this`sent, plane
      ensures Valid() && InHand(request) && old(sent) < sent
      ensures ack.Some? ==> (ack.value.accepted || ack.value.duplicate) && |plane.applied| == request.sequence
      ensures ack.None? ==> GaveUp()
      ensures forall i | |old(sent)| <= i < |sent| :: sent[i] == request
    {
      hide IsCut, Batch, Numbered, InOrder;
      ack := None;
      var attempt := 1;
      ghost var was := sent;
      while true
        invariant 1 <= attempt <= ATTEMPTS && Valid() && InHand(request)
        invariant was <= sent && |sent| == |was| + attempt - 1
        invariant forall i | |was| <= i < |sent| :: sent[i] == request && fates(i).Unheard?
        decreases ATTEMPTS - attempt
      {
        var fate := fates(|sent|);
        AttemptMore(feed, cuts, was, sent, request);
        sent := sent + [request];
        DeliverLate(fate.late);
        ack := Arrive(request, fate);
        if ack.Some? {
          return;
        }
        if attempt < ATTEMPTS && fate.retryable {
          attempt := attempt + 1;
        } else {
          return;
        }
      }
    }

    /** The last attempt failed in a way that may not be retried, or it was the third for one delta to go unheard. */
    ghost predicate GaveUp()
      reads this
    {
      var n := |sent|;
      && n > 0 && fates(n - 1).Unheard?
      && (fates(n - 1).retryable ==>
            n >= ATTEMPTS && forall k | n - ATTEMPTS <= k < n :: fates(k).Unheard? && sent[k] == sent[n - 1])
    }

    lemma MildLinksHold()
      requires GaveUp()
      ensures !IsMild(fates)
    {
      var n := |sent|;
      assert !IsMildAt(fates, if fates(n - 1).retryable then n - 3 else n - 1);
    }

    /**
     * The control plane never refuses a delta: the relay ends with everything applied, or because the link failed for
     * good. It rides out any failures that may be retried as long as no three in a row fail.
     */
    method RelayJobDeltas() returns (exit: Exit)
      requires Valid() && next == 0 && cuts == [0] && sent == []
      modifies this, plane
      ensures Valid() && exit != NotAccepted
      ensures exit == Delivered ==> cuts[|cuts| - 1] == |feed.pieces| && |plane.applied| == |cuts| - 1
      ensures exit == LinkFailed ==> GaveUp()
      ensures IsMild(fates) ==> exit == Delivered
    {
      var sequence := 1;
      while next < |feed.pieces|
        invariant Valid() && sequence == |cuts| && |plane.applied| == |cuts| - 1 && cuts[|cuts| - 1] == next <= |feed.pieces|
        invariant forall i | 0 <= i < |sent| :: sent[i].sequence < sequence
        decreases |feed.pieces| - next
      {
        hide IsCut, Numbered, InOrder, IsBatch, Concat, Batch, GaveUp, IsMild, InHand;
        ghost var was := sent;
        var payload := TakePayload(sequence);
        var ack := PostStreamDelta(payload);
        if ack.None? {
          MildLinksHold();
          return LinkFailed;
        }
        if !ack.value.accepted && !ack.value.duplicate {
          return NotAccepted;
        }
        assert forall i | 0 <= i < |was| :: sent[i] == was[i];
        sequence := sequence + 1;
      }
      return Delivered;
    }
  }
  // --------------------------------------------------------------------- what Valid() says of any run

  /** A retry repeats the request it retries, and no number is tried more than three times. */
  lemma RetriesRepeat(feed: Feed, cuts: seq<nat>, sent: seq<Request>, i: nat, j: nat)
    requires Numbered(feed, cuts, sent) && i < j < |sent| && sent[i].sequence == sent[j].sequence
    ensures sent[i] == sent[j] && j - i < ATTEMPTS
  {
  }

  lemma {:induction false} BatchesJoin(feed: Feed, cuts: seq<nat>, applied: seq<string>)
    requires IsCut(feed, cuts) && InOrder(feed, cuts, applied)
    ensures cuts[|applied|] <= |feed.pieces| && Concat(applied) == Concat(feed.pieces[..cuts[|applied|]])
  {
    if |applied| == 0 {
      assert feed.pieces[..0] == applied;
    } else {
      var n := |applied| - 1;
      BatchesJoin(feed, cuts, applied[..n]);
      LastBatch(feed, cuts, applied);
      JoinAt(feed.pieces, cuts[n], cuts[n + 1]);
    }
  }

  lemma LastBatch(feed: Feed, cuts: seq<nat>, applied: seq<string>)
    requires IsCut(feed, cuts) && InOrder(feed, cuts, applied) && applied != []
    ensures var n := |applied| - 1;
            IsBatch(feed, cuts[n], cuts[n + 1]) && applied[n] == Concat(feed.pieces[cuts[n]..cuts[n + 1]])
  {
    hide IsBatch, Concat;
    var n := |applied| - 1;
    assert IsBatch(feed, cuts[n], cuts[n + 1]);
    BatchBounds(feed, cuts[n], cuts[n + 1]);
    assert applied[n] == Batch(feed, cuts, n);
  }

  lemma BatchBounds(feed: Feed, from: nat, to: nat)
    requires IsBatch(feed, from, to)
    ensures from < to <= |feed.pieces| && (feed.isJson(feed.pieces[from]) ==> to == from + 1)
  {
    var w := feed.waiting(from + 1);
  }

  lemma JoinAt(pieces: seq<string>, i: nat, j: nat)
    requires i <= j <= |pieces|
    ensures Concat(pieces[..j]) == Concat(pieces[..i]) + Concat(pieces[i..j])
  {
    hide Concat;
    ConcatAppend(pieces[..i], pieces[i..j]);
    assert pieces[..i] + pieces[i..j] == pieces[..j];
  }

  /** What the control plane has applied is the beginning of what the worker produced, and all of it once delivered. */
  lemma AppliedIsPrefix(feed: Feed, cuts: seq<nat>, applied: seq<string>)
    requires IsCut(feed, cuts) && InOrder(feed, cuts, applied)
    ensures Concat(applied) <= Concat(feed.pieces)
    ensures |applied| == |cuts| - 1 && cuts[|cuts| - 1] == |feed.pieces| ==> Concat(applied) == Concat(feed.pieces)
  {
    BatchesJoin(feed, cuts, applied);
    hide Concat, IsCut, InOrder;
    var all := feed.pieces[..|feed.pieces|];
    JoinAt(feed.pieces, cuts[|applied|], |feed.pieces|);
    assert all == feed.pieces;
  }

  /** A stream of JSON values is never merged: each applied delta is one produced value. The last piece may be anything. */
  lemma {:induction false} JsonNeverMerged(feed: Feed, cuts: seq<nat>, applied: seq<string>)
    requires IsCut(feed, cuts) && InOrder(feed, cuts, applied)
    requires forall i | 0 <= i < |feed.pieces| - 1 :: feed.isJson(feed.pieces[i])
    ensures applied <= feed.pieces && cuts[|applied|] == |applied|
  {
    if |applied| > 0 {
      var n := |applied| - 1;
      JsonNeverMerged(feed, cuts, applied[..n]);
      LastBatch(feed, cuts, applied);
      BatchBounds(feed, n, cuts[n + 1]);
      var none := feed.pieces[..0];
      assert feed.pieces[n..n + 1] == none + [feed.pieces[n]];
      ConcatMore(none, feed.pieces[n]);
      assert Concat(none) + feed.pieces[n] == feed.pieces[n] == applied[n];
      assert applied[..n] == feed.pieces[..n];
    }
  }
}
