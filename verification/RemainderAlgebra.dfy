/** What pushing means, and how `remainder` and `push` undo a cut in the relay. */
module RemainderAlgebra {
  import opened Wrappers
  import opened NativeStreams

  // ---------------------------------------------------------- pushing, stated without steps

  function Joined(a: Call, b: Call): Call {
    Call(a.id + b.id, a.name + b.name, a.arguments + b.arguments)
  }

  function Carried(f: Fragment): Call {
    Call(f.id.Added(), f.name.Added(), f.arguments.Added())
  }

  /** Everything that the fragments of one index carry, in order. */
  function Gathered(fs: seq<Fragment>, i: nat): Call {
    if fs == [] then EMPTY_CALL
    else
      var n := |fs| - 1;
      if fs[n].index == Some(i) then Joined(Gathered(fs[..n], i), Carried(fs[n])) else Gathered(fs[..n], i)
  }

  predicate Mentions(fs: seq<Fragment>, i: nat) {
    exists k | 0 <= k < |fs| :: fs[k].index == Some(i)
  }

  predicate WellFormed(f: Fragment) {
    f.index.Some? && f.index.value < INDEX_LIMIT && !f.id.NotText? && !f.name.NotText? && !f.arguments.NotText?
  }

  lemma PushLast(calls: map<nat, Call>, fs: seq<Fragment>, f: Fragment)
    ensures PushFragments(calls, fs + [f])
         == if PushFragments(calls, fs).failure.Some? then PushFragments(calls, fs) else PushFragment(PushFragments(calls, fs).to, f)
  {
    assert (fs + [f])[..|fs|] == fs;
  }

  lemma PushOneGathers(calls: map<nat, Call>, f: Fragment, i: nat)
    requires PushFragment(calls, f).failure.None?
    ensures i in PushFragment(calls, f).to <==> i in calls || f.index == Some(i)
    ensures Held(PushFragment(calls, f).to, i) == if f.index == Some(i) then Joined(Held(calls, i), Carried(f)) else Held(calls, i)
  {
  }

  lemma {:induction false} PushSucceedsExactly(calls: map<nat, Call>, fs: seq<Fragment>)
    ensures PushFragments(calls, fs).failure.None? <==> forall k | 0 <= k < |fs| :: WellFormed(fs[k])
  {
    if fs != [] {
      var n := |fs| - 1;
      PushSucceedsExactly(calls, fs[..n]);
      assert forall k | 0 <= k < n :: fs[..n][k] == fs[k];
      if PushFragments(calls, fs[..n]).failure.None? {
        assert PushFragments(calls, fs) == PushFragment(PushFragments(calls, fs[..n]).to, fs[n]);
        assert WellFormed(fs[n]) <==> PushFragments(calls, fs).failure.None?;
      }
    }
  }

  /** A successful push appends to each index exactly what the fragments of that index carry. */
  lemma {:induction false} PushGathers(calls: map<nat, Call>, fs: seq<Fragment>, i: nat)
    requires PushFragments(calls, fs).failure.None?
    ensures i in PushFragments(calls, fs).to <==> i in calls || Mentions(fs, i)
    ensures Held(PushFragments(calls, fs).to, i) == Joined(Held(calls, i), Gathered(fs, i))
  {
    if fs != [] {
      var n := |fs| - 1;
      var before := PushFragments(calls, fs[..n]);
      PushGathers(calls, fs[..n], i);
      PushOneGathers(before.to, fs[n], i);
      MentionsLast(fs, i);
      JoinedAssociates(Held(calls, i), Gathered(fs[..n], i), Carried(fs[n]));
    }
  }

  lemma JoinedAssociates(a: Call, b: Call, c: Call)
    ensures Joined(Joined(a, b), c) == Joined(a, Joined(b, c))
  {
    assert a.id + b.id + c.id == a.id + (b.id + c.id);
    assert a.name + b.name + c.name == a.name + (b.name + c.name);
    assert a.arguments + b.arguments + c.arguments == a.arguments + (b.arguments + c.arguments);
  }

  lemma MentionsLast(fs: seq<Fragment>, i: nat)
    requires fs != []
    ensures Mentions(fs, i) <==> Mentions(fs[..|fs| - 1], i) || fs[|fs| - 1].index == Some(i)
  {
    assert forall k | 0 <= k < |fs| - 1 :: fs[..|fs| - 1][k] == fs[k];
  }

  lemma {:induction false} PushFragmentsAppend(calls: map<nat, Call>, a: seq<Fragment>, b: seq<Fragment>)
    requires PushFragments(calls, a).failure.None?
    ensures PushFragments(calls, a + b) == PushFragments(PushFragments(calls, a).to, b)
    decreases |b|
  {
    if b == [] {
      assert a + b == a;
    } else {
      assert (a + b)[..|a + b| - 1] == a + b[..|b| - 1];
      PushFragmentsAppend(calls, a, b[..|b| - 1]);
    }
  }

  lemma {:induction false} PushAllAppend(s: Assembly, a: seq<Delta>, b: seq<Delta>)
    requires PushAll(s, a).failure.None?
    ensures PushAll(s, a + b) == PushAll(PushAll(s, a).to, b)
    decreases |b|
  {
    if b == [] {
      assert a + b == a;
    } else {
      assert (a + b)[..|a + b| - 1] == a + b[..|b| - 1];
      PushAllAppend(s, a, b[..|b| - 1]);
    }
  }

  lemma {:induction false} PushKeepsBounded(calls: map<nat, Call>, fs: seq<Fragment>)
    requires Bounded(calls)
    ensures Bounded(PushFragments(calls, fs).to)
  {
    if fs != [] {
      PushKeepsBounded(calls, fs[..|fs| - 1]);
    }
  }

  // ---------------------------------------------------------------- the listed calls

  ghost predicate Contiguous(calls: map<nat, Call>, n: nat) {
    forall i: nat :: i in calls <==> i < n
  }

  /** Without gaps the listed calls are the calls, each at its own index. */
  lemma {:induction false} ListsContiguous(calls: map<nat, Call>, n: nat, i: nat)
    requires Contiguous(calls, n) && i <= n <= INDEX_LIMIT
    ensures |CallsFrom(calls, i)| == n - i
    ensures forall k | 0 <= k < n - i :: CallsFrom(calls, i)[k] == calls[i + k]
    decreases INDEX_LIMIT - i
  {
    if i < n {
      ListsContiguous(calls, n, i + 1);
      assert CallsFrom(calls, i) == [calls[i]] + CallsFrom(calls, i + 1);
    } else if i < INDEX_LIMIT {
      ListsNothing(calls, i);
    }
  }

  lemma {:induction false} ListsNothing(calls: map<nat, Call>, i: nat)
    requires forall k | k in calls :: k < i
    ensures CallsFrom(calls, i) == []
    decreases INDEX_LIMIT - i
  {
    if i < INDEX_LIMIT {
      ListsNothing(calls, i + 1);
    }
  }

  /** Calls below `n` take at most one place each; a gap leaves a place over. */
  lemma {:induction false} ListsAtMost(calls: map<nat, Call>, n: nat, i: nat)
    requires i <= n && forall k | k in calls :: k < n
    ensures |CallsFrom(calls, i)| <= n - i
    ensures forall gap | i <= gap < n && gap !in calls :: |CallsFrom(calls, i)| < n - i
    decreases n - i
  {
    if i == n {
      ListsNothing(calls, i);
    } else if i < INDEX_LIMIT {
      ListsAtMost(calls, n, i + 1);
    }
  }

  /** Every index lies below the number of listed calls exactly when the indices are 0, 1, 2 and so on. */
  lemma {:induction false} IndicesFitExactly(calls: map<nat, Call>)
    requires Bounded(calls)
    ensures (forall i | i in calls :: i < |CallsFrom(calls, 0)|) <==> Contiguous(calls, |CallsFrom(calls, 0)|)
  {
    var n := |CallsFrom(calls, 0)|;
    if forall i | i in calls :: i < n {
      ListsAtMost(calls, n, 0);
    }
  }

  // ---------------------------------------------------------------- the algebra

  ghost predicate FitsIndices(final: AssistantMessage) {
    FitsBelow(final.calls, |final.calls|)
  }

  /** Every index below `n` as the final message has it, the others as they were. */
  ghost predicate IsCompletedBelow(calls: map<nat, Call>, finals: seq<Call>, n: nat, to: map<nat, Call>)
    requires n <= |finals|
  {
    && (forall i: nat :: i in to <==> i in calls || (i < n && finals[i] != EMPTY_CALL))
    && forall i | i in to :: to[i] == if i < n then finals[i] else calls[i]
  }

  lemma PushMissingCall(calls: map<nat, Call>, i: nat, full: Call)
    requires CallPrefix(Held(calls, i), full) && Held(calls, i) != full
    ensures PushFragment(calls, MissingCall(i, Held(calls, i), full)[0])
         == if i < INDEX_LIMIT then Step(calls[i := full], None) else Step(calls, Some(InvalidIndex))
  {
    var held := Held(calls, i);
    assert held.id + Suffix(full.id, held.id) == full.id;
    assert held.name + Suffix(full.name, held.name) == full.name;
    assert held.arguments + Suffix(full.arguments, held.arguments) == full.arguments;
  }

  lemma CompletedStep(calls: map<nat, Call>, finals: seq<Call>, n: nat, before: map<nat, Call>, to: map<nat, Call>)
    requires 0 < n <= |finals| && IsCompletedBelow(calls, finals, n - 1, before)
    requires CallPrefix(Held(calls, n - 1), finals[n - 1])
    requires to == if Held(calls, n - 1) == finals[n - 1] then before else before[n - 1 := finals[n - 1]]
    ensures IsCompletedBelow(calls, finals, n, to)
  {
  }

  ghost predicate FitsBelow(finals: seq<Call>, n: nat)
    requires n <= |finals|
  {
    forall i | INDEX_LIMIT <= i < n :: finals[i] == EMPTY_CALL
  }

  /** One more final call: pushes nothing when it is complete, else one fragment. */
  lemma PushMissingUnfolds(calls: map<nat, Call>, finals: seq<Call>, n: nat)
    requires 0 < n && PrefixesBelow(calls, finals, n)
    ensures PushFragments(calls, MissingCalls(calls, finals, n))
         == if PushFragments(calls, MissingCalls(calls, finals, n - 1)).failure.Some? || Held(calls, n - 1) == finals[n - 1]
            then PushFragments(calls, MissingCalls(calls, finals, n - 1))
            else PushFragment(PushFragments(calls, MissingCalls(calls, finals, n - 1)).to,
                              MissingCall(n - 1, Held(calls, n - 1), finals[n - 1])[0])
  {
    var before := MissingCalls(calls, finals, n - 1);
    if Held(calls, n - 1) == finals[n - 1] {
      assert MissingCalls(calls, finals, n) == before;
    } else {
      var f := MissingCall(n - 1, Held(calls, n - 1), finals[n - 1])[0];
      assert MissingCalls(calls, finals, n) == before + [f];
      PushLast(calls, before, f);
    }
  }

  lemma {:induction false} PushMissing(calls: map<nat, Call>, finals: seq<Call>, n: nat)
    requires Bounded(calls) && PrefixesBelow(calls, finals, n)
    ensures PushFragments(calls, MissingCalls(calls, finals, n)).failure.None? <==> FitsBelow(finals, n)
    ensures FitsBelow(finals, n) ==> IsCompletedBelow(calls, finals, n, PushFragments(calls, MissingCalls(calls, finals, n)).to)
  {
    hide MissingCalls, PushFragments, PushFragment, MissingCall, IsCompletedBelow, FitsBelow, PrefixesBelow;
    if n == 0 {
      NothingToPush(calls, finals, n);
    } else {
      PrefixesFewer(calls, finals, n);
      PushMissing(calls, finals, n - 1);
      PushMissingUnfolds(calls, finals, n);
      PushMissingStep(calls, finals, n, PushFragments(calls, MissingCalls(calls, finals, n - 1)),
                      PushFragments(calls, MissingCalls(calls, finals, n)));
    }
  }

  lemma PrefixesFewer(calls: map<nat, Call>, finals: seq<Call>, n: nat)
    requires 0 < n && PrefixesBelow(calls, finals, n)
    ensures PrefixesBelow(calls, finals, n - 1)
  {
  }

  lemma NothingToPush(calls: map<nat, Call>, finals: seq<Call>, n: nat)
    requires n == 0 && PrefixesBelow(calls, finals, n)
    ensures PushFragments(calls, MissingCalls(calls, finals, n)) == Step(calls, None)
    ensures FitsBelow(finals, n) && IsCompletedBelow(calls, finals, n, calls)
  {
  }

  lemma PushMissingStep(calls: map<nat, Call>, finals: seq<Call>, n: nat, before: Step<map<nat, Call>>, now: Step<map<nat, Call>>)
    requires Bounded(calls) && 0 < n && PrefixesBelow(calls, finals, n)
    requires before.failure.None? <==> FitsBelow(finals, n - 1)
    requires before.failure.None? ==> IsCompletedBelow(calls, finals, n - 1, before.to)
    requires now == if before.failure.Some? || Held(calls, n - 1) == finals[n - 1] then before
                    else PushFragment(before.to, MissingCall(n - 1, Held(calls, n - 1), finals[n - 1])[0])
    ensures now.failure.None? <==> FitsBelow(finals, n)
    ensures now.failure.None? ==> IsCompletedBelow(calls, finals, n, now.to)
  {
    assert FitsBelow(finals, n) <==> FitsBelow(finals, n - 1) && (n - 1 < INDEX_LIMIT || finals[n - 1] == EMPTY_CALL);
    if before.failure.None? {
      if Held(calls, n - 1) != finals[n - 1] {
        assert Held(before.to, n - 1) == Held(calls, n - 1);
        PushMissingCall(before.to, n - 1, finals[n - 1]);
      }
      if now.failure.None? {
        CompletedStep(calls, finals, n, before.to, now.to);
      }
    }
  }

  /**
   * Pushing the remainder is accepted exactly when no non-empty final call sits at index 128 or above, and then it
   * completes the message: all the text, every call that was held or is not empty, and nothing left to send.
   */
  lemma {:induction false} RemainderCompletes(s: Assembly, final: AssistantMessage)
    requires Bounded(s.calls) && Covers(final, s)
    ensures Pushed(s, Missing(s, final)).failure.None? <==> FitsIndices(final)
    ensures FitsIndices(final) ==>
              && Pushed(s, Missing(s, final)).to == Completed(s, final)
              && Covers(final, Completed(s, final))
              && Missing(Completed(s, final), final) == EMPTY_DELTA
  {
    var n := |final.calls|;
    PushedMissing(s, final);
    PushMissing(s.calls, final.calls, n);
    if FitsIndices(final) {
      CompletedIs(s, final, PushFragments(s.calls, MissingCalls(s.calls, final.calls, n)).to);
      CompletedLacksNothing(s, final);
    }
  }

  lemma PushedMissing(s: Assembly, final: AssistantMessage)
    requires Covers(final, s)
    ensures Pushed(s, Missing(s, final))
         == Step(Assembly(final.content, PushFragments(s.calls, MissingCalls(s.calls, final.calls, |final.calls|)).to),
                 PushFragments(s.calls, MissingCalls(s.calls, final.calls, |final.calls|)).failure)
  {
    assert s.content + Suffix(final.content, s.content) == final.content;
  }

  lemma CompletedIs(s: Assembly, final: AssistantMessage, to: map<nat, Call>)
    requires Covers(final, s) && IsCompletedBelow(s.calls, final.calls, |final.calls|, to)
    ensures Completed(s, final).calls == to
  {
  }

  lemma CompletedLacksNothing(s: Assembly, final: AssistantMessage)
    requires Covers(final, s)
    ensures Covers(final, Completed(s, final)) && Missing(Completed(s, final), final) == EMPTY_DELTA
  {
    NothingMissing(Completed(s, final).calls, final.calls, |final.calls|);
  }

  lemma {:induction false} NothingMissing(calls: map<nat, Call>, finals: seq<Call>, n: nat)
    requires PrefixesBelow(calls, finals, n) && forall i | 0 <= i < n :: Held(calls, i) == finals[i]
    ensures MissingCalls(calls, finals, n) == []
  {
    if n > 0 {
      NothingMissing(calls, finals, n - 1);
    }
  }

  /** The client then reads back the final message itself exactly when no call of it is both empty and unheld. */
  lemma {:induction false} RemainderRestoresMessage(s: Assembly, final: AssistantMessage)
    requires Bounded(s.calls) && Covers(final, s) && FitsIndices(final)
    ensures MessageOf(Completed(s, final)) == final
       <==> forall i | 0 <= i < |final.calls| :: i in s.calls || final.calls[i] != EMPTY_CALL
  {
    var done, n := Completed(s, final), |final.calls|;
    assert n > INDEX_LIMIT ==> final.calls[INDEX_LIMIT] == EMPTY_CALL && INDEX_LIMIT !in s.calls;
    if forall i | 0 <= i < n :: i in s.calls || final.calls[i] != EMPTY_CALL {
      assert Contiguous(done.calls, n);
      ListsContiguous(done.calls, n, 0);
      assert MessageOf(done).calls == final.calls;
    } else {
      var gap :| 0 <= gap < n && gap !in s.calls && final.calls[gap] == EMPTY_CALL;
      ListsAtMost(done.calls, n, 0);
      assert gap !in done.calls;
    }
  }
}
