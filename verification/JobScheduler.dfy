/** The node's job loop beside the slot pool (`process_pending_jobs` and `reap_finished_jobs`, agents/node/src/main.rs). */
module JobSchedulers {
  import opened Wrappers
  import opened SlotPools

  /** A job's thread, named by the call whose permit it took along. */
  datatype Handle = Handle(job: string, permit: nat)

  /** What the control plane and the other threads do while a slot is being filled. */
  datatype Chance = Chance(others: seq<seq<Event>>, spurious: nat -> bool, job: Option<string>)

  /** `Vec::swap_remove`: the last element takes the place of the one taken out. */
  function SwapRemove(handles: seq<Handle>, index: nat): seq<Handle>
    requires index < |handles|
  {
    handles[index := handles[|handles| - 1]][..|handles| - 1]
  }

  ghost predicate Accounts(joined: seq<Handle>, left: seq<Handle>, all: seq<Handle>) {
    multiset(joined) + multiset(left) == multiset(all)
  }

  lemma SwapRemoveTakesOne(handles: seq<Handle>, index: nat)
    requires index < |handles|
    ensures multiset(SwapRemove(handles, index)) + multiset([handles[index]]) == multiset(handles)
  {
    var last := |handles| - 1;
    if index == last {
      assert SwapRemove(handles, index) == handles[..last];
      assert handles == handles[..last] + [handles[last]];
    } else {
      var front, middle := handles[..index], handles[index + 1..last];
      assert SwapRemove(handles, index) == front + [handles[last]] + middle;
      assert handles == front + [handles[index]] + middle + [handles[last]];
    }
  }

  lemma TakingOutAccounts(joined: seq<Handle>, left: seq<Handle>, all: seq<Handle>, index: nat)
    requires index < |left| && Accounts(joined, left, all)
    ensures Accounts(joined + [left[index]], SwapRemove(left, index), all)
  {
    SwapRemoveTakesOne(left, index);
    hide SwapRemove;
  }

  ghost predicate IsOwned(handles: seq<Handle>, permit: nat) {
    exists i | 0 <= i < |handles| :: handles[i].permit == permit
  }

  /** The calls from `first` on have each ended without a permit, or given it back, or handed it to a thread. */
  ghost predicate NoneLeaked(calls: map<nat, Phase>, handles: seq<Handle>, first: nat) {
    forall c | c in calls && first <= c :: calls[c].Refused? || calls[c].Released? || (calls[c].Held? && IsOwned(handles, c))
  }

  /** Thread `n` runs the job that was claimed for the permit of call `n`. */
  ghost predicate Fills(chances: nat -> Chance, first: nat, n: nat, h: Handle) {
    chances(n).job == Some(h.job) && h.permit == first + n
  }

  lemma CallEnds(was: map<nat, Phase>, now: map<nat, Phase>, handles: seq<Handle>, first: nat, h: Handle)
    requires NoneLeaked(was, handles, first) && OursStand(was, now, first, h.permit) && h.permit in now
    ensures now[h.permit].Refused? || now[h.permit].Released? ==> NoneLeaked(now, handles, first)
    ensures now[h.permit].Held? ==> NoneLeaked(now, handles + [h], first)
  {
    var more := handles + [h];
    assert more[|handles|].permit == h.permit;
    forall c | IsOwned(handles, c)
      ensures IsOwned(more, c)
    {
      var i :| 0 <= i < |handles| && handles[i].permit == c;
      assert more[i].permit == c;
    }
  }

  lemma NoneYet(calls: map<nat, Phase>, handles: seq<Handle>, first: nat)
    requires forall c | first <= c :: c !in calls
    ensures NoneLeaked(calls, handles, first)
  {
  }

  class JobLoop {
    const pool: SlotPool
    var handles: seq<Handle>

    constructor (pool: SlotPool)
      ensures this.pool == pool && handles == []
    {
      this.pool, handles := pool, [];
    }

    /** Each thread is asked once; those that have finished are taken out and joined, the others stay. */
    method ReapFinishedJobs(finished: Handle -> bool) returns (joined: seq<Handle>)
      modifies this
      ensures Accounts(joined, handles, old(handles))
      ensures forall h | h in joined :: finished(h)
      ensures forall h | h in handles :: !finished(h)
    {
      joined := [];
      var index := 0;
      while index < |handles|
        invariant index <= |handles| && Accounts(joined, handles, old(handles))
        invariant forall h | h in joined :: finished(h)
        invariant forall i | 0 <= i < index :: !finished(handles[i])
        decreases |handles| - index
      {
        hide Accounts;
        if finished(handles[index]) {
          TakingOutAccounts(joined, handles, old(handles), index);
          joined := joined + [handles[index]];
          handles := SwapRemove(handles, index);
        } else {
          index := index + 1;
        }
      }
    }

    /**
     * Claims jobs while the pool has slots and the control plane has work; the calls it makes are numbered from
     * `first`. There are never more threads than slots, and a slot for which no job came is given back; slots stay open
     * only when the pool refused or there was no job.
     */
    method Refill(first: nat, chances: nat -> Chance) returns (ghost events: seq<Event>)
      requires forall c | first <= c :: c !in pool.calls
      requires forall n, i | 0 <= i < |chances(n).others| :: ByOthers(chances(n).others[i], first)
      requires |handles| <= pool.capacity
      modifies this, pool
      ensures pool.Now() == Play(old(pool.Now()), events)
      ensures old(handles) <= handles && |handles| <= pool.capacity
      ensures NoneLeaked(pool.calls, handles, first)
      ensures forall i | |old(handles)| <= i < |handles| :: Fills(chances, first, i - |old(handles)|, handles[i])
      ensures |handles| < pool.capacity ==>
                var n := |handles| - |old(handles)|;
                first + n in pool.calls && (pool.calls[first + n].Refused? || chances(n).job.None?)
    {
      hide Play, NoneLeaked;
      ghost var start := pool.Now();
      events := [];
      PlayNone(start);
      NoneYet(pool.calls, handles, first);
      var n := 0;
      while |handles| < pool.capacity
        invariant pool.Now() == Play(start, events)
        invariant old(handles) <= handles && |handles| == |old(handles)| + n <= pool.capacity
        invariant NoneLeaked(pool.calls, handles, first)
        invariant forall c | first + n <= c :: c !in pool.calls
        invariant forall i | |old(handles)| <= i < |handles| :: Fills(chances, first, i - |old(handles)|, handles[i])
        decreases pool.capacity - |handles|
      {
        var chance := chances(n);
        var c := first + n;
        ghost var was := pool.calls;
        var permit, steps := pool.TryAcquire(c, first, chance.others, chance.spurious);
        PlayAppend(start, events, steps);
        events := events + steps;
        if !permit {
          CallEnds(was, pool.calls, handles, first, Handle("", c));
          break;
        }
        if chance.job.None? {
          PlayAppend(start, events, [FetchSub(c)]);
          PlayOne(pool.Now(), FetchSub(c));
          pool.Release(c);
          events := events + [FetchSub(c)];
          CallEnds(was, pool.calls, handles, first, Handle("", c));
          break;
        }
        CallEnds(was, pool.calls, handles, first, Handle(chance.job.value, c));
        handles := handles + [Handle(chance.job.value, c)];
        n := n + 1;
      }
    }
  }
}
