/** The slot pool shared by all job threads, as interleaved atomic steps (`SlotPool`, agents/node/src/local_api.rs). */
module SlotPools {

  /** One call of `try_acquire`, from its first load to the drop of its permit. */
  datatype Phase =
    | Loaded(active: nat)        // what the call last saw
    | Refused
    | Held
    | Released

  /** The counter, and every call that has begun, by any thread. */
  datatype State = State(capacity: nat, active: nat, calls: map<nat, Phase>)

  /** The atomic steps of call `c`. A weak exchange may fail although the counter is what was expected. */
  datatype Event = Load(c: nat) | CompareExchange(c: nat, spurious: bool) | FetchSub(c: nat)

  const MAX_WORD: nat := 0xFFFF_FFFF_FFFF_FFFF

  function WrappingLess(n: nat): nat {
    if n == 0 then MAX_WORD else n - 1
  }

  function Next(s: State, e: Event): State {
    match e
    case Load(c) => if c in s.calls then s else s.(calls := s.calls[c := Loaded(s.active)])
    case CompareExchange(c, spurious) =>
      if c !in s.calls || !s.calls[c].Loaded? then s
      else if s.calls[c].active >= s.capacity then s.(calls := s.calls[c := Refused])
      else if s.active == s.calls[c].active && !spurious then s.(active := s.active + 1, calls := s.calls[c := Held])
      else s.(calls := s.calls[c := Loaded(s.active)])
    case FetchSub(c) =>
      if c !in s.calls || !s.calls[c].Held? then s
      else s.(active := WrappingLess(s.active), calls := s.calls[c := Released])
  }

  function Play(s: State, events: seq<Event>): State {
    if events == [] then s else Next(Play(s, events[..|events| - 1]), events[|events| - 1])
  }

  function Fresh(capacity: nat): State {
    State(if capacity > 1 then capacity else 1, 0, map[])
  }

  // ------------------------------------------------------------------------- safety in every interleaving

  function Permits(calls: map<nat, Phase>): set<nat> {
    set c | c in calls && calls[c].Held?
  }

  ghost predicate Sound(s: State) {
    s.active == |Permits(s.calls)| <= s.capacity
  }

  lemma PermitsAfter(calls: map<nat, Phase>, c: nat, phase: Phase)
    ensures Permits(calls[c := phase]) == if phase.Held? then Permits(calls) + {c} else Permits(calls) - {c}
  {
  }

  lemma NextKeeps(s: State, e: Event)
    requires Sound(s)
    ensures Sound(Next(s, e)) && Next(s, e).capacity == s.capacity
  {
    if Next(s, e) != s {
      PermitsAfter(s.calls, e.c, Next(s, e).calls[e.c]);
    }
  }

  lemma {:induction false} PlayKeepsCapacity(s: State, events: seq<Event>)
    ensures Play(s, events).capacity == s.capacity
  {
    if events != [] {
      PlayKeepsCapacity(s, events[..|events| - 1]);
    }
  }

  lemma {:induction false} PlayKeepsSound(s: State, events: seq<Event>)
    requires Sound(s)
    ensures Sound(Play(s, events))
  {
    if events != [] {
      PlayKeepsSound(s, events[..|events| - 1]);
      NextKeeps(Play(s, events[..|events| - 1]), events[|events| - 1]);
    }
  }

  /**
   * In every interleaving of any number of calls the counter is the number of live permits and never exceeds the
   * capacity asked for, or one if that was zero.
   */
  lemma AlwaysSound(capacity: nat, events: seq<Event>)
    ensures Sound(Play(Fresh(capacity), events))
    ensures Play(Fresh(capacity), events).capacity == if capacity == 0 then 1 else capacity
  {
    var none := Permits(map[]);
    assert none == {};
    PlayKeepsSound(Fresh(capacity), events);
    PlayKeepsCapacity(Fresh(capacity), events);
  }

  /** Dropping a permit never takes the counter below zero. */
  lemma ReleaseNeverUnderflows(capacity: nat, events: seq<Event>, c: nat)
    requires c in Permits(Play(Fresh(capacity), events).calls)
    ensures var s := Play(Fresh(capacity), events);
            Next(s, FetchSub(c)).active + 1 == s.active
  {
    hide Play;
    AlwaysSound(capacity, events);
    var s := Play(Fresh(capacity), events);
    assert s.active == 0 ==> Permits(s.calls) == {};
  }

  // ------------------------------------------------------------------------------- what a refusal means

  /** At moment `j` call `c` had begun and the counter showed `n`. */
  ghost predicate ShowedAt(s: State, events: seq<Event>, c: nat, n: nat, j: nat) {
    j <= |events| && c in Play(s, events[..j]).calls && Play(s, events[..j]).active == n
  }

  /** What a call has loaded was the counter's value at some moment since the call began. */
  lemma {:induction false} LoadedWasShown(s: State, events: seq<Event>, c: nat) returns (j: nat)
    requires c !in s.calls && c in Play(s, events).calls
    requires Play(s, events).calls[c].Loaded?
    ensures ShowedAt(s, events, c, Play(s, events).calls[c].active, j)
  {
    var n := |events| - 1;
    var before, after := Play(s, events[..n]), Play(s, events);
    if c in before.calls && before.calls[c] == after.calls[c] {
      j := LoadedWasShown(s, events[..n], c);
      assert events[..n][..j] == events[..j];
    } else {
      j := |events|;
      assert events[..j] == events;
    }
  }

  /** A call is refused only when the pool was full at some moment since the call began. */
  lemma {:induction false} RefusedOnlyWhenFull(capacity: nat, events: seq<Event>, c: nat) returns (j: nat)
    requires c in Play(Fresh(capacity), events).calls && Play(Fresh(capacity), events).calls[c].Refused?
    ensures ShowedAt(Fresh(capacity), events, c, if capacity == 0 then 1 else capacity, j)
    ensures |Permits(Play(Fresh(capacity), events[..j]).calls)| == if capacity == 0 then 1 else capacity
  {
    var n := |events| - 1;
    var s := Fresh(capacity);
    var before := Play(s, events[..n]);
    AlwaysSound(capacity, events[..n]);
    if c in before.calls && before.calls[c].Refused? {
      j := RefusedOnlyWhenFull(capacity, events[..n], c);
    } else {
      j := LoadedWasShown(s, events[..n], c);
    }
    assert events[..n][..j] == events[..j];
    AlwaysSound(capacity, events[..j]);
  }

  // ------------------------------------------------------------------------------- who gets a permit

  /**
   * After any interleaving, a call that is not disturbed gets a permit exactly when one is free, and dropping it puts the
   * pool back as it was.
   */
  lemma UndisturbedCallExactly(capacity: nat, events: seq<Event>, c: nat)
    requires c !in Play(Fresh(capacity), events).calls
    ensures var s := Play(Fresh(capacity), events);
            var t := Next(Next(s, Load(c)), CompareExchange(c, false));
            && c in t.calls
            && (|Permits(s.calls)| < (if capacity == 0 then 1 else capacity) ==>
                  && t.calls[c] == Held && Permits(t.calls) == Permits(s.calls) + {c}
                  && Permits(Next(t, FetchSub(c)).calls) == Permits(s.calls) && Next(t, FetchSub(c)).active == s.active)
            && (|Permits(s.calls)| == (if capacity == 0 then 1 else capacity) ==>
                  t.calls[c] == Refused && Permits(t.calls) == Permits(s.calls) && t.active == s.active)
  {
    AlwaysSound(capacity, events);
    hide Play;
    var s := Play(Fresh(capacity), events);
    var loaded := s.calls[c := Loaded(s.active)];
    PermitsAfter(s.calls, c, Loaded(s.active));
    PermitsAfter(loaded, c, Held);
    PermitsAfter(loaded, c, Refused);
    PermitsAfter(loaded[c := Held], c, Released);
  }

  /** An exchange that does not fail spuriously has to be repeated only when another call moved the counter meanwhile. */
  lemma {:induction false} RepeatedOnlyWhenMoved(s: State, events: seq<Event>, c: nat)
    requires c !in s.calls
    requires var t := Play(Next(s, Load(c)), events);
             c in t.calls && t.calls[c] == Loaded(s.active) && Next(t, CompareExchange(c, false)).calls[c].Loaded?
    ensures exists j | 0 <= j < |events| :: Play(Next(s, Load(c)), events[..j + 1]).active != Play(Next(s, Load(c)), events[..j]).active
  {
    var start := Next(s, Load(c));
    if |events| > 0 {
      MovedBetween(start, events);
    }
  }

  lemma {:induction false} MovedBetween(s: State, events: seq<Event>)
    requires Play(s, events).active != s.active
    ensures exists j | 0 <= j < |events| :: Play(s, events[..j + 1]).active != Play(s, events[..j]).active
  {
    var n := |events| - 1;
    assert events[..n + 1] == events;
    if Play(s, events[..n]).active != s.active {
      MovedBetween(s, events[..n]);
      var j :| 0 <= j < n && Play(s, events[..n][..j + 1]).active != Play(s, events[..n][..j]).active;
      assert events[..n][..j + 1] == events[..j + 1] && events[..n][..j] == events[..j];
    }
  }

  // ------------------------------------------------------------------------------------- the code

  lemma {:induction false} PlayAppend(s: State, a: seq<Event>, b: seq<Event>)
    ensures Play(s, a + b) == Play(Play(s, a), b)
  {
    if |b| == 0 {
      assert a + b == a;
    } else {
      PlayAppend(s, a, b[..|b| - 1]);
      assert (a + b)[..|a + b| - 1] == a + b[..|b| - 1];
    }
  }

  lemma PlayOne(s: State, e: Event)
    ensures Play(s, [e]) == Next(s, e)
  {
    var none := [e][..0];
    assert Play(s, none) == s;
  }

  /** Other threads drop any permits they hold, but neither begin nor continue the calls from `mine` on. */
  ghost predicate ByOthers(events: seq<Event>, mine: nat) {
    forall i | 0 <= i < |events| :: events[i].c < mine || events[i].FetchSub?
  }

  /** Calls from `mine` on, apart from `c`, stand where they stood, or their permit has been dropped meanwhile. */
  ghost predicate OursStand(was: map<nat, Phase>, now: map<nat, Phase>, mine: nat, c: nat) {
    forall k | mine <= k && k != c ::
      && (k in now <==> k in was)
      && (k in was ==> now[k] == was[k] || (was[k].Held? && now[k].Released?))
  }

  lemma {:induction false} OthersLeaveOurs(s: State, events: seq<Event>, mine: nat, c: nat)
    requires ByOthers(events, mine) && mine <= c
    ensures OursStand(s.calls, Play(s, events).calls, mine, c)
    ensures c in s.calls && s.calls[c].Loaded? ==> c in Play(s, events).calls && Play(s, events).calls[c] == s.calls[c]
  {
    if events != [] {
      OthersLeaveOurs(s, events[..|events| - 1], mine, c);
    }
  }

  class SlotPool {
    const capacity: nat
    var active: nat
    var calls: map<nat, Phase>               // who holds what; the code spreads this over its threads

    function Now(): State
      reads this
    {
      State(capacity, active, calls)
    }

    constructor (capacity: nat)
      ensures Now() == Fresh(capacity)
    {
      this.capacity := if capacity > 1 then capacity else 1;
      active, calls := 0, map[];
    }

    /** Whatever other threads do between two steps of this one. */
    method Interfere(events: seq<Event>)
      modifies this
      ensures Now() == Play(old(Now()), events)
    {
      PlayKeepsCapacity(Now(), events);
      var after := Play(Now(), events);
      active, calls := after.active, after.calls;
    }

    /**
     * Call `c`, with other threads running before each of its steps: it returns a permit or `None` as the interleaved
     * steps have it. Calls from `mine` on are this thread's own.
     */
    method TryAcquire(c: nat, ghost mine: nat, others: seq<seq<Event>>, spurious: nat -> bool)
      returns (permit: bool, ghost events: seq<Event>)
      requires mine <= c && c !in calls && forall i | 0 <= i < |others| :: ByOthers(others[i], mine)
      modifies this
      ensures Now() == Play(old(Now()), events)
      ensures c in calls && calls[c] == if permit then Held else Refused
      ensures OursStand(old(calls), calls, mine, c)
    {
      hide Play;
      ghost var start := Now();
      var register: nat := active;
      calls := calls[c := Loaded(register)];
      events := [Load(c)];
      PlayOne(start, Load(c));
      var i := 0;
      while true
        invariant Now() == Play(start, events) && i <= |others|
        invariant c in calls && calls[c] == Loaded(register) && register == active
        invariant OursStand(start.calls, calls, mine, c)
        decreases |others| - i
      {
        var meanwhile := if i < |others| then others[i] else [];
        OthersLeaveOurs(Now(), meanwhile, mine, c);
        PlayNone(Now());
        PlayAppend(start, events, meanwhile);
        Interfere(meanwhile);
        var fails := i < |others| && spurious(i);
        PlayAppend(start, events + meanwhile, [CompareExchange(c, fails)]);
        PlayOne(Now(), CompareExchange(c, fails));
        events := events + meanwhile + [CompareExchange(c, fails)];
        if register >= capacity {
          calls := calls[c := Refused];
          return false, events;
        }
        if active == register && !fails {
          active, calls := active + 1, calls[c := Held];
          return true, events;
        }
        register := active;
        calls := calls[c := Loaded(register)];
        i := i + 1;
      }
    }

    /** `Drop` of the permit that call `c` returned. */
    method Release(c: nat)
      requires c in calls && calls[c].Held?
      modifies this
      ensures Now() == Next(old(Now()), FetchSub(c))
    {
      active, calls := WrappingLess(active), calls[c := Released];
    }
  }

  lemma PlayNone(s: State)
    ensures Play(s, []) == s
  {
  }
}
