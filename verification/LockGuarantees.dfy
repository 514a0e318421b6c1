/** What the lock protocol guarantees over every run: mutual exclusion, balance, freedom from deadlock. */
module LockGuarantees {
  import opened KeyOrder
  import opened LockProtocol

  ghost predicate Reachable<E(!new)>(s: System<E>) {
    exists states: seq<System<E>>, events: seq<Event<E>> :: Run(states, events) && states[|events|] == s
  }

  lemma ReachableInv<E(!new)>(s: System<E>)
    requires Reachable(s)
    ensures Inv(s)
  {
    var states: seq<System<E>>, events: seq<Event<E>> :| Run(states, events) && states[|events|] == s;
    RunKeeps(states, events, |events|);
  }

  // ---------------------------------------------------------------- mutual exclusion

  lemma SingletonSet(a: set<nat>, x: nat, y: nat)
    requires x in a && y in a && |a| <= 1
    ensures x == y
  {
    assert |a - {x}| == |a| - 1;
    assert a - {x} == {};
  }

  /** At most one caller owns the token of a key, whatever entries were deleted and made anew before. */
  lemma MutualExclusion<E(!new)>(s: System<E>, c: nat, d: nat, k: string)
    requires Reachable(s) && c in s.callers && d in s.callers
    requires Owns(s.callers[c], k) && Owns(s.callers[d], k)
    ensures c == d
  {
    ReachableInv(s);
    assert c in Owners(s, k);
    if k !in s.mgr.entries {
      NoStrayReferrers(s, k);
    } else {
      assert Counted(s, k);
      SingletonSet(Owners(s, k), c, d);
    }
  }

  /** In particular two holders have no key in common. */
  lemma HoldersDisjoint<E(!new)>(s: System<E>, c: nat, d: nat, k: string)
    requires Reachable(s) && c in s.callers && d in s.callers && c != d
    requires s.callers[c].phase.Holding? && s.callers[d].phase.Holding?
    ensures !(k in s.callers[c].keys && k in s.callers[d].keys)
  {
    if k in s.callers[c].keys && k in s.callers[d].keys {
      assert Owns(s.callers[c], k) && Owns(s.callers[d], k);
      MutualExclusion(s, c, d, k);
    }
  }

  // ---------------------------------------------------------------- balance

  /** The map holds an entry for a key exactly while somebody refers to it. */
  lemma EntryIffReferred<E(!new)>(s: System<E>, k: string)
    requires Reachable(s)
    ensures k in s.mgr.entries <==> Referrers(s, k) != {}
  {
    ReachableInv(s);
    if k in s.mgr.entries {
      assert Counted(s, k);
    } else {
      NoStrayReferrers(s, k);
    }
  }

  lemma EmptyWhenDone<E(!new)>(s: System<E>)
    requires Inv(s)
    requires forall c :: c in s.callers ==> s.callers[c].phase.Done?
    ensures s.mgr.entries == map[]
  {
    forall k ensures k !in s.mgr.entries {
      assert Referrers(s, k) == {};
    }
  }

  /** Once every caller is done the map is empty again. */
  lemma AllDoneEmpty<E(!new)>(s: System<E>)
    requires Reachable(s)
    requires forall c :: c in s.callers ==> s.callers[c].phase.Done?
    ensures s.mgr.entries == map[]
  {
    ReachableInv(s);
    EmptyWhenDone(s);
  }

  /** Sending a token back never blocks on the one-slot channel. */
  lemma ReturnNeverBlocks<E(!new)>(s: System<E>, c: nat)
    requires Inv(s) && c in s.callers
    requires s.callers[c].phase.Returning? && s.callers[c].phase.left > 0
    ensures var e := s.callers[c].ents[s.callers[c].phase.left - 1];
      e in s.mgr.store && s.mgr.store[e].tokens == 0
  {
    var me := s.callers[c];
    var i: nat := me.phase.left - 1;
    var k := me.keys[i];
    assert RefersAt(me, i);
    KeyAt(me, i);
    assert c in Owners(s, k);
    assert s.mgr.entries[k] == me.ents[i];
    assert Counted(s, k);
  }

  function Takes<E(!new)>(events: seq<Event<E>>, c: nat): (n: nat) {
    if events == [] then 0
    else Takes(events[..|events| - 1], c) + (if events[|events| - 1].Take? && events[|events| - 1].c == c then 1 else 0)
  }

  function Returns<E(!new)>(events: seq<Event<E>>, c: nat): (n: nat) {
    if events == [] then 0
    else
      Returns(events[..|events| - 1], c)
      + (if events[|events| - 1].Return? && events[|events| - 1].c == c then 1 else 0)
  }

  function OwnedCount<E(!new)>(me: Caller<E>): (n: nat) {
    match me.phase
    case Waiting(taken) => taken
    case Holding => |me.keys|
    case Returning(_, left) => left
    case _ => 0
  }

  /** Tokens taken minus tokens given back is what the caller still owns: a caller that is done, released
      or cancelled after any prefix of its keys, has given back exactly what it took. */
  lemma {:induction false} TokensBalance<E(!new)>(states: seq<System<E>>, events: seq<Event<E>>, c: nat)
    requires Run(states, events)
    ensures Takes(events, c) == Returns(events, c) +
      (if c in states[|events|].callers then OwnedCount(states[|events|].callers[c]) else 0)
  {
    if events != [] {
      var n := |events| - 1;
      assert Run(states[..n + 1], events[..n]);
      TokensBalance(states[..n + 1], events[..n], c);
      RunKeeps(states, events, n);
      OneStepBalance(states[n], events[n], states[n + 1], c);
    }
  }

  lemma OneStepBalance<E(!new)>(s: System<E>, ev: Event<E>, s': System<E>, c: nat)
    requires Inv(s) && Step(s, ev, s')
    ensures (if c in s'.callers then OwnedCount(s'.callers[c]) else 0) ==
      (if c in s.callers then OwnedCount(s.callers[c]) else 0)
      + (if ev.Take? && ev.c == c then 1 else 0) - (if ev.Return? && ev.c == c then 1 else 0)
  {
    if ev.c in s.callers {
      assert WellFormed(s.callers[ev.c]);
    }
  }

  // ---------------------------------------------------------------- deadlock freedom

  /** The events that bring a caller nearer its end: a take, the first release, a return, a drop. */
  ghost predicate Progress<E(!new)>(s: System<E>, ev: Event<E>, s': System<E>) {
    && Step(s, ev, s')
    && !ev.Register? && !ev.Cancel?
    && (ev.Release? ==> ev.c in s.callers && s.callers[ev.c].phase.Holding?)
  }

  ghost predicate CanProgress<E(!new)>(s: System<E>) {
    exists ev, s' :: Progress(s, ev, s')
  }

  lemma {:induction false} LastWaiter<E(!new)>(s: System<E>, waiting: set<nat>) returns (c: nat)
    requires Inv(s) && waiting != {}
    requires forall d :: d in waiting ==> d in s.callers && s.callers[d].phase.Waiting?
    ensures c in waiting
    ensures forall d :: d in waiting ==> !Less(Awaited(s.callers[c]), Awaited(s.callers[d]))
    decreases waiting
  {
    var x :| x in waiting;
    if waiting == {x} {
      c := x;
      LessIrreflexive(Awaited(s.callers[c]));
    } else {
      assert waiting - {x} != {};
      c := LastWaiter(s, waiting - {x});
      var a, b := Awaited(s.callers[c]), Awaited(s.callers[x]);
      if Less(a, b) {
        forall d | d in waiting ensures !Less(b, Awaited(s.callers[d])) {
          LessIrreflexive(b);
          if d != x && Less(b, Awaited(s.callers[d])) {
            LessTransitive(a, b, Awaited(s.callers[d]));
          }
        }
        c := x;
      } else {
        assert forall d :: d in waiting ==> d == x || d in waiting - {x};
      }
    }
  }

  function Awaited<E(!new)>(me: Caller<E>): (k: string) {
    if me.phase.Waiting? && me.phase.taken < |me.keys| then me.keys[me.phase.taken] else ""
  }

  /** A waiting owner of a key waits for a greater one: the keys are taken in order. */
  lemma OwnerAwaitsMore<E(!new)>(me: Caller<E>, k: string)
    requires WellFormed(me) && me.phase.Waiting? && Owns(me, k)
    ensures Less(k, Awaited(me))
  {
    var i :| 0 <= i < |me.keys| && me.keys[i] == k && OwnsAt(me, i);
    assert Less(me.keys[i], me.keys[me.phase.taken]);
  }

  /** Whoever waits for the greatest key finds its token in the channel: an owner of that key would have
      to wait for a greater one. */
  lemma LastWaiterCanTake<E(!new)>(s: System<E>, c: nat)
    requires Inv(s) && c in s.callers && s.callers[c].phase.Waiting?
    requires forall d :: d in s.callers ==> s.callers[d].phase.Waiting? || s.callers[d].phase.Done?
    requires forall d :: d in s.callers && s.callers[d].phase.Waiting? ==>
      !Less(Awaited(s.callers[c]), Awaited(s.callers[d]))
    ensures var e := s.callers[c].ents[s.callers[c].phase.taken];
      e in s.mgr.store && s.mgr.store[e].tokens > 0
  {
    var me := s.callers[c];
    var k := Awaited(me);
    assert RefersAt(me, me.phase.taken);
    assert s.mgr.entries[k] == me.ents[me.phase.taken];
    assert Counted(s, k);
    forall d | d in s.callers ensures !Owns(s.callers[d], k) {
      if Owns(s.callers[d], k) && s.callers[d].phase.Waiting? {
        OwnerAwaitsMore(s.callers[d], k);
      }
    }
    assert Owners(s, k) == {};
  }

  function DropEntries<E(==)>(m: Manager<E>, keys: seq<string>, ents: seq<E>): Manager<E>
    requires forall e :: e in ents ==> e in m.store
  {
    var store := map e | e in m.store ::
      if e in ents then Entry(m.store[e].refs - 1, m.store[e].tokens) else m.store[e];
    Manager(map k | k in m.entries && (k in keys && m.entries[k] in store ==> store[m.entries[k]].refs > 0) ::
              m.entries[k],
            store)
  }

  lemma DropPossible<E(!new)>(s: System<E>, c: nat, lo: nat, hi: nat)
    requires Inv(s) && c in s.callers && lo <= hi <= |s.callers[c].keys|
    requires forall j :: lo <= j < hi ==> RefersAt(s.callers[c], j)
    ensures var me := s.callers[c];
      && (forall e :: e in me.ents[lo..hi] ==> e in s.mgr.store)
      && Dropped(s.mgr, DropEntries(s.mgr, me.keys[lo..hi], me.ents[lo..hi]), me.keys[lo..hi], me.ents[lo..hi])
  {
    var me := s.callers[c];
    var keys, ents := me.keys[lo..hi], me.ents[lo..hi];
    forall i | 0 <= i < |keys|
      ensures keys[i] in s.mgr.entries && s.mgr.entries[keys[i]] == ents[i] && ents[i] in s.mgr.store
    {
      assert keys[i] == me.keys[lo + i] && ents[i] == me.ents[lo + i] && RefersAt(me, lo + i);
      assert SameEntries(s.mgr, me);
    }
  }

  function WithPhase<E(!new)>(s: System<E>, mgr: Manager<E>, c: nat, phase: Phase): System<E>
    requires c in s.callers
  {
    System(mgr, s.callers[c := s.callers[c].(phase := phase)])
  }

  lemma DropCanStep<E(!new)>(s: System<E>, c: nat) returns (s': System<E>)
    requires Inv(s) && c in s.callers
    requires s.callers[c].phase.Returning? && s.callers[c].phase.left == 0
    ensures Step(s, Drop(c), s')
  {
    var me := s.callers[c];
    var owned := me.phase.owned;
    DropPossible(s, c, 0, owned);
    assert me.keys[0..owned] == me.keys[..owned] && me.ents[0..owned] == me.ents[..owned];
    s' := WithPhase(s, DropEntries(s.mgr, me.keys[..owned], me.ents[..owned]), c,
      if owned < |me.keys| then DroppingRest(owned) else Done);
  }

  lemma DropRestCanStep<E(!new)>(s: System<E>, c: nat) returns (s': System<E>)
    requires Inv(s) && c in s.callers && s.callers[c].phase.DroppingRest?
    ensures Step(s, DropRest(c), s')
  {
    var me := s.callers[c];
    var owned := me.phase.owned;
    DropPossible(s, c, owned, |me.keys|);
    assert me.keys[owned..|me.keys|] == me.keys[owned..] && me.ents[owned..|me.keys|] == me.ents[owned..];
    s' := WithPhase(s, DropEntries(s.mgr, me.keys[owned..], me.ents[owned..]), c, Done);
  }

  lemma ReturnCanStep<E(!new)>(s: System<E>, c: nat) returns (s': System<E>)
    requires Inv(s) && c in s.callers
    requires s.callers[c].phase.Returning? && s.callers[c].phase.left > 0
    ensures Step(s, Return(c), s')
  {
    var me := s.callers[c];
    var left: nat := me.phase.left - 1;
    ReturnNeverBlocks(s, c);
    s' := WithPhase(s, WithTokens(s.mgr, me.ents[left], 1), c, Returning(me.phase.owned, left));
  }

  /** A caller past its waiting can always move on by itself. */
  lemma ActiveCanStep<E(!new)>(s: System<E>, c: nat) returns (ev: Event<E>, s': System<E>)
    requires Inv(s) && c in s.callers
    requires !s.callers[c].phase.Waiting? && !s.callers[c].phase.Done?
    ensures Progress(s, ev, s')
  {
    if s.callers[c].phase.Holding? {
      ev := Release(c);
      s' := WithPhase(s, s.mgr, c, Returning(|s.callers[c].ents|, |s.callers[c].ents|));
    } else if s.callers[c].phase.DroppingRest? {
      ev := DropRest(c);
      s' := DropRestCanStep(s, c);
    } else if s.callers[c].phase.left == 0 {
      ev := Drop(c);
      s' := DropCanStep(s, c);
    } else {
      ev := Return(c);
      s' := ReturnCanStep(s, c);
    }
  }

  /** When everybody waits or is done, the caller that waits for the greatest key can take it. */
  lemma SomeWaiterCanStep<E(!new)>(s: System<E>, w: nat) returns (c: nat, s': System<E>)
    requires Inv(s) && w in s.callers && !s.callers[w].phase.Done?
    requires forall d :: d in s.callers ==> s.callers[d].phase.Waiting? || s.callers[d].phase.Done?
    ensures Step(s, Take(c), s')
  {
    var waiting := set d | d in s.callers && s.callers[d].phase.Waiting?;
    assert w in waiting;
    c := LastWaiter(s, waiting);
    LastWaiterCanTake(s, c);
    var me := s.callers[c];
    var e := me.ents[me.phase.taken];
    s' := WithPhase(s, WithTokens(s.mgr, e, s.mgr.store[e].tokens - 1), c,
      if me.phase.taken + 1 < |me.ents| then Waiting(me.phase.taken + 1) else Holding);
  }

  /** While any caller is unfinished some caller can step, without any cancellation. */
  lemma SomeoneCanStep<E(!new)>(s: System<E>, w: nat) returns (ev: Event<E>, s': System<E>)
    requires Inv(s) && w in s.callers && !s.callers[w].phase.Done?
    ensures Progress(s, ev, s')
  {
    if c :| c in s.callers && !s.callers[c].phase.Waiting? && !s.callers[c].phase.Done? {
      ev, s' := ActiveCanStep(s, c);
    } else {
      var c;
      c, s' := SomeWaiterCanStep(s, w);
      ev := Take(c);
    }
  }

  lemma ProgressMovesUnfinished<E(!new)>(s: System<E>, ev: Event<E>, s': System<E>)
    requires Progress(s, ev, s')
    ensures ev.c in s.callers && !s.callers[ev.c].phase.Done?
  {
  }

  /** Deadlock freedom, both ways: a reachable state is stuck exactly when everybody is done. */
  lemma DeadlockFree<E(!new)>(s: System<E>)
    requires Reachable(s)
    ensures CanProgress(s) <==> exists c :: c in s.callers && !s.callers[c].phase.Done?
  {
    ReachableInv(s);
    if w :| w in s.callers && !s.callers[w].phase.Done? {
      var ev, s' := SomeoneCanStep(s, w);
    }
    if CanProgress(s) {
      var ev, s' :| Progress(s, ev, s');
      ProgressMovesUnfinished(s, ev, s');
    }
  }

  // ---------------------------------------------------------------- every episode ends

  function Work<E(!new)>(me: Caller<E>): (n: int) {
    match me.phase
    case Waiting(taken) => 3 + 2 * |me.keys| - taken
    case Holding => 3 + |me.keys|
    case Returning(_, left) => 2 + left
    case DroppingRest(_) => 1
    case Done => 0
  }

  /** The steps still to do, summed over the callers below `n`. */
  function TotalWork<E(!new)>(callers: map<nat, Caller<E>>, n: nat): int {
    if n == 0 then 0
    else TotalWork(callers, n - 1) + (if n - 1 in callers then Work(callers[n - 1]) else 0)
  }

  lemma {:induction false} TotalWorkUpdate<E(!new)>(callers: map<nat, Caller<E>>, c: nat, me: Caller<E>, n: nat)
    requires c in callers
    ensures TotalWork(callers[c := me], n) ==
      TotalWork(callers, n) + (if c < n then Work(me) - Work(callers[c]) else 0)
  {
    if n > 0 {
      TotalWorkUpdate(callers, c, me, n - 1);
    }
  }

  lemma {:induction false} TotalWorkNonNegative<E(!new)>(s: System<E>, n: nat)
    requires Inv(s)
    ensures TotalWork(s.callers, n) >= 0
  {
    if n > 0 {
      TotalWorkNonNegative(s, n - 1);
      if n - 1 in s.callers {
        assert WellFormed(s.callers[n - 1]);
      }
    }
  }

  /** A progress step or a cancellation moves one caller, which then has less to do. */
  lemma WorkOfStep<E(!new)>(s: System<E>, ev: Event<E>, s': System<E>)
    requires Inv(s) && Step(s, ev, s') && (ev.Cancel? || Progress(s, ev, s'))
    ensures ev.c in s.callers && ev.c in s'.callers
    ensures s'.callers == s.callers[ev.c := s'.callers[ev.c]]
    ensures Work(s'.callers[ev.c]) < Work(s.callers[ev.c])
  {
    hide Registered, Dropped, MapOk, Counted, SameEntries;
    assert WellFormed(s.callers[ev.c]);
    hide Inv;
    match ev
    case Register(_, _, _) =>
    case Take(_) =>
    case Cancel(_) =>
    case Release(_) =>
    case Return(_) =>
    case Drop(_) =>
    case DropRest(_) =>
  }

  /** Every progress step, and every cancellation, leaves strictly less to do. */
  lemma WorkDecreases<E(!new)>(s: System<E>, ev: Event<E>, s': System<E>, n: nat)
    requires Inv(s) && Step(s, ev, s') && (ev.Cancel? || Progress(s, ev, s'))
    requires forall c :: c in s.callers ==> c < n
    ensures TotalWork(s'.callers, n) < TotalWork(s.callers, n)
    ensures s'.callers.Keys == s.callers.Keys
  {
    WorkOfStep(s, ev, s');
    TotalWorkUpdate(s.callers, ev.c, s'.callers[ev.c], n);
  }

  /** A stretch of a run in which nobody arrives and no closure is called twice. */
  ghost predicate Episode<E(!new)>(states: seq<System<E>>, events: seq<Event<E>>) {
    && |states| == |events| + 1
    && forall i :: 0 <= i < |events| ==>
         Step(states[i], events[i], states[i + 1])
           && (events[i].Cancel? || Progress(states[i], events[i], states[i + 1]))
  }

  /** No such stretch is longer than the work it starts with: nobody can be kept waiting forever. */
  lemma {:induction false} EpisodesAreFinite<E(!new)>(states: seq<System<E>>, events: seq<Event<E>>, n: nat)
    requires Episode(states, events) && Inv(states[0])
    requires forall c :: c in states[0].callers ==> c < n
    ensures |events| <= TotalWork(states[0].callers, n)
    decreases |events|
  {
    TotalWorkNonNegative(states[0], n);
    hide Step, Progress, Inv, TotalWork;
    if events != [] {
      EpisodeAfter(states, events);
      StepKeeps(states[0], events[0], states[1]);
      WorkDecreases(states[0], events[0], states[1], n);
      EpisodesAreFinite(states[1..], events[1..], n);
    }
  }

  /** And from every state some schedule brings everybody to the end, with the entry map empty. */
  lemma {:induction false} CanFinish<E(!new)>(s: System<E>, n: nat)
    returns (states: seq<System<E>>, events: seq<Event<E>>)
    requires Inv(s) && forall c :: c in s.callers ==> c < n
    ensures Episode(states, events) && states[0] == s
    ensures forall c :: c in states[|events|].callers ==> states[|events|].callers[c].phase.Done?
    ensures states[|events|].mgr.entries == map[]
    decreases TotalWork(s.callers, n)
  {
    TotalWorkNonNegative(s, n);
    hide Step, Inv, TotalWork;
    if w :| w in s.callers && !s.callers[w].phase.Done? {
      var ev, s' := SomeoneCanStep(s, w);
      ProgressIsStep(s, ev, s');
      StepKeeps(s, ev, s');
      WorkDecreases(s, ev, s', n);
      TotalWorkNonNegative(s', n);
      var rest, more := CanFinish(s', n);
      EpisodeBefore(s, ev, rest, more);
      states, events := [s] + rest, [ev] + more;
    } else {
      states, events := [s], [];
      EmptyWhenDone(s);
    }
  }

  lemma ProgressIsStep<E(!new)>(s: System<E>, ev: Event<E>, s': System<E>)
    requires Progress(s, ev, s')
    ensures Step(s, ev, s')
  {
  }

  lemma EpisodeBefore<E(!new)>(s: System<E>, ev: Event<E>, states: seq<System<E>>, events: seq<Event<E>>)
    requires Episode(states, events) && Progress(s, ev, states[0])
    ensures Episode([s] + states, [ev] + events)
    ensures ([s] + states)[|events| + 1] == states[|events|]
  {
    hide Step;
    ProgressIsStep(s, ev, states[0]);
    hide Progress;
    var all, steps := [s] + states, [ev] + events;
    forall i | 0 <= i < |steps|
      ensures Step(all[i], steps[i], all[i + 1]) && (steps[i].Cancel? || Progress(all[i], steps[i], all[i + 1]))
    {
      if i > 0 {
        assert all[i] == states[i - 1] && all[i + 1] == states[i] && steps[i] == events[i - 1];
      }
    }
  }

  lemma EpisodeAfter<E(!new)>(states: seq<System<E>>, events: seq<Event<E>>)
    requires Episode(states, events) && events != []
    ensures Episode(states[1..], events[1..])
    ensures Step(states[0], events[0], states[1]) && (events[0].Cancel? || Progress(states[0], events[0], states[1]))
  {
    hide Step, Progress;
  }
}
