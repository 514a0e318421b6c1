/** The multi-key lock of internal/tools/locks.go as a step system: any number of callers, interleaved at
    mutex sections and channel operations. `E` is the identity of a lock entry; identities are never
    reused, because an entry deleted at zero references is later replaced by a fresh object. */
module LockProtocol {
  import opened KeyOrder

  /** refs is the reference count, tokens the number of tokens in the one-slot channel. */
  datatype Entry = Entry(refs: int, tokens: nat)

  /** `entries` is the guarded map; `store` holds every entry ever made, in the map or not. */
  datatype Manager<E> = Manager(entries: map<string, E>, store: map<E, Entry>)

  datatype Phase =
    | Waiting(taken: nat)               // blocked in the select for entry number `taken`
    | Holding                           // Acquire returned the release closure
    | Returning(owned: nat, left: nat)  // giving back tokens left-1 .. 0 of the `owned` it had
    | DroppingRest(owned: nat)          // cancelled: references from `owned` on still to be dropped
    | Done

  datatype Caller<E> = Caller(keys: seq<string>, ents: seq<E>, phase: Phase)

  datatype System<E> = System(mgr: Manager<E>, callers: map<nat, Caller<E>>)

  datatype Event<E> =
    | Register(c: nat, keys: seq<string>, ents: seq<E>)
    | Take(c: nat)
    | Cancel(c: nat)
    | Release(c: nat)
    | Return(c: nat)
    | Drop(c: nat)
    | DropRest(c: nat)

  // ---------------------------------------------------------------- the two mutex sections

  /** Each key's entry is the map's, or a new object if the map has none. */
  ghost predicate Chosen<E>(m: Manager<E>, keys: seq<string>, ents: seq<E>) {
    && |ents| == |keys|
    && (forall i, j :: 0 <= i < j < |ents| ==> ents[i] != ents[j])
    && (forall i :: 0 <= i < |keys| ==>
          if keys[i] in m.entries then ents[i] == m.entries[keys[i]] else ents[i] !in m.store)
  }

  ghost predicate Mapped<E>(entries: map<string, E>, entries': map<string, E>, keys: seq<string>, ents: seq<E>) {
    && |ents| == |keys|
    && entries'.Keys == entries.Keys + (set k | k in keys)
    && (forall i :: 0 <= i < |keys| ==> entries'[keys[i]] == ents[i])
    && (forall k :: k in entries && k !in keys ==> entries'[k] == entries[k])
  }

  ghost predicate Referenced<E>(store: map<E, Entry>, store': map<E, Entry>, ents: seq<E>) {
    && store'.Keys == store.Keys + (set e | e in ents)
    && (forall e :: e in store && e !in ents ==> store'[e] == store[e])
    && (forall i :: 0 <= i < |ents| ==>
          store'[ents[i]] ==
          if ents[i] in store then Entry(store[ents[i]].refs + 1, store[ents[i]].tokens) else Entry(1, 1))
  }

  ghost predicate Registered<E>(m: Manager<E>, m': Manager<E>, keys: seq<string>, ents: seq<E>) {
    && Chosen(m, keys, ents)
    && Mapped(m.entries, m'.entries, keys, ents)
    && Referenced(m.store, m'.store, ents)
  }

  ghost predicate Dropped<E>(m: Manager<E>, m': Manager<E>, keys: seq<string>, ents: seq<E>) {
    && |ents| == |keys|
    && (forall i :: 0 <= i < |ents| ==> ents[i] in m.store)
    && m'.store.Keys == m.store.Keys
    && (forall e :: e in m.store && e !in ents ==> m'.store[e] == m.store[e])
    && (forall i :: 0 <= i < |ents| ==>
          m'.store[ents[i]] == Entry(m.store[ents[i]].refs - 1, m.store[ents[i]].tokens))
    && (forall k :: k in m'.entries ==> k in m.entries && m'.entries[k] == m.entries[k])
    && (forall k :: k in m.entries && k !in keys ==> k in m'.entries)
    && (forall i :: 0 <= i < |keys| && keys[i] in m.entries ==>
          (keys[i] in m'.entries <==> m'.store[ents[i]].refs > 0))
  }

  function WithTokens<E(==)>(m: Manager<E>, e: E, tokens: nat): Manager<E>
    requires e in m.store
  {
    m.(store := m.store[e := m.store[e].(tokens := tokens)])
  }

  // ---------------------------------------------------------------- steps

  ghost predicate CallerAfter<E>(s: System<E>, s': System<E>, c: nat, phase: Phase)
    requires c in s.callers
  {
    s'.callers == s.callers[c := s.callers[c].(phase := phase)]
  }

  ghost predicate Step<E>(s: System<E>, ev: Event<E>, s': System<E>) {
    match ev
    case Register(c, keys, ents) =>
      && c !in s.callers && keys != [] && StrictlySorted(keys)
      && Registered(s.mgr, s'.mgr, keys, ents)
      && s'.callers == s.callers[c := Caller(keys, ents, Waiting(0))]
    case Take(c) =>
      && c in s.callers
      && var me := s.callers[c];
      && me.phase.Waiting? && me.phase.taken < |me.ents|
      && var e := me.ents[me.phase.taken];
      && e in s.mgr.store && s.mgr.store[e].tokens > 0
      && s'.mgr == WithTokens(s.mgr, e, s.mgr.store[e].tokens - 1)
      && CallerAfter(s, s', c,
           if me.phase.taken + 1 < |me.ents| then Waiting(me.phase.taken + 1) else Holding)
    case Cancel(c) =>
      && c in s.callers && s.callers[c].phase.Waiting?
      && s'.mgr == s.mgr
      && CallerAfter(s, s', c, Returning(s.callers[c].phase.taken, s.callers[c].phase.taken))
    case Release(c) =>
      // the closure's `released` flag: only the first call of a holder does anything
      && c in s.callers
      && s'.mgr == s.mgr
      && (if s.callers[c].phase.Holding?
          then CallerAfter(s, s', c, Returning(|s.callers[c].ents|, |s.callers[c].ents|))
          else s'.callers == s.callers)
    case Return(c) =>
      && c in s.callers
      && var me := s.callers[c];
      && me.phase.Returning? && 0 < me.phase.left <= |me.ents|
      && var e := me.ents[me.phase.left - 1];
      && e in s.mgr.store && s.mgr.store[e].tokens < 1  // a send on a full one-slot channel blocks
      && s'.mgr == WithTokens(s.mgr, e, s.mgr.store[e].tokens + 1)
      && CallerAfter(s, s', c, Returning(me.phase.owned, me.phase.left - 1))
    case Drop(c) =>
      && c in s.callers
      && var me := s.callers[c];
      && me.phase.Returning? && me.phase.left == 0 && me.phase.owned <= |me.keys| == |me.ents|
      && Dropped(s.mgr, s'.mgr, me.keys[..me.phase.owned], me.ents[..me.phase.owned])
      && CallerAfter(s, s', c, if me.phase.owned < |me.keys| then DroppingRest(me.phase.owned) else Done)
    case DropRest(c) =>
      && c in s.callers
      && var me := s.callers[c];
      && me.phase.DroppingRest? && me.phase.owned <= |me.keys| == |me.ents|
      && Dropped(s.mgr, s'.mgr, me.keys[me.phase.owned..], me.ents[me.phase.owned..])
      && CallerAfter(s, s', c, Done)
  }

  /** A run: every state follows from the one before it by one event. */
  ghost predicate Run<E>(states: seq<System<E>>, events: seq<Event<E>>) {
    && |states| == |events| + 1
    && states[0] == System(Manager(map[], map[]), map[])
    && forall i :: 0 <= i < |events| ==> Step(states[i], events[i], states[i + 1])
  }

  // ---------------------------------------------------------------- the invariant

  predicate RefersAt<E>(me: Caller<E>, i: nat) {
    match me.phase
    case DroppingRest(owned) => owned <= i
    case Done => false
    case _ => true
  }

  predicate OwnsAt<E>(me: Caller<E>, i: nat) {
    match me.phase
    case Waiting(taken) => i < taken
    case Holding => true
    case Returning(_, left) => i < left
    case _ => false
  }

  predicate Refers<E>(me: Caller<E>, k: string) {
    exists i :: 0 <= i < |me.keys| && me.keys[i] == k && RefersAt(me, i)
  }

  /** The caller has taken the token of key `k` and not given it back. */
  predicate Owns<E>(me: Caller<E>, k: string) {
    exists i :: 0 <= i < |me.keys| && me.keys[i] == k && OwnsAt(me, i)
  }

  function Referrers<E>(s: System<E>, k: string): set<nat> {
    set c | c in s.callers && Refers(s.callers[c], k)
  }

  function Owners<E>(s: System<E>, k: string): set<nat> {
    set c | c in s.callers && Owns(s.callers[c], k)
  }

  ghost predicate WellFormed<E>(me: Caller<E>) {
    && |me.ents| == |me.keys| > 0 && StrictlySorted(me.keys)
    && match me.phase
       case Waiting(taken) => taken < |me.keys|
       case Returning(owned, left) => left <= owned <= |me.keys|
       case DroppingRest(owned) => owned < |me.keys|
       case _ => true
  }

  /** The entry a caller remembers for a key is the map's entry for that key. */
  ghost predicate SameEntries<E>(m: Manager<E>, me: Caller<E>) {
    forall i :: 0 <= i < |me.keys| && RefersAt(me, i) ==>
      me.keys[i] in m.entries && |me.ents| == |me.keys| && m.entries[me.keys[i]] == me.ents[i]
  }

  ghost predicate MapOk<E>(m: Manager<E>) {
    && (forall k :: k in m.entries ==> m.entries[k] in m.store)
    && (forall k, l :: k in m.entries && l in m.entries && k != l ==> m.entries[k] != m.entries[l])
  }

  /** References are counted exactly, and token plus owner always make one. */
  ghost predicate Counted<E>(s: System<E>, k: string)
    requires k in s.mgr.entries && s.mgr.entries[k] in s.mgr.store
  {
    var entry := s.mgr.store[s.mgr.entries[k]];
    && entry.refs == |Referrers(s, k)| > 0
    && entry.tokens + |Owners(s, k)| == 1
  }

  ghost predicate Inv<E>(s: System<E>) {
    && (forall c :: c in s.callers ==> WellFormed(s.callers[c]) && SameEntries(s.mgr, s.callers[c]))
    && MapOk(s.mgr)
    && (forall k :: k in s.mgr.entries ==> Counted(s, k))
  }

  // ---------------------------------------------------------------- preservation, step by step

  lemma OwnsRefers<E>(me: Caller<E>, k: string)
    requires WellFormed(me) && Owns(me, k)
    ensures Refers(me, k)
  {
    var i :| 0 <= i < |me.keys| && me.keys[i] == k && OwnsAt(me, i);
    assert RefersAt(me, i);
  }

  lemma KeyAt<E>(me: Caller<E>, i: nat)
    requires WellFormed(me) && i < |me.keys|
    ensures Refers(me, me.keys[i]) <==> RefersAt(me, i)
    ensures Owns(me, me.keys[i]) <==> OwnsAt(me, i)
  {
    StrictlySortedDistinct(me.keys);
  }

  /** Only caller `c` moved: every other caller keeps its place in both sets. */
  lemma OneMoved<E>(s: System<E>, s': System<E>, c: nat, me': Caller<E>, k: string)
    requires s'.callers == s.callers[c := me']
    ensures Referrers(s', k) == (Referrers(s, k) - {c}) + (if Refers(me', k) then {c} else {})
    ensures Owners(s', k) == (Owners(s, k) - {c}) + (if Owns(me', k) then {c} else {})
  {
  }

  lemma MovedCounts<E>(s: System<E>, s': System<E>, c: nat, me': Caller<E>, k: string)
    requires s'.callers == s.callers[c := me']
    ensures |Referrers(s', k)| ==
      |Referrers(s, k)| - (if c in Referrers(s, k) then 1 else 0) + (if Refers(me', k) then 1 else 0)
    ensures |Owners(s', k)| == |Owners(s, k)| - (if c in Owners(s, k) then 1 else 0) + (if Owns(me', k) then 1 else 0)
  {
    OneMoved(s, s', c, me', k);
  }

  lemma RegisterKeeps<E>(s: System<E>, s': System<E>, c: nat, keys: seq<string>, ents: seq<E>)
    requires Inv(s) && Step(s, Register(c, keys, ents), s')
    ensures Inv(s')
  {
    var me' := Caller(keys, ents, Waiting(0));
    StrictlySortedDistinct(keys);
    forall d | d in s'.callers ensures WellFormed(s'.callers[d]) && SameEntries(s'.mgr, s'.callers[d]) {
      if d != c {
        var them := s.callers[d];
        assert SameEntries(s.mgr, them);
        forall i | 0 <= i < |them.keys| && RefersAt(them, i)
          ensures them.keys[i] in s'.mgr.entries && s'.mgr.entries[them.keys[i]] == them.ents[i] {
          assert s.mgr.entries[them.keys[i]] == them.ents[i];
          if them.keys[i] in keys {
            var j :| 0 <= j < |keys| && keys[j] == them.keys[i];
            assert s'.mgr.entries[keys[j]] == ents[j];
          }
        }
      }
    }
    RegisterMapOk(s.mgr, s'.mgr, keys, ents);
    forall k | k in s'.mgr.entries ensures Counted(s', k) {
      RegisterCounts(s, s', c, me', k);
    }
  }

  /** What registering does to the entry of one key. */
  lemma RegisterEntryAt<E>(m: Manager<E>, m': Manager<E>, keys: seq<string>, ents: seq<E>, k: string)
    requires MapOk(m) && Registered(m, m', keys, ents) && k in m'.entries
    ensures k !in keys ==> k in m.entries
    ensures k in m.entries ==> m'.entries[k] == m.entries[k]
    ensures m'.entries[k] in m'.store
    ensures k in m.entries ==>
      m'.store[m'.entries[k]] ==
        Entry(m.store[m.entries[k]].refs + (if k in keys then 1 else 0), m.store[m.entries[k]].tokens)
    ensures k !in m.entries ==> m'.store[m'.entries[k]] == Entry(1, 1)
  {
    if k in keys {
      var j :| 0 <= j < |keys| && keys[j] == k;
      assert m'.entries[keys[j]] == ents[j];
    } else {
      EntryElsewhere(m, m', keys, ents, k);
    }
  }

  lemma RegisterCounts<E>(s: System<E>, s': System<E>, c: nat, me': Caller<E>, k: string)
    requires Inv(s) && c !in s.callers && WellFormed(me') && me'.phase == Waiting(0)
    requires Registered(s.mgr, s'.mgr, me'.keys, me'.ents)
    requires s'.callers == s.callers[c := me'] && MapOk(s'.mgr) && k in s'.mgr.entries
    ensures Counted(s', k)
  {
    hide Less, StrictlySorted, Registered, SameEntries;
    RegisterEntryAt(s.mgr, s'.mgr, me'.keys, me'.ents, k);
    MovedCounts(s, s', c, me', k);
    assert c !in Referrers(s, k) && c !in Owners(s, k) && !Owns(me', k);
    assert Refers(me', k) <==> k in me'.keys;
    if k in s.mgr.entries {
      assert Counted(s, k);
    } else {
      NoStrayReferrers(s, k);
    }
  }

  lemma RegisterMapOk<E>(m: Manager<E>, m': Manager<E>, keys: seq<string>, ents: seq<E>)
    requires MapOk(m) && Registered(m, m', keys, ents)
    ensures MapOk(m')
  {
    hide Less, StrictlySorted;
    forall k | k in m'.entries ensures m'.entries[k] in m'.store {
      RegisteredEntry(m, m', keys, ents, k);
    }
    forall k, l | k in m'.entries && l in m'.entries && k != l ensures m'.entries[k] != m'.entries[l] {
      RegisteredEntry(m, m', keys, ents, k);
      RegisteredEntry(m, m', keys, ents, l);
      if k !in keys && l in keys {
        EntryElsewhere(m, m', keys, ents, k);
      } else if k in keys && l !in keys {
        EntryElsewhere(m, m', keys, ents, l);
      }
    }
  }

  lemma RegisteredEntry<E>(m: Manager<E>, m': Manager<E>, keys: seq<string>, ents: seq<E>, k: string)
    requires MapOk(m) && Registered(m, m', keys, ents) && k in m'.entries
    ensures m'.entries[k] in m'.store
    ensures k in keys ==> exists i :: 0 <= i < |keys| && keys[i] == k && m'.entries[k] == ents[i]
    ensures k !in keys ==> k in m.entries && m'.entries[k] == m.entries[k]
  {
    if k in keys {
      var i :| 0 <= i < |keys| && keys[i] == k;
      assert m'.entries[keys[i]] == ents[i];
    } else {
      assert m'.entries[k] == m.entries[k];
    }
  }

  /** A key that is not being registered keeps an entry no registered key uses. */
  lemma EntryElsewhere<E>(m: Manager<E>, m': Manager<E>, keys: seq<string>, ents: seq<E>, k: string)
    requires MapOk(m) && Registered(m, m', keys, ents)
    requires k in m.entries && k !in keys
    ensures m'.entries[k] == m.entries[k] && m.entries[k] !in ents
  {
  }

  /** A key outside the map has neither referrers nor owners. */
  lemma NoStrayReferrers<E>(s: System<E>, k: string)
    requires Inv(s) && k !in s.mgr.entries
    ensures Referrers(s, k) == {} && Owners(s, k) == {}
  {
    forall c | c in s.callers ensures !Refers(s.callers[c], k) && !Owns(s.callers[c], k) {
      assert SameEntries(s.mgr, s.callers[c]);
      if Owns(s.callers[c], k) {
        OwnsRefers(s.callers[c], k);
      }
    }
  }

  /** The common part of the token steps: one caller moves along its own list, one entry changes tokens. */
  lemma TokenStepKeeps<E>(s: System<E>, s': System<E>, c: nat, i: nat, tokens: nat, phase: Phase)
    requires Inv(s) && c in s.callers
    requires i < |s.callers[c].keys| && RefersAt(s.callers[c], i)
    requires s.callers[c].ents[i] in s.mgr.store
    requires s'.mgr == WithTokens(s.mgr, s.callers[c].ents[i], tokens)
    requires CallerAfter(s, s', c, phase)
    requires WellFormed(s'.callers[c])
    requires forall j :: 0 <= j < |s.callers[c].keys| ==> RefersAt(s'.callers[c], j) && RefersAt(s.callers[c], j)
    requires forall j :: 0 <= j < |s.callers[c].keys| && j != i ==>
      (OwnsAt(s'.callers[c], j) <==> OwnsAt(s.callers[c], j))
    requires OwnsAt(s.callers[c], i) != OwnsAt(s'.callers[c], i)
    requires tokens == s.mgr.store[s.callers[c].ents[i]].tokens + (if OwnsAt(s.callers[c], i) then 1 else -1)
    ensures Inv(s')
  {
    var me, me' := s.callers[c], s'.callers[c];
    StrictlySortedDistinct(me.keys);
    assert SameEntries(s.mgr, me);
    assert s.mgr.entries[me.keys[i]] == me.ents[i];
    forall k | k in s'.mgr.entries ensures Counted(s', k) {
      hide StrictlySorted, Less, WellFormed, MapOk;
      TokenStepCounts(s, s', c, i, tokens, phase, k);
    }
  }

  lemma TokenStepCounts<E>(s: System<E>, s': System<E>, c: nat, i: nat, tokens: nat, phase: Phase, k: string)
    requires Inv(s) && c in s.callers && k in s.mgr.entries
    requires i < |s.callers[c].keys| && RefersAt(s.callers[c], i)
    requires s.callers[c].keys[i] in s.mgr.entries && s.mgr.entries[s.callers[c].keys[i]] == s.callers[c].ents[i]
    requires s.callers[c].ents[i] in s.mgr.store
    requires s'.mgr == WithTokens(s.mgr, s.callers[c].ents[i], tokens)
    requires CallerAfter(s, s', c, phase)
    requires WellFormed(s'.callers[c])
    requires forall j :: 0 <= j < |s.callers[c].keys| ==> RefersAt(s'.callers[c], j) && RefersAt(s.callers[c], j)
    requires forall j :: 0 <= j < |s.callers[c].keys| && j != i ==>
      (OwnsAt(s'.callers[c], j) <==> OwnsAt(s.callers[c], j))
    requires OwnsAt(s.callers[c], i) != OwnsAt(s'.callers[c], i)
    requires tokens == s.mgr.store[s.callers[c].ents[i]].tokens + (if OwnsAt(s.callers[c], i) then 1 else -1)
    ensures Counted(s', k)
  {
    var me, me' := s.callers[c], s'.callers[c];
    assert Counted(s, k);
    MovedCounts(s, s', c, me', k);
    KeyAt(me, i);
    KeyAt(me', i);
    SameKeysElsewhere(me, me', i, k);
    if k != me.keys[i] {
      assert s.mgr.entries[k] != me.ents[i];
    }
  }

  lemma SameKeysElsewhere<E>(me: Caller<E>, me': Caller<E>, i: nat, k: string)
    requires WellFormed(me) && WellFormed(me') && me'.keys == me.keys && i < |me.keys|
    requires forall j :: 0 <= j < |me.keys| ==> (RefersAt(me', j) <==> RefersAt(me, j))
    requires forall j :: 0 <= j < |me.keys| && j != i ==> (OwnsAt(me', j) <==> OwnsAt(me, j))
    ensures Refers(me', k) <==> Refers(me, k)
    ensures k != me.keys[i] ==> (Owns(me', k) <==> Owns(me, k))
  {
    if k in me.keys {
      var j :| 0 <= j < |me.keys| && me.keys[j] == k;
      KeyAt(me, j);
      KeyAt(me', j);
    }
  }

  /** The steps that move one caller and leave the manager alone. */
  lemma SilentStepKeeps<E>(s: System<E>, s': System<E>, c: nat, phase: Phase)
    requires Inv(s) && c in s.callers && s'.mgr == s.mgr
    requires CallerAfter(s, s', c, phase) && WellFormed(s'.callers[c])
    requires forall j :: 0 <= j < |s.callers[c].keys| ==>
      (RefersAt(s'.callers[c], j) <==> RefersAt(s.callers[c], j))
        && (OwnsAt(s'.callers[c], j) <==> OwnsAt(s.callers[c], j))
    ensures Inv(s')
  {
    var me, me' := s.callers[c], s'.callers[c];
    assert SameEntries(s.mgr, me);
    forall k | k in s'.mgr.entries ensures Counted(s', k) {
      assert Counted(s, k);
      MovedCounts(s, s', c, me', k);
      SameKeysElsewhere(me, me', 0, k);
      KeyAt(me, 0);
      KeyAt(me', 0);
    }
  }

  /** Dropping the references of the slice [lo, hi), which the caller refers to and owns no token of. */
  lemma DropKeeps<E>(s: System<E>, s': System<E>, c: nat, lo: nat, hi: nat, phase: Phase)
    requires Inv(s) && c in s.callers && lo <= hi <= |s.callers[c].keys|
    requires Dropped(s.mgr, s'.mgr, s.callers[c].keys[lo..hi], s.callers[c].ents[lo..hi])
    requires CallerAfter(s, s', c, phase) && WellFormed(s'.callers[c])
    requires forall j :: 0 <= j < |s.callers[c].keys| ==> !OwnsAt(s.callers[c], j) && !OwnsAt(s'.callers[c], j)
    requires forall j :: 0 <= j < |s.callers[c].keys| ==>
      (RefersAt(s'.callers[c], j) <==> RefersAt(s.callers[c], j) && !(lo <= j < hi))
    requires forall j :: lo <= j < hi ==> RefersAt(s.callers[c], j)
    ensures Inv(s')
  {
    var me, me' := s.callers[c], s'.callers[c];
    assert SameEntries(s.mgr, me);
    forall k | k in s.mgr.entries ensures k in s'.mgr.entries ==> Counted(s', k)
      ensures k !in s'.mgr.entries ==> Referrers(s', k) == {} {
      DropCounts(s, s', c, me', lo, hi, k);
    }
    forall d | d in s'.callers ensures WellFormed(s'.callers[d]) && SameEntries(s'.mgr, s'.callers[d]) {
      var them := s'.callers[d];
      assert SameEntries(s.mgr, s.callers[d]);
      forall i | 0 <= i < |them.keys| && RefersAt(them, i)
        ensures them.keys[i] in s'.mgr.entries && s'.mgr.entries[them.keys[i]] == them.ents[i] {
        assert RefersAt(s.callers[d], i);
        assert s.mgr.entries[them.keys[i]] == them.ents[i];
        KeyAt(them, i);
        assert d in Referrers(s', them.keys[i]);
      }
    }
  }

  /** What dropping does to the entry of one key: one reference fewer if the key is in the slice. */
  lemma DropEntry<E>(m: Manager<E>, m': Manager<E>, me: Caller<E>, lo: nat, hi: nat, k: string)
    requires MapOk(m) && WellFormed(me) && SameEntries(m, me) && lo <= hi <= |me.keys|
    requires Dropped(m, m', me.keys[lo..hi], me.ents[lo..hi])
    requires forall j :: lo <= j < hi ==> RefersAt(me, j)
    requires k in m.entries
    ensures k in me.keys[lo..hi] ==>
      m'.store[m.entries[k]] == Entry(m.store[m.entries[k]].refs - 1, m.store[m.entries[k]].tokens)
    ensures k in me.keys[lo..hi] ==> (k in m'.entries <==> m'.store[m.entries[k]].refs > 0)
    ensures k !in me.keys[lo..hi] ==> k in m'.entries && m'.store[m.entries[k]] == m.store[m.entries[k]]
    ensures k in m'.entries ==> m'.entries[k] == m.entries[k]
  {
    hide Less, StrictlySorted, MapOk, Dropped;
    var keys, ents := me.keys[lo..hi], me.ents[lo..hi];
    forall j | 0 <= j < |keys| ensures keys[j] in m.entries && m.entries[keys[j]] == ents[j] {
      assert keys[j] == me.keys[lo + j] && ents[j] == me.ents[lo + j] && RefersAt(me, lo + j);
    }
    DropEntryAt(m, m', keys, ents, k);
  }

  lemma DropEntryAt<E>(m: Manager<E>, m': Manager<E>, keys: seq<string>, ents: seq<E>, k: string)
    requires MapOk(m) && Dropped(m, m', keys, ents) && k in m.entries
    requires forall j :: 0 <= j < |keys| ==> keys[j] in m.entries && m.entries[keys[j]] == ents[j]
    ensures k in keys ==>
      m'.store[m.entries[k]] == Entry(m.store[m.entries[k]].refs - 1, m.store[m.entries[k]].tokens)
    ensures k in keys ==> (k in m'.entries <==> m'.store[m.entries[k]].refs > 0)
    ensures k !in keys ==> k in m'.entries && m'.store[m.entries[k]] == m.store[m.entries[k]]
    ensures k in m'.entries ==> m'.entries[k] == m.entries[k]
  {
    if k in keys {
      var j :| 0 <= j < |keys| && keys[j] == k;
    } else {
      assert m.entries[k] !in ents;
    }
  }

  lemma DropRefers<E>(me: Caller<E>, me': Caller<E>, lo: nat, hi: nat, k: string)
    requires WellFormed(me) && WellFormed(me') && me'.keys == me.keys && lo <= hi <= |me.keys|
    requires forall j :: 0 <= j < |me.keys| ==> !OwnsAt(me, j) && !OwnsAt(me', j)
    requires forall j :: 0 <= j < |me.keys| ==> (RefersAt(me', j) <==> RefersAt(me, j) && !(lo <= j < hi))
    requires forall j :: lo <= j < hi ==> RefersAt(me, j)
    ensures !Owns(me, k) && !Owns(me', k)
    ensures k in me.keys[lo..hi] ==> Refers(me, k) && !Refers(me', k)
    ensures k !in me.keys[lo..hi] ==> (Refers(me', k) <==> Refers(me, k))
  {
    if k in me.keys {
      var j :| 0 <= j < |me.keys| && me.keys[j] == k;
      KeyAt(me, j);
      KeyAt(me', j);
      assert lo <= j < hi ==> me.keys[lo..hi][j - lo] == k;
      if k in me.keys[lo..hi] {
        var i :| 0 <= i < hi - lo && me.keys[lo..hi][i] == k;
        assert me.keys[lo + i] == k;
        StrictlySortedDistinct(me.keys);
      }
    }
  }

  lemma DropCounts<E>(s: System<E>, s': System<E>, c: nat, me': Caller<E>, lo: nat, hi: nat, k: string)
    requires Inv(s) && c in s.callers && lo <= hi <= |s.callers[c].keys|
    requires Dropped(s.mgr, s'.mgr, s.callers[c].keys[lo..hi], s.callers[c].ents[lo..hi])
    requires s'.callers == s.callers[c := me']
    requires WellFormed(me') && me'.keys == s.callers[c].keys
    requires forall j :: 0 <= j < |me'.keys| ==> !OwnsAt(s.callers[c], j) && !OwnsAt(me', j)
    requires forall j :: 0 <= j < |me'.keys| ==> (RefersAt(me', j) <==> RefersAt(s.callers[c], j) && !(lo <= j < hi))
    requires forall j :: lo <= j < hi ==> RefersAt(s.callers[c], j)
    requires k in s.mgr.entries
    ensures k in s'.mgr.entries ==> s'.mgr.entries[k] == s.mgr.entries[k] && Counted(s', k)
    ensures k !in s'.mgr.entries ==> Referrers(s', k) == {}
  {
    var me := s.callers[c];
    assert Counted(s, k) && SameEntries(s.mgr, me);
    MovedCounts(s, s', c, me', k);
    DropRefers(me, me', lo, hi, k);
    DropEntry(s.mgr, s'.mgr, me, lo, hi, k);
  }

  lemma DropStepKeeps<E>(s: System<E>, c: nat, s': System<E>)
    requires Inv(s) && Step(s, Drop(c), s')
    ensures Inv(s')
  {
    var me := s.callers[c];
    assert me.keys[0..me.phase.owned] == me.keys[..me.phase.owned];
    assert me.ents[0..me.phase.owned] == me.ents[..me.phase.owned];
    DropKeeps(s, s', c, 0, me.phase.owned, s'.callers[c].phase);
  }

  lemma DropRestStepKeeps<E>(s: System<E>, c: nat, s': System<E>)
    requires Inv(s) && Step(s, DropRest(c), s')
    ensures Inv(s')
  {
    var me := s.callers[c];
    assert me.keys[me.phase.owned..|me.keys|] == me.keys[me.phase.owned..];
    assert me.ents[me.phase.owned..|me.keys|] == me.ents[me.phase.owned..];
    DropKeeps(s, s', c, me.phase.owned, |me.keys|, s'.callers[c].phase);
  }

  lemma TakeStepKeeps<E>(s: System<E>, c: nat, s': System<E>)
    requires Inv(s) && Step(s, Take(c), s')
    ensures Inv(s')
  {
    hide Registered, Dropped, Counted;
    var me := s.callers[c];
    TokenStepKeeps(s, s', c, me.phase.taken, s.mgr.store[me.ents[me.phase.taken]].tokens - 1, s'.callers[c].phase);
  }

  lemma ReturnStepKeeps<E>(s: System<E>, c: nat, s': System<E>)
    requires Inv(s) && Step(s, Return(c), s')
    ensures Inv(s')
  {
    hide Registered, Dropped, Counted;
    var me := s.callers[c];
    var i := me.phase.left - 1;
    TokenStepKeeps(s, s', c, i, s.mgr.store[me.ents[i]].tokens + 1, s'.callers[c].phase);
  }

  lemma QuietStepKeeps<E>(s: System<E>, ev: Event<E>, s': System<E>)
    requires Inv(s) && Step(s, ev, s') && (ev.Cancel? || ev.Release?)
    ensures Inv(s')
  {
    if ev.Release? && !s.callers[ev.c].phase.Holding? {
      assert s' == s;
    } else {
      SilentStepKeeps(s, s', ev.c, s'.callers[ev.c].phase);
    }
  }

  /** Every step keeps the invariant. */
  lemma StepKeeps<E>(s: System<E>, ev: Event<E>, s': System<E>)
    requires Inv(s) && Step(s, ev, s')
    ensures Inv(s')
  {
    match ev
    case Register(c, keys, ents) => RegisterKeeps(s, s', c, keys, ents);
    case Take(c) => TakeStepKeeps(s, c, s');
    case Return(c) => ReturnStepKeeps(s, c, s');
    case Drop(c) => DropStepKeeps(s, c, s');
    case DropRest(c) => DropRestStepKeeps(s, c, s');
    case _ => QuietStepKeeps(s, ev, s');
  }

  lemma {:induction false} RunKeeps<E>(states: seq<System<E>>, events: seq<Event<E>>, n: nat)
    requires Run(states, events) && n < |states|
    ensures Inv(states[n])
  {
    if n > 0 {
      RunKeeps(states, events, n - 1);
      StepKeeps(states[n - 1], events[n - 1], states[n]);
    }
  }
}
