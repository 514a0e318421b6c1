/** resourceLockManager and resourceLockEntry as objects: the mutex sections and channel operations of
    internal/tools/locks.go, each tied to the step of LockProtocol it performs. */
module LockManager {
  import opened Options
  import opened KeyOrder
  import opened LockProtocol

  class LockEntry {
    var refs: int
    var tokens: nat  // the one-slot channel: 0 or 1 tokens

    constructor ()
      ensures refs == 0 && tokens == 1
    {
      refs, tokens := 0, 1;
    }
  }

  class ResourceLockManager {
    var entries: map<string, LockEntry>
    ghost var made: set<LockEntry>

    ghost function View(): Manager<LockEntry>
      reads this, made
    {
      Manager(entries, map e | e in made :: Entry(e.refs, e.tokens))
    }

    ghost predicate Valid()
      reads this, made
    {
      MapOk(View())
    }

    constructor ()
      ensures Valid() && View() == Manager(map[], map[])
    {
      entries, made := map[], {};
    }

    /** One round of the registration loop. */
    method RegisterRef(key: string) returns (entry: LockEntry)
      requires Valid()
      modifies this, made
      ensures Valid() && old(made) <= made && fresh(made - old(made))
      ensures RegisteredOne(old(View()), View(), key, entry)
    {
      if key in entries {
        entry := entries[key];
      } else {
        entry := new LockEntry();
        made := made + {entry};
        entries := entries[key := entry];
      }
      entry.refs := entry.refs + 1;
      assert View().entries == old(View()).entries[key := entry];
      assert forall e :: e in old(made) && e != entry ==> e.refs == old(e.refs) && e.tokens == old(e.tokens);
    }

    /** The first mutex section of Acquire: one reference on each key's entry, which is made if missing. */
    method RegisterRefs(normalized: seq<string>) returns (ents: seq<LockEntry>)
      requires Valid() && StrictlySorted(normalized)
      modifies this, made
      ensures Valid() && fresh(made - old(made))
      ensures Registered(old(View()), View(), normalized, ents)
    {
      hide Registered, RegisteredOne, Less;
      ents := [];
      StrictlySortedDistinct(normalized);
      RegisterNone(View());
      for i := 0 to |normalized|
        invariant Valid() && old(made) <= made && fresh(made - old(made))
        invariant Registered(old(View()), View(), normalized[..i], ents)
      {
        ghost var before := View();
        var entry := RegisterRef(normalized[i]);
        RegisterOneMore(old(View()), before, View(), normalized[..i], ents, normalized[i], entry);
        ents := ents + [entry];
        assert normalized[..i + 1] == normalized[..i] + [normalized[i]];
      }
      assert normalized[..|normalized|] == normalized;
    }

    /** The receive in Acquire's select; it can only fire when a token is there. */
    method Take(entry: LockEntry)
      requires entry in made && entry.tokens > 0
      modifies entry
      ensures View() == WithTokens(old(View()), entry, old(entry.tokens) - 1)
    {
      entry.tokens := entry.tokens - 1;
    }

    /** One send of releaseEntries; a second token would block. */
    method GiveBack(entry: LockEntry)
      requires entry in made && entry.tokens == 0
      modifies entry
      ensures View() == WithTokens(old(View()), entry, 1)
    {
      entry.tokens := entry.tokens + 1;
    }

    /** One round of the loop of releaseRefs. */
    method ReleaseRef(key: string, entry: LockEntry)
      requires Valid() && entry in made
      modifies this, entry
      ensures Valid() && made == old(made)
      ensures DroppedOne(old(View()), View(), key, entry)
    {
      entry.refs := entry.refs - 1;
      if entry.refs <= 0 {
        entries := entries - {key};
      }
      assert forall e :: e in made && e != entry ==> e.refs == old(e.refs) && e.tokens == old(e.tokens);
    }

    /** releaseRefs: one reference fewer on each entry, and entries nobody refers to leave the map. */
    method ReleaseRefs(keys: seq<string>, ents: seq<LockEntry>)
      requires Valid() && |keys| == |ents| && StrictlySorted(keys)
      requires forall i :: 0 <= i < |ents| ==> ents[i] in made
      requires forall i, j :: 0 <= i < j < |ents| ==> ents[i] != ents[j]
      modifies this, made
      ensures Valid() && made == old(made)
      ensures Dropped(old(View()), View(), keys, ents)
    {
      hide Dropped, DroppedOne, Less;
      StrictlySortedDistinct(keys);
      DropNone(View());
      for i := 0 to |keys|
        invariant Valid() && made == old(made)
        invariant Dropped(old(View()), View(), keys[..i], ents[..i])
      {
        ghost var before := View();
        ReleaseRef(keys[i], ents[i]);
        DropOneMore(old(View()), before, View(), keys[..i], ents[..i], keys[i], ents[i]);
        assert keys[..i + 1] == keys[..i] + [keys[i]];
        assert ents[..i + 1] == ents[..i] + [ents[i]];
      }
      assert keys[..|keys|] == keys && ents[..|ents|] == ents;
    }

    /** releaseEntries of a caller that owns all the tokens it is asked to give back. */
    method ReleaseEntries(keys: seq<string>, ents: seq<LockEntry>)
      requires Valid() && |keys| == |ents| && StrictlySorted(keys)
      requires forall i :: 0 <= i < |ents| ==> ents[i] in made && ents[i].tokens == 0
      requires forall i, j :: 0 <= i < j < |ents| ==> ents[i] != ents[j]
      modifies this, made
      ensures Valid() && made == old(made)
      ensures Dropped(Filled(old(View()), ents), View(), keys, ents)
    {
      hide Dropped, Less;
      var idx := |ents|;
      assert Filled(View(), ents[idx..]) == View();
      while idx > 0
        invariant 0 <= idx <= |ents|
        invariant made == old(made) && entries == old(entries)
        invariant View() == Filled(old(View()), ents[idx..])
        invariant forall i :: 0 <= i < idx ==> ents[i].tokens == 0
      {
        idx := idx - 1;
        GiveBack(ents[idx]);
        assert ents[idx..] == [ents[idx]] + ents[idx + 1..];
      }
      assert ents[0..] == ents;
      ReleaseRefs(keys, ents);
    }

    /** The select's other branch: tokens and references of the first `acquired` entries back, then the other
        references. */
    method Abandon(keys: seq<string>, ents: seq<LockEntry>, acquired: nat)
      requires Valid() && acquired <= |keys| == |ents| && StrictlySorted(keys)
      requires forall i :: 0 <= i < |ents| ==> ents[i] in made && (i < acquired ==> ents[i].tokens == 0)
      requires forall i, j :: 0 <= i < j < |ents| ==> ents[i] != ents[j]
      modifies this, made
      ensures Valid() && made == old(made)
      ensures Dropped(Filled(old(View()), ents[..acquired]), View(), keys, ents)
    {
      hide Dropped, Less, Filled;
      ReleaseEntries(keys[..acquired], ents[..acquired]);
      ghost var half := View();
      ReleaseRefs(keys[acquired..], ents[acquired..]);
      DropBothParts(Filled(old(View()), ents[..acquired]), half, View(), keys, ents, acquired);
    }

    /** Acquire while nobody else moves. `done` says for which keys the select finds the context done first; without a
        token nothing else can end the wait. A cancelled call leaves every entry as it was, and its own new ones gone;
        a successful one owns the token of each key until its closure is called. */
    method Acquire(keys: seq<string>, done: set<string>) returns (release: Option<ReleaseClosure>)
      requires Valid() && Healthy(View())
      modifies this, made
      ensures Valid() && fresh(made - old(made))
      ensures release.Some? <==> forall k :: k in Wanted(keys) ==> k !in done && Free(old(View()), k)
      ensures release.None? ==> Restored(old(View()), View())
      ensures release.Some? ==>
        && fresh(release.value) && release.value.manager == this
        && !release.value.released && release.value.OwnsTokens()
        && (forall k :: k in release.value.normalized <==> k in Wanted(keys))
        && Registered(old(View()), Filled(View(), release.value.ents), release.value.normalized, release.value.ents)
    {
      hide Registered, Dropped, Less, Wanted, Restored, Healthy, Filled, Emptied, Free, MapOk, StrictlySorted;
      ghost var start := View();
      var normalized := NormalizeResourceKeys(keys);
      var ents := RegisterRefs(normalized);
      ghost var mid := View();
      RegisteredEntries(start, mid, normalized, ents);
      var acquired := 0;
      EmptiedEntries(mid, ents, 0);
      while acquired < |ents|
        invariant 0 <= acquired <= |ents| && fresh(made - old(made)) && made == mid.store.Keys
        invariant Valid() && MapOk(mid) && View() == Emptied(mid, ents[..acquired])
        invariant forall i :: 0 <= i < acquired ==> normalized[i] !in done && Free(start, normalized[i])
      {
        var entry := ents[acquired];
        EmptiedEntries(mid, ents, acquired);
        if normalized[acquired] in done || entry.tokens == 0 {
          FilledEmptied(mid, ents, acquired);
          Abandon(normalized, ents, acquired);
          DropUndoesRegister(start, mid, View(), normalized, ents);
          return None;
        }
        Take(entry);
        EmptiedOneMore(mid, ents, acquired);
        acquired := acquired + 1;
        EmptiedEntries(mid, ents, acquired);
      }
      assert ents[..|ents|] == ents;
      EmptiedEntries(mid, ents, |ents|);
      FilledEmptied(mid, ents, |ents|);
      var closure := new ReleaseClosure(this, normalized, ents);
      release := Some(closure);
    }
  }

  /** The function Acquire returns, with the variables it closes over. */
  class ReleaseClosure {
    const manager: ResourceLockManager
    const normalized: seq<string>
    const ents: seq<LockEntry>
    var released: bool

    constructor (manager: ResourceLockManager, normalized: seq<string>, ents: seq<LockEntry>)
      ensures this.manager == manager && this.normalized == normalized && this.ents == ents && !released
    {
      this.manager, this.normalized, this.ents := manager, normalized, ents;
      released := false;
    }

    /** The caller owns the tokens of its entries. */
    ghost predicate OwnsTokens()
      reads this, manager, manager.made
    {
      && manager.Valid() && |normalized| == |ents| && StrictlySorted(normalized)
      && (forall i :: 0 <= i < |ents| ==> ents[i] in manager.made && ents[i].tokens == 0)
      && (forall i, j :: 0 <= i < j < |ents| ==> ents[i] != ents[j])
    }

    /** The first call gives everything back; any later one leaves the map, the reference counts and the tokens as
        they are, whoever owns them by then. */
    method Release()
      requires !released ==> OwnsTokens()
      modifies this, manager, manager.made
      ensures released && manager.made == old(manager.made)
      ensures if old(released) then manager.View() == old(manager.View())
              else manager.Valid() && Dropped(Filled(old(manager.View()), ents), manager.View(), normalized, ents)
    {
      hide Dropped;
      if released {
        return;
      }
      released := true;
      manager.ReleaseEntries(normalized, ents);
    }
  }

  /** The manager with a token put back into each of `ents`. */
  ghost function Filled<E>(m: Manager<E>, ents: seq<E>): Manager<E> {
    m.(store := map e | e in m.store :: if e in ents then m.store[e].(tokens := 1) else m.store[e])
  }

  /** The manager without the tokens of `ents`. */
  ghost function Emptied<E>(m: Manager<E>, ents: seq<E>): Manager<E> {
    m.(store := map e | e in m.store :: if e in ents then m.store[e].(tokens := 0) else m.store[e])
  }

  /** An entry in the map is referred to, and holds at most one token, as in every reachable state. */
  ghost predicate Healthy<E>(m: Manager<E>) {
    forall k :: k in m.entries && m.entries[k] in m.store ==>
      m.store[m.entries[k]].refs > 0 && m.store[m.entries[k]].tokens <= 1
  }

  /** Nobody has the key's token. */
  ghost predicate Free<E>(m: Manager<E>, key: string) {
    key in m.entries && m.entries[key] in m.store ==> m.store[m.entries[key]].tokens > 0
  }

  /** The map is what it was, and so is every entry made before. */
  ghost predicate Restored<E>(m: Manager<E>, m': Manager<E>) {
    m'.entries == m.entries && forall e :: e in m.store ==> e in m'.store && m'.store[e] == m.store[e]
  }

  /** What registration leaves in the entries: whose token is there, and never two. */
  lemma RegisteredEntries<E>(m: Manager<E>, m': Manager<E>, keys: seq<string>, ents: seq<E>)
    requires MapOk(m) && Healthy(m) && Registered(m, m', keys, ents)
    ensures |ents| == |keys| && (forall i, j :: 0 <= i < j < |ents| ==> ents[i] != ents[j])
    ensures forall i :: 0 <= i < |ents| ==>
      ents[i] in m'.store && m'.store[ents[i]].tokens == if Free(m, keys[i]) then 1 else 0
  {
  }

  lemma EmptiedEntries<E>(m: Manager<E>, ents: seq<E>, n: nat)
    requires n <= |ents| && (forall i, j :: 0 <= i < j < |ents| ==> ents[i] != ents[j])
    requires forall i :: 0 <= i < |ents| ==> ents[i] in m.store
    ensures var m' := Emptied(m, ents[..n]);
      && m'.store.Keys == m.store.Keys && m'.entries == m.entries && (n == 0 ==> m' == m) && (MapOk(m) ==> MapOk(m'))
      && forall i :: 0 <= i < |ents| ==> m'.store[ents[i]].tokens == if i < n then 0 else m.store[ents[i]].tokens
  {
    assert n == 0 ==> Emptied(m, ents[..n]).store == m.store;
  }

  lemma FilledEmptied<E>(m: Manager<E>, ents: seq<E>, n: nat)
    requires n <= |ents| && forall i :: 0 <= i < n ==> ents[i] in m.store && m.store[ents[i]].tokens == 1
    ensures Filled(Emptied(m, ents[..n]), ents[..n]) == m
  {
    assert forall e :: e in ents[..n] ==> e in m.store && m.store[e].tokens == 1;
    assert Filled(Emptied(m, ents[..n]), ents[..n]).store == m.store;
  }

  lemma EmptiedOneMore<E>(m: Manager<E>, ents: seq<E>, n: nat)
    requires n < |ents| && ents[n] in m.store
    ensures WithTokens(Emptied(m, ents[..n]), ents[n], 0) == Emptied(m, ents[..n + 1])
  {
    assert ents[..n + 1] == ents[..n] + [ents[n]];
  }

  /** Where a key or an entry stands when the lists are cut at `n`. */
  lemma InOneHalf<T>(all: seq<T>, i: nat, n: nat)
    requires n <= |all| && i < |all| && (forall a, b :: 0 <= a < b < |all| ==> all[a] != all[b])
    ensures i < n ==> all[..n][i] == all[i] && all[i] !in all[n..]
    ensures i >= n ==> all[n..][i - n] == all[i] && all[i] !in all[..n]
  {
  }

  lemma DropBothStores<E>(m: Manager<E>, half: Manager<E>, m': Manager<E>, keys: seq<string>, ents: seq<E>, n: nat)
    requires n <= |keys| == |ents| && (forall i, j :: 0 <= i < j < |ents| ==> ents[i] != ents[j])
    requires Dropped(m, half, keys[..n], ents[..n]) && Dropped(half, m', keys[n..], ents[n..])
    ensures m'.store.Keys == half.store.Keys == m.store.Keys
    ensures forall e :: e in m.store && e !in ents ==> m'.store[e] == m.store[e]
    ensures forall i :: 0 <= i < |ents| ==>
      ents[i] in m.store && m'.store[ents[i]] == Entry(m.store[ents[i]].refs - 1, m.store[ents[i]].tokens)
    ensures forall i :: 0 <= i < n ==> m'.store[ents[i]] == half.store[ents[i]]
  {
    forall i | 0 <= i < |ents|
      ensures ents[i] in m.store && m'.store[ents[i]] == Entry(m.store[ents[i]].refs - 1, m.store[ents[i]].tokens)
      ensures i < n ==> m'.store[ents[i]] == half.store[ents[i]]
    {
      InOneHalf(ents, i, n);
    }
  }

  lemma DroppedAt<E>(m: Manager<E>, m': Manager<E>, keys: seq<string>, ents: seq<E>, i: nat)
    requires Dropped(m, m', keys, ents) && i < |keys| && keys[i] in m.entries
    ensures ents[i] in m'.store && (keys[i] in m'.entries <==> m'.store[ents[i]].refs > 0)
  {
  }

  lemma DroppedElsewhere<E>(m: Manager<E>, m': Manager<E>, keys: seq<string>, ents: seq<E>, k: string)
    requires Dropped(m, m', keys, ents) && k !in keys
    ensures k in m'.entries <==> k in m.entries
  {
  }

  lemma DropBothMaps<E>(m: Manager<E>, half: Manager<E>, m': Manager<E>, keys: seq<string>, ents: seq<E>, n: nat,
                        i: nat)
    requires n <= |keys| == |ents| && i < |keys| && keys[i] in m.entries
    requires forall a, b :: 0 <= a < b < |keys| ==> keys[a] != keys[b]
    requires Dropped(m, half, keys[..n], ents[..n]) && Dropped(half, m', keys[n..], ents[n..])
    requires ents[i] in m'.store && (i < n ==> ents[i] in half.store && m'.store[ents[i]] == half.store[ents[i]])
    ensures keys[i] in m'.entries <==> m'.store[ents[i]].refs > 0
  {
    hide Dropped;
    InOneHalf(keys, i, n);
    if i < n {
      DroppedAt(m, half, keys[..n], ents[..n], i);
      DroppedElsewhere(half, m', keys[n..], ents[n..], keys[i]);
    } else {
      DroppedElsewhere(m, half, keys[..n], ents[..n], keys[i]);
      DroppedAt(half, m', keys[n..], ents[n..], i - n);
    }
  }

  lemma DropBothParts<E>(m: Manager<E>, half: Manager<E>, m': Manager<E>, keys: seq<string>, ents: seq<E>, n: nat)
    requires n <= |keys| == |ents| && StrictlySorted(keys)
      && (forall i, j :: 0 <= i < j < |ents| ==> ents[i] != ents[j])
    requires Dropped(m, half, keys[..n], ents[..n]) && Dropped(half, m', keys[n..], ents[n..])
    ensures Dropped(m, m', keys, ents)
  {
    StrictlySortedDistinct(keys);
    hide StrictlySorted;
    DropBothStores(m, half, m', keys, ents, n);
    forall i | 0 <= i < |keys| && keys[i] in m.entries
      ensures keys[i] in m'.entries <==> m'.store[ents[i]].refs > 0
    {
      DropBothMaps(m, half, m', keys, ents, n, i);
    }
  }

  /** Dropping the references that were registered leaves the map and the entries as they were. */
  lemma DropUndoesRegister<E>(m: Manager<E>, mid: Manager<E>, m': Manager<E>, keys: seq<string>, ents: seq<E>)
    requires MapOk(m) && Healthy(m)
    requires Registered(m, mid, keys, ents) && Dropped(mid, m', keys, ents)
    ensures Restored(m, m')
  {
    DropUndoesEntries(m, mid, m', keys, ents);
    hide MapOk, Healthy;
    forall e | e in m.store ensures e in m'.store && m'.store[e] == m.store[e] {
      if e in ents {
        var i :| 0 <= i < |ents| && ents[i] == e;
      }
    }
  }

  lemma DropUndoesEntries<E>(m: Manager<E>, mid: Manager<E>, m': Manager<E>, keys: seq<string>, ents: seq<E>)
    requires MapOk(m) && Healthy(m)
    requires Registered(m, mid, keys, ents) && Dropped(mid, m', keys, ents)
    ensures m'.entries == m.entries
  {
    forall k ensures k in m'.entries <==> k in m.entries {
      if k in keys {
        var i :| 0 <= i < |keys| && keys[i] == k;
        assert mid.store[ents[i]].refs == (if k in m.entries then m.store[ents[i]].refs else 0) + 1;
      }
    }
  }

  ghost predicate RegisteredOne<E>(n: Manager<E>, n': Manager<E>, key: string, e: E) {
    && (if key in n.entries then e == n.entries[key] else e !in n.store)
    && n'.entries == n.entries[key := e]
    && n'.store == n.store[e := if e in n.store then Entry(n.store[e].refs + 1, n.store[e].tokens) else Entry(1, 1)]
  }

  ghost predicate DroppedOne<E>(n: Manager<E>, n': Manager<E>, key: string, e: E) {
    && e in n.store
    && n'.store == n.store[e := Entry(n.store[e].refs - 1, n.store[e].tokens)]
    && n'.entries == if n.store[e].refs - 1 <= 0 then n.entries - {key} else n.entries
  }

  lemma ChosenOneMore<E>(m: Manager<E>, n: Manager<E>, n': Manager<E>, keys: seq<string>, ents: seq<E>, key: string,
                         e: E)
    requires MapOk(m) && key !in keys
    requires Registered(m, n, keys, ents) && RegisteredOne(n, n', key, e)
    ensures Chosen(m, keys + [key], ents + [e])
    ensures e !in ents && (e in n.store <==> e in m.store) && (e in m.store ==> n.store[e] == m.store[e])
  {
    if key in m.entries {
      EntryElsewhere(m, n, keys, ents, key);
    }
  }

  lemma MappedOneMore<E>(a: map<string, E>, b: map<string, E>, keys: seq<string>, ents: seq<E>, key: string, e: E)
    requires key !in keys && Mapped(a, b, keys, ents)
    ensures Mapped(a, b[key := e], keys + [key], ents + [e])
  {
    assert (set k | k in keys + [key]) == (set k | k in keys) + {key};
  }

  lemma ReferencedOneMore<E>(a: map<E, Entry>, b: map<E, Entry>, ents: seq<E>, e: E)
    requires e !in ents && Referenced(a, b, ents)
    ensures Referenced(a, b[e := if e in a then Entry(a[e].refs + 1, a[e].tokens) else Entry(1, 1)], ents + [e])
  {
    assert (set x | x in ents + [e]) == (set x | x in ents) + {e};
  }

  lemma RegisterNone<E>(m: Manager<E>)
    ensures Registered(m, m, [], [])
  {
  }

  lemma DropNone<E>(m: Manager<E>)
    ensures Dropped(m, m, [], [])
  {
  }

  lemma RegisterOneMore<E>(m: Manager<E>, n: Manager<E>, n': Manager<E>, keys: seq<string>, ents: seq<E>, key: string,
                           e: E)
    requires MapOk(m) && key !in keys
    requires Registered(m, n, keys, ents) && RegisteredOne(n, n', key, e)
    ensures Registered(m, n', keys + [key], ents + [e])
  {
    ChosenOneMore(m, n, n', keys, ents, key, e);
    MappedOneMore(m.entries, n.entries, keys, ents, key, e);
    ReferencedOneMore(m.store, n.store, ents, e);
  }

  lemma DropOneMore<E>(m: Manager<E>, n: Manager<E>, n': Manager<E>, keys: seq<string>, ents: seq<E>, key: string, e: E)
    requires key !in keys && e !in ents
    requires Dropped(m, n, keys, ents) && DroppedOne(n, n', key, e)
    ensures Dropped(m, n', keys + [key], ents + [e])
  {
  }
}
