/** The two notification tables of internal/neon/neon.go; every SQL statement is one atomic operation that
    may fail and then changes nothing. */
module NeonTables {
  import opened Options

  /** A row of pending_notifications. `rawKey` is no column: it remembers the key its producer sent, to say what the
      row is about. */
  datatype Row = Row(platform: string, threadId: string, route: string, title: string, message: string,
                     dedupeKey: string, source: string, url: string, attempts: nat, rawKey: string)

  /** pending_notifications by id, the id sequence, and notification_deliveries. */
  datatype Tables = Tables(pending: map<nat, Row>, nextId: nat, deliveries: set<string>)

  /** The unique index: no two rows share a non-empty dedupe key. Ids come from the sequence. */
  ghost predicate TablesOk(t: Tables) {
    && (forall i :: i in t.pending ==> i < t.nextId)
    && (forall i, j :: i in t.pending && j in t.pending && i != j && t.pending[i].dedupeKey != "" ==>
          t.pending[i].dedupeKey != t.pending[j].dedupeKey)
  }

  predicate PendingKey(t: Tables, key: string) {
    exists i :: i in t.pending && t.pending[i].dedupeKey == key
  }

  /** The key has a row waiting or is on record as dealt with. */
  predicate Recorded(t: Tables, key: string) {
    PendingKey(t, key) || key in t.deliveries
  }

  /** INSERT ... ON CONFLICT (dedupe_key) WHERE dedupe_key <> '' DO NOTHING. The sequence moves either way. */
  function Inserted(t: Tables, row: Row): (r: Tables) {
    if row.dedupeKey != "" && PendingKey(t, row.dedupeKey) then t.(nextId := t.nextId + 1)
    else t.(pending := t.pending[t.nextId := row.(attempts := 0)], nextId := t.nextId + 1)
  }

  /** The id the INSERT returns, if it inserted. */
  function InsertedId(t: Tables, row: Row): (r: Option<nat>) {
    if row.dedupeKey != "" && PendingKey(t, row.dedupeKey) then None else Some(t.nextId)
  }

  function Marked(t: Tables, key: string): (r: Tables) {
    if key == "" then t else t.(deliveries := t.deliveries + {key})
  }

  function Deleted(t: Tables, id: nat): (r: Tables) {
    t.(pending := t.pending - {id})
  }

  function Bumped(t: Tables, id: nat): (r: Tables) {
    if id in t.pending
    then t.(pending := t.pending[id := t.pending[id].(attempts := t.pending[id].attempts + 1)])
    else t
  }

  lemma OperationsKeepOk(t: Tables, row: Row, key: string, id: nat)
    requires TablesOk(t)
    ensures TablesOk(Inserted(t, row)) && TablesOk(Marked(t, key)) && TablesOk(Deleted(t, id))
      && TablesOk(Bumped(t, id))
  {
  }

  /** An insert leaves its key waiting, whether it made a row or found one. */
  lemma InsertRecords(t: Tables, row: Row)
    ensures PendingKey(Inserted(t, row), row.dedupeKey)
    ensures forall k :: PendingKey(t, k) && TablesOk(t) ==> PendingKey(Inserted(t, row), k)
  {
    if InsertedId(t, row).Some? {
      assert Inserted(t, row).pending[t.nextId].dedupeKey == row.dedupeKey;
      forall k | PendingKey(t, k) && TablesOk(t) ensures PendingKey(Inserted(t, row), k) {
        var i :| i in t.pending && t.pending[i].dedupeKey == k;
        assert Inserted(t, row).pending[i].dedupeKey == k;
      }
    } else {
      assert Inserted(t, row).pending == t.pending;
    }
  }

  /** Deleting a row takes its own key out of the table and no other. */
  lemma DeleteForgetsOne(t: Tables, id: nat, key: string)
    requires TablesOk(t) && key != ""
    ensures PendingKey(Deleted(t, id), key) <==>
      PendingKey(t, key) && !(id in t.pending && t.pending[id].dedupeKey == key)
  {
    if PendingKey(t, key) {
      var i :| i in t.pending && t.pending[i].dedupeKey == key;
      if i != id {
        assert i in Deleted(t, id).pending;
      }
    }
  }

  lemma BumpKeepsKeys(t: Tables, id: nat, key: string)
    ensures PendingKey(Bumped(t, id), key) <==> PendingKey(t, key)
  {
    if PendingKey(t, key) {
      var i :| i in t.pending && t.pending[i].dedupeKey == key;
      assert Bumped(t, id).pending[i].dedupeKey == key;
    }
    if PendingKey(Bumped(t, id), key) {
      var i :| i in Bumped(t, id).pending && Bumped(t, id).pending[i].dedupeKey == key;
      assert t.pending[i].dedupeKey == key;
    }
  }

  /** The database handle. `fails` is the statement's fate. */
  class NeonDB {
    var tables: Tables

    constructor ()
      ensures tables == Tables(map[], 1, {})
    {
      tables := Tables(map[], 1, {});
    }

    /** SavePending: insert, and if that returned nothing look the key up. Both statements may fail. */
    method SavePending(p: Row, insertFails: bool, selectFails: bool) returns (id: nat, err: bool)
      requires TablesOk(tables)
      modifies this
      ensures TablesOk(tables)
      ensures tables == if insertFails then old(tables) else Inserted(old(tables), p)
      ensures !err ==> id in tables.pending && tables.pending[id].dedupeKey == p.dedupeKey
      ensures err <==>
        if insertFails then p.dedupeKey == "" || selectFails || !PendingKey(old(tables), p.dedupeKey)
        else InsertedId(old(tables), p).None? && selectFails
    {
      OperationsKeepOk(tables, p, "", 0);
      id := 0;
      if !insertFails {
        var inserted := InsertedId(tables, p);
        InsertRecords(tables, p);
        tables := Inserted(tables, p);
        if inserted.Some? {
          return inserted.value, false;
        }
      }
      if p.dedupeKey != "" && !selectFails {
        if i :| i in tables.pending && tables.pending[i].dedupeKey == p.dedupeKey {
          return i, false;
        }
      }
      err := true;
    }

    method IsDelivered(key: string, fails: bool) returns (delivered: bool, err: bool)
      ensures err <==> key != "" && fails
      ensures !err ==> (delivered <==> key != "" && key in tables.deliveries)
    {
      if key == "" {
        return false, false;
      }
      if fails {
        return false, true;
      }
      return key in tables.deliveries, false;
    }

    method MarkDelivered(key: string, fails: bool) returns (err: bool)
      modifies this
      ensures err <==> key != "" && fails
      ensures tables == if err then old(tables) else Marked(old(tables), key)
    {
      if key == "" {
        return false;
      }
      if fails {
        return true;
      }
      tables := Marked(tables, key);
      return false;
    }

    method DeletePending(id: nat, fails: bool) returns (err: bool)
      modifies this
      ensures err == fails
      ensures tables == if fails then old(tables) else Deleted(old(tables), id)
    {
      if !fails {
        tables := Deleted(tables, id);
      }
      err := fails;
    }

    method IncPendingAttempts(id: nat, fails: bool) returns (err: bool)
      modifies this
      ensures err == fails
      ensures tables == if fails then old(tables) else Bumped(old(tables), id)
    {
      if !fails {
        tables := Bumped(tables, id);
      }
      err := fails;
    }
  }
}
