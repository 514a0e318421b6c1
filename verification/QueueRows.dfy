/** Where the rows of the queue come from (internal/bridge/notifications.go, pending.go): nothing but the handler makes
    rows, and nothing changes them but the count of their attempts. */
module QueueRows {
  import opened NeonTables
  import opened NotificationQueue

  /** The row as it was queued. */
  function AsQueued(row: Row): (r: Row) {
    row.(attempts := 0)
  }

  /** Every row in the table, in a handler's hands or in a drain's is one of these, but for its attempts. */
  ghost predicate RowsFrom(s: State, rows: set<Row>) {
    && (forall i :: i in s.tables.pending ==> AsQueued(s.tables.pending[i]) in rows)
    && (forall h :: h in s.handlers ==> AsQueued(s.handlers[h].row) in rows)
    && DrainsFrom(s, rows)
  }

  ghost predicate DrainsFrom(s: State, rows: set<Row>) {
    forall d, i :: d in s.drains && 0 <= i < |s.drains[d].rows| ==> AsQueued(s.drains[d].rows[i].1) in rows
  }

  /** The row a step brings in. */
  function NewRows(ev: Event): (r: set<Row>) {
    if ev.Arrive? || ev.SavePlain? then {AsQueued(ev.row)} else {}
  }

  lemma TablesFrom(t: Tables, row: Row, key: string, id: nat, rows: set<Row>)
    requires (forall i :: i in t.pending ==> AsQueued(t.pending[i]) in rows) && AsQueued(row) in rows
    ensures forall u :: u in {t, Inserted(t, row), Marked(t, key), Deleted(t, id), Bumped(t, id)} ==>
      forall i :: i in u.pending ==> AsQueued(u.pending[i]) in rows
  {
    hide PendingKey;
    assert AsQueued(row.(attempts := 0)) == AsQueued(row);
    if id in t.pending {
      assert AsQueued(t.pending[id].(attempts := t.pending[id].attempts + 1)) == AsQueued(t.pending[id]);
    }
  }

  lemma HandlersFrom(s: State, ev: Event, rows: set<Row>)
    requires Enabled(s, ev) && HandlerEvent(ev) && RowsFrom(s, rows) && NewRows(ev) <= rows
    ensures forall h :: h in Apply(s, ev).handlers ==> AsQueued(Apply(s, ev).handlers[h].row) in rows
    ensures AsQueued(HandlerRow(s, ev)) in rows
  {
    hide AsQueued, Inserted, InsertedId, PendingKey, Marked, DrainsFrom;
  }

  lemma StartFrom(s: State, ev: Event, rows: set<Row>)
    requires Enabled(s, ev) && (ev.StartDrain? || ev.StopDrain?) && RowsFrom(s, rows)
    ensures RowsFrom(Apply(s, ev), rows)
  {
    hide AsQueued;
    if ev.StartDrain? {
      forall i | 0 <= i < |ev.ids| ensures AsQueued(Rows(s.tables, ev.ids)[i].1) in rows {
        assert ev.ids[i] in ev.ids;
      }
    }
  }

  lemma DrainStepFrom(s: State, ev: Event, rows: set<Row>)
    requires Enabled(s, ev) && DrainEvent(ev) && DrainsFrom(s, rows)
    ensures DrainsFrom(Apply(s, ev), rows)
  {
    hide AsQueued, Apply;
    DrainEffect(s, ev);
    var s', before := Apply(s, ev), s.drains[ev.d].rows;
    forall d, i | d in s'.drains && 0 <= i < |s'.drains[d].rows| ensures AsQueued(s'.drains[d].rows[i].1) in rows {
      if d != ev.d {
        assert s'.drains[d] == s.drains[d];
      } else if s'.drains == NextRow(s, ev.d).drains {
        assert s'.drains[d].rows[i] == before[i + 1];
      } else {
        assert s'.drains[d].rows[i] == before[i];
      }
    }
  }

  lemma StepFrom(s: State, ev: Event, rows: set<Row>)
    requires Enabled(s, ev) && RowsFrom(s, rows) && NewRows(ev) <= rows
    ensures RowsFrom(Apply(s, ev), rows)
  {
    hide AsQueued, Apply;
    if HandlerEvent(ev) {
      var row := HandlerRow(s, ev);
      HandlerEffect(s, ev);
      HandlersFrom(s, ev, rows);
      TablesFrom(s.tables, row, row.dedupeKey, 0, rows);
    } else if DrainEvent(ev) {
      var copy := s.drains[ev.d].rows[0];
      DrainEffect(s, ev);
      DrainStepFrom(s, ev, rows);
      TablesFrom(s.tables, copy.1, copy.1.dedupeKey, copy.0, rows);
    } else {
      StartFrom(s, ev, rows);
    }
  }
}
