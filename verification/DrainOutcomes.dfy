/** What a whole drain does to every row it read, and what one request does (internal/bridge/pending.go,
    internal/bridge/notifications.go), row by row and without the order of the statements. */
module DrainOutcomes {
  import opened Text
  import opened Decimals
  import opened NeonTables
  import opened PendingDrain
  import opened GivingUp

  // ---------------------------------------------------------------- one row

  /** The look-up of the row's key succeeds and finds it on record. */
  predicate Duplicate(delivered: set<string>, row: Row, f: Fate) {
    row.dedupeKey != "" && !f.checkFails && row.dedupeKey in delivered
  }

  /** The row gets as far as a decision. */
  predicate Decided(delivered: set<string>, row: Row, f: Fate) {
    row.dedupeKey == "" || (!f.checkFails && row.dedupeKey !in delivered)
  }

  predicate MutedRow(row: Row, f: Fate) {
    row.route == "" && f.muted
  }

  predicate GivenUp(row: Row, f: Fate) {
    !MutedRow(row, f) && row.attempts >= 3
  }

  /** The row is ready to go out: neither muted nor given up, and its platform is connected. */
  predicate GoesOut(row: Row, f: Fate) {
    !MutedRow(row, f) && row.attempts < 3 && f.connected
  }

  /** The key is written down as dealt with: the row was muted, given up or sent, and the record succeeds. */
  predicate MarksKey(delivered: set<string>, row: Row, f: Fate) {
    && Decided(delivered, row, f) && row.dedupeKey != "" && !f.recordFails
    && (MutedRow(row, f) || GivenUp(row, f) || (GoesOut(row, f) && GoodThread(row) && f.sent))
  }

  /** The row leaves the table: it is a duplicate, muted, given up, unsendable, or sent and recorded. */
  predicate Leaves(delivered: set<string>, row: Row, f: Fate) {
    && !f.removeFails
    && (|| Duplicate(delivered, row, f)
        || (&& Decided(delivered, row, f)
            && (|| MutedRow(row, f) || GivenUp(row, f)
                || (GoesOut(row, f) && (!GoodThread(row) || (f.sent && (row.dedupeKey == "" || !f.recordFails)))))))
  }

  /** A failed send is counted. */
  predicate CountsUp(delivered: set<string>, row: Row, f: Fate) {
    Decided(delivered, row, f) && GoesOut(row, f) && GoodThread(row) && !f.sent && !f.countFails
  }

  /** The tables after one row: its key, itself, and nothing else. */
  lemma RowTells(t: Tables, id: nat, row: Row, f: Fate)
    requires id in t.pending && t.pending[id] == row
    ensures var t', d := DrainRow(t, id, row, f), t.deliveries;
      var kept := t.pending[id := row.(attempts := row.attempts + if CountsUp(d, row, f) then 1 else 0)];
      && t'.deliveries == d + (if MarksKey(d, row, f) then {row.dedupeKey} else {})
      && t'.pending == (if Leaves(d, row, f) then t.pending - {id} else kept)
      && t'.nextId == t.nextId
  {
    hide IsInt64;
    assert t.pending == t.pending[id := row];
  }

  // ---------------------------------------------------------------- a whole drain

  /** The rows are those of the table, each once. */
  predicate RowsOf(t: Tables, rows: seq<(nat, Row)>) {
    && (forall i :: 0 <= i < |rows| ==> rows[i].0 in t.pending && t.pending[rows[i].0] == rows[i].1)
    && (forall i, j :: 0 <= i < j < |rows| ==> rows[i].0 != rows[j].0)
  }

  /** What is to become of a row's place in the table. */
  predicate RowDone(t: Tables, t': Tables, id: nat, row: Row, f: Fate) {
    if Leaves(t.deliveries, row, f) then id !in t'.pending
    else
      && id in t'.pending
      && t'.pending[id] == row.(attempts := row.attempts + if CountsUp(t.deliveries, row, f) then 1 else 0)
  }

  ghost predicate RowsDone(t: Tables, t': Tables, rows: seq<(nat, Row)>, fates: nat -> Fate) {
    && (forall i :: 0 <= i < |rows| ==> RowDone(t, t', rows[i].0, rows[i].1, fates(rows[i].0)))
    && (forall id :: (forall i :: 0 <= i < |rows| ==> rows[i].0 != id) ==>
          (id in t'.pending <==> id in t.pending) && (id in t.pending ==> t'.pending[id] == t.pending[id]))
  }

  ghost predicate KeyMarked(t: Tables, rows: seq<(nat, Row)>, fates: nat -> Fate, key: string) {
    exists i :: 0 <= i < |rows| && rows[i].1.dedupeKey == key && MarksKey(t.deliveries, rows[i].1, fates(rows[i].0))
  }

  /** Every row as its own fate asks for, no other row touched, and no key marked but those to be. */
  ghost predicate DrainTold(t: Tables, t': Tables, rows: seq<(nat, Row)>, fates: nat -> Fate) {
    && RowsDone(t, t', rows, fates) && t'.nextId == t.nextId
    && forall key :: key in t'.deliveries <==> key in t.deliveries || KeyMarked(t, rows, fates, key)
  }

  /** A drain that nobody interrupts does to every row what that row's own fate asks for, whatever happens to the
      others. */
  lemma {:induction false} DrainTells(t: Tables, rows: seq<(nat, Row)>, fates: nat -> Fate)
    requires TablesOk(t) && RowsOf(t, rows)
    ensures DrainTold(t, DrainRows(t, rows, fates), rows, fates)
  {
    if rows != [] {
      hide DrainTold, DrainRow;
      FrontRows(t, rows);
      DrainTells(t, rows[..|rows| - 1], fates);
      OneMoreTold(t, DrainRows(t, rows[..|rows| - 1], fates), rows, fates);
    }
  }

  lemma OneMoreTold(t: Tables, mid: Tables, rows: seq<(nat, Row)>, fates: nat -> Fate)
    requires TablesOk(t) && RowsOf(t, rows) && rows != [] && DrainTold(t, mid, rows[..|rows| - 1], fates)
    ensures var (id, row) := rows[|rows| - 1]; DrainTold(t, DrainRow(mid, id, row, fates(id)), rows, fates)
  {
    hide DrainRow, MarksKey, Leaves, CountsUp, KeyMarked;
    var (id, row) := rows[|rows| - 1];
    var f := fates(id);
    UntouchedYet(t, rows, fates, mid);
    RowTells(mid, id, row, f);
    SameFate(t.deliveries, mid.deliveries, row, f);
    MoreRowsDone(t, mid, DrainRow(mid, id, row, f), rows, fates);
    hide RowsDone, RowsOf, TablesOk;
    forall key ensures KeyMarked(t, rows, fates, key) <==>
        KeyMarked(t, rows[..|rows| - 1], fates, key) || (key == row.dedupeKey && MarksKey(t.deliveries, row, f))
    {
      MoreMarked(t, rows, fates, key);
    }
  }

  lemma FrontRows(t: Tables, rows: seq<(nat, Row)>)
    requires RowsOf(t, rows) && rows != []
    ensures RowsOf(t, rows[..|rows| - 1])
  {
  }

  /** When the last row's turn comes, it and its key are as they were. */
  lemma UntouchedYet(t: Tables, rows: seq<(nat, Row)>, fates: nat -> Fate, mid: Tables)
    requires TablesOk(t) && RowsOf(t, rows) && rows != [] && RowsDone(t, mid, rows[..|rows| - 1], fates)
    requires forall key :: key in mid.deliveries <==>
      key in t.deliveries || KeyMarked(t, rows[..|rows| - 1], fates, key)
    ensures var (id, row) := rows[|rows| - 1];
      && id in mid.pending && mid.pending[id] == row
      && (row.dedupeKey != "" ==> (row.dedupeKey in mid.deliveries <==> row.dedupeKey in t.deliveries))
  {
    hide MarksKey, RowDone;
  }

  lemma MoreRowsDone(t: Tables, mid: Tables, t': Tables, rows: seq<(nat, Row)>, fates: nat -> Fate)
    requires RowsOf(t, rows) && rows != [] && RowsDone(t, mid, rows[..|rows| - 1], fates)
    requires var (id, row) := rows[|rows| - 1];
      var f, d := fates(id), t.deliveries;
      var kept := mid.pending[id := row.(attempts := row.attempts + if CountsUp(d, row, f) then 1 else 0)];
      t'.pending == if Leaves(d, row, f) then mid.pending - {id} else kept
    ensures RowsDone(t, t', rows, fates)
  {
    hide Leaves, CountsUp;
    var n := |rows| - 1;
    var (id, row) := rows[n];
    assert RowDone(t, t', id, row, fates(id));
    assert OtherRows(mid, t', id);
    hide RowDone;
    forall i | 0 <= i < |rows| ensures RowDone(t, t', rows[i].0, rows[i].1, fates(rows[i].0)) {
      if i < n {
        assert rows[..n][i] == rows[i];
        StaysDone(t, mid, t', id, rows[i].0, rows[i].1, fates(rows[i].0));
      }
    }
    forall j | forall i :: 0 <= i < |rows| ==> rows[i].0 != j
      ensures (j in t'.pending <==> j in t.pending) && (j in t.pending ==> t'.pending[j] == t.pending[j])
    {
      assert j != id;
      assert forall i :: 0 <= i < n ==> rows[..n][i].0 != j;
    }
  }

  /** All rows but this one are the same. */
  ghost predicate OtherRows(t: Tables, t': Tables, id: nat) {
    forall j :: j != id ==> (j in t'.pending <==> j in t.pending) && (j in t.pending ==> t'.pending[j] == t.pending[j])
  }

  lemma StaysDone(t: Tables, mid: Tables, t': Tables, id: nat, other: nat, row: Row, f: Fate)
    requires RowDone(t, mid, other, row, f) && OtherRows(mid, t', id) && other != id
    ensures RowDone(t, t', other, row, f)
  {
    hide Leaves, CountsUp;
  }

  lemma MoreMarked(t: Tables, rows: seq<(nat, Row)>, fates: nat -> Fate, key: string)
    requires rows != []
    ensures var (id, row) := rows[|rows| - 1];
      KeyMarked(t, rows, fates, key) <==>
        KeyMarked(t, rows[..|rows| - 1], fates, key) || (key == row.dedupeKey && MarksKey(t.deliveries, row, fates(id)))
  {
    hide MarksKey;
    var front := rows[..|rows| - 1];
    assert forall i :: 0 <= i < |front| ==> front[i] == rows[i];
  }

  /** Of the record only the row's own key matters. */
  lemma SameFate(d: set<string>, d': set<string>, row: Row, f: Fate)
    requires row.dedupeKey != "" ==> (row.dedupeKey in d <==> row.dedupeKey in d')
    ensures MarksKey(d, row, f) == MarksKey(d', row, f) && Leaves(d, row, f) == Leaves(d', row, f)
    ensures CountsUp(d, row, f) == CountsUp(d', row, f)
  {
    hide MutedRow, GivenUp, GoesOut, GoodThread;
  }

  // ---------------------------------------------------------------- one request

  /** What the handler does with a keyed request, and what it answers. */
  lemma AcceptTells(t: Tables, row: Row, f: RequestFate)
    requires TablesOk(t) && row.dedupeKey != ""
    ensures var (t', answer) := Accept(t, row, f);
      var key := row.dedupeKey;
      var waiting := exists i :: i in t.pending && t.pending[i].dedupeKey == key;
      if f.checkFails then t' == t && answer == Unavailable
      else if key in t.deliveries then t' == t && answer == AlreadySent
      else if !f.valid then t' == t && answer == BadRequest
      else if TrimSpace(row.route) == "" && f.muted then
        && answer == Muted && t'.pending == t.pending
        && t'.deliveries == t.deliveries + (if f.recordFails then {} else {key})
      else
        && t'.deliveries == t.deliveries
        && (answer == Pending <==> if waiting then !f.selectFails else !f.insertFails)
        && (answer != Pending ==> answer == Unavailable)
        && (if waiting || f.insertFails then t'.pending == t.pending
            else t'.pending == t.pending[t.nextId := row.(attempts := 0)])
  {
    hide TrimSpace;
    assert PendingKey(t, row.dedupeKey) <==> exists i :: i in t.pending && t.pending[i].dedupeKey == row.dedupeKey;
  }
}
