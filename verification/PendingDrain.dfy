/** drainPending and the deduped branch of handleAutomationNotification (internal/bridge) as code over the
    database handle, and how they relate to the steps of NotificationQueue. */
module PendingDrain {
  import opened Options
  import opened NeonTables
  import opened NotificationQueue
  import opened Text

  /** What the world does while one row is handled: statement faults, the mute list, the connection, the send. */
  datatype Fate = Fate(checkFails: bool, muted: bool, connected: bool, sent: bool,
                       recordFails: bool, removeFails: bool, countFails: bool)

  function Removed(t: Tables, id: nat, fails: bool): Tables {
    if fails then t else Deleted(t, id)
  }

  /** A discarded row: the record is tried, the row goes whatever came of it. */
  function Discarded(t: Tables, id: nat, key: string, f: Fate): Tables {
    Removed(if key != "" && f.recordFails then t else Marked(t, key), id, f.removeFails)
  }

  /** The tables after one row was handled without interruption. */
  function DrainRow(t: Tables, id: nat, row: Row, f: Fate): (t': Tables) {
    var key := row.dedupeKey;
    if key != "" && f.checkFails then t
    else if key != "" && key in t.deliveries then Removed(t, id, f.removeFails)
    else if row.route == "" && f.muted then Discarded(t, id, key, f)
    else if row.attempts >= MAX_ATTEMPTS then Discarded(t, id, key, f)
    else if !f.connected then t
    else if BadThread(row) then Removed(t, id, f.removeFails)
    else if !f.sent then (if f.countFails then t else Bumped(t, id))
    else if key != "" && f.recordFails then t
    else Removed(Marked(t, key), id, f.removeFails)
  }

  function DrainRows(t: Tables, rows: seq<(nat, Row)>, fates: nat -> Fate): (t': Tables) {
    if rows == [] then t
    else DrainRow(DrainRows(t, rows[..|rows| - 1], fates), rows[|rows| - 1].0, rows[|rows| - 1].1,
                  fates(rows[|rows| - 1].0))
  }

  /** The loop of drainPending over the rows ListPending returned. */
  method DrainPending(db: NeonDB, pending: seq<(nat, Row)>, fates: nat -> Fate)
    modifies db
    ensures db.tables == DrainRows(old(db.tables), pending, fates)
  {
    hide DrainRow;
    for i := 0 to |pending|
      invariant db.tables == DrainRows(old(db.tables), pending[..i], fates)
    {
      DrainOne(db, pending[i].0, pending[i].1, fates(pending[i].0));
      assert pending[..i + 1][..i] == pending[..i];
    }
    assert pending[..|pending|] == pending;
  }

  /** The loop body. */
  method DrainOne(db: NeonDB, id: nat, p: Row, f: Fate)
    modifies db
    ensures db.tables == DrainRow(old(db.tables), id, p, f)
  {
    var err: bool;
    if p.dedupeKey != "" {
      var delivered, checkErr := db.IsDelivered(p.dedupeKey, f.checkFails);
      if checkErr {
        return;
      }
      if delivered {
        err := db.DeletePending(id, f.removeFails);
        return;
      }
    }
    if p.route == "" && f.muted {
      if p.dedupeKey != "" {
        err := db.MarkDelivered(p.dedupeKey, f.recordFails);
      }
      err := db.DeletePending(id, f.removeFails);
      return;
    }
    if p.attempts >= MAX_ATTEMPTS {
      if p.dedupeKey != "" {
        err := db.MarkDelivered(p.dedupeKey, f.recordFails);
      }
      err := db.DeletePending(id, f.removeFails);
      return;
    }
    if !f.connected {
      return;
    }
    if BadThread(p) {
      err := db.DeletePending(id, f.removeFails);
      return;
    }
    if !f.sent {
      err := db.IncPendingAttempts(id, f.countFails);
      return;
    }
    err := db.MarkDelivered(p.dedupeKey, f.recordFails);
    if err {
      return;
    }
    err := db.DeletePending(id, f.removeFails);
  }

  // ---------------------------------------------------------------- the code is a run of the steps

  /** The step a drain takes next when it alone moves and the world does f. */
  function NextStep(s: State, d: nat, f: Fate): (ev: Event)
    requires d in s.drains && s.drains[d].rows != []
    ensures Enabled(s, ev) && DrainEvent(ev) && ev.d == d
  {
    var pc := s.drains[d].pc;
    if pc == Check then DrainChecks(d, f.checkFails)
    else if pc == Decide then DrainDecides(d, f.muted, f.connected)
    else if pc == Send then DrainSends(d, f.sent)
    else if pc == CountFailure then DrainCounts(d, f.countFails)
    else if Records(pc) then DrainRecords(d, f.recordFails)
    else DrainRemoves(d, f.removeFails)
  }

  function Rank(pc: Pc): (n: nat) {
    match pc
    case Check => 4
    case Decide => 3
    case Send => 2
    case RecordMuted => 1
    case RecordGivenUp => 1
    case RecordSent => 1
    case _ => 0
  }

  /** The drain's steps from where it stands to the end of its current row, uninterrupted. */
  function FinishRow(s: State, d: nat, f: Fate): (s': State)
    requires d in s.drains && s.drains[d].rows != []
    decreases Rank(s.drains[d].pc)
  {
    var next := Apply(s, NextStep(s, d, f));
    if d in next.drains && next.drains[d].rows == s.drains[d].rows && Rank(next.drains[d].pc) < Rank(s.drains[d].pc)
    then FinishRow(next, d, f)
    else next
  }

  lemma FinishGoesOn(s: State, d: nat, f: Fate, next: State, pc: Pc)
    requires d in s.drains && s.drains[d].rows != [] && next == Apply(s, NextStep(s, d, f))
    requires next.drains == DrainTo(s, d, pc).drains && Rank(pc) < Rank(s.drains[d].pc)
    ensures FinishRow(s, d, f) == FinishRow(next, d, f)
  {
    hide Apply;
  }

  lemma FinishStops(s: State, d: nat, f: Fate, next: State)
    requires d in s.drains && s.drains[d].rows != [] && next == Apply(s, NextStep(s, d, f))
    requires next.drains == NextRow(s, d).drains
    ensures FinishRow(s, d, f) == next
  {
    hide Apply;
    assert d in next.drains ==> |next.drains[d].rows| < |s.drains[d].rows|;
  }

  /** The row finished at a removing point. */
  lemma FinishRemoving(s: State, d: nat, f: Fate)
    requires d in s.drains && s.drains[d].rows != [] && Removes(s.drains[d].pc)
    ensures FinishRow(s, d, f) == NextRow(s, d).(tables := Removed(s.tables, s.drains[d].rows[0].0, f.removeFails))
  {
    hide FinishRow;
    FinishStops(s, d, f, Apply(s, DrainRemoves(d, f.removeFails)));
  }

  lemma FinishRecording(s: State, d: nat, f: Fate)
    requires d in s.drains && s.drains[d].rows != [] && Records(s.drains[d].pc)
    ensures var copy, r := s.drains[d].rows[0], FinishRow(s, d, f);
      && r.drains == NextRow(s, d).drains
      && r.tables == if s.drains[d].pc == RecordSent && copy.1.dedupeKey != "" && f.recordFails then s.tables
                     else Discarded(s.tables, copy.0, copy.1.dedupeKey, f)
  {
    hide FinishRow, Deleted, Marked;
    var key, pc := s.drains[d].rows[0].1.dedupeKey, s.drains[d].pc;
    var next := Apply(s, DrainRecords(d, f.recordFails));
    if key != "" && f.recordFails && pc == RecordSent {
      FinishStops(s, d, f, next);
    } else {
      FinishGoesOn(s, d, f, next, AfterRecord(pc));
      FinishRemoving(next, d, f);
      SameNextRow(s, d, next, AfterRecord(pc));
      MarkNothing(s.tables, key);
    }
  }

  lemma MarkNothing(t: Tables, key: string)
    ensures key == "" ==> Marked(t, key) == t
  {
  }

  lemma SameNextRow(s: State, d: nat, next: State, pc: Pc)
    requires d in s.drains && s.drains[d].rows != [] && next.drains == DrainTo(s, d, pc).drains
    ensures NextRow(next, d).drains == NextRow(s, d).drains && next.drains[d].rows == s.drains[d].rows
  {
  }

  lemma FinishSending(s: State, d: nat, f: Fate)
    requires d in s.drains && s.drains[d].rows != [] && s.drains[d].pc == Send
    ensures var copy, r := s.drains[d].rows[0], FinishRow(s, d, f);
      && r.drains == NextRow(s, d).drains
      && r.tables == if !f.sent then (if f.countFails then s.tables else Bumped(s.tables, copy.0))
                     else if copy.1.dedupeKey != "" && f.recordFails then s.tables
                     else Discarded(s.tables, copy.0, copy.1.dedupeKey, f)
  {
    hide FinishRow, Deleted, Marked, Bumped;
    var next := Apply(s, DrainSends(d, f.sent));
    var pc := if f.sent then RecordSent else CountFailure;
    FinishGoesOn(s, d, f, next, pc);
    SameNextRow(s, d, next, pc);
    if f.sent {
      FinishRecording(next, d, f);
    } else {
      FinishStops(next, d, f, Apply(next, DrainCounts(d, f.countFails)));
    }
  }

  /** Where the decision leads, and what the loop body does on that branch. */
  lemma DecisionBranch(t: Tables, id: nat, row: Row, f: Fate)
    requires row.dedupeKey == "" || (!f.checkFails && row.dedupeKey !in t.deliveries)
    ensures match Decision(row, f.muted, f.connected)
      case None => DrainRow(t, id, row, f) == t
      case Some(Send) => DrainRow(t, id, row, f) ==
        (if !f.sent then (if f.countFails then t else Bumped(t, id))
         else if row.dedupeKey != "" && f.recordFails then t
         else Discarded(t, id, row.dedupeKey, f))
      case Some(RemoveBadThread) => DrainRow(t, id, row, f) == Removed(t, id, f.removeFails)
      case Some(pc) =>
        && DrainRow(t, id, row, f) == Discarded(t, id, row.dedupeKey, f)
        && pc in {RecordMuted, RecordGivenUp, RemoveMuted, RemoveGivenUp}
        && (Removes(pc) ==> row.dedupeKey == "")
  {
    hide BadThread, Deleted, Bumped;
  }

  lemma FinishDeciding(s: State, d: nat, f: Fate)
    requires d in s.drains && s.drains[d].rows != [] && s.drains[d].pc == Decide
    requires var key := s.drains[d].rows[0].1.dedupeKey; key == "" || (!f.checkFails && key !in s.tables.deliveries)
    ensures var copy, r := s.drains[d].rows[0], FinishRow(s, d, f);
      r.drains == NextRow(s, d).drains && r.tables == DrainRow(s.tables, copy.0, copy.1, f)
  {
    hide FinishRow, DrainRow, Decision, Deleted, Bumped;
    var row := s.drains[d].rows[0].1;
    var next := Apply(s, DrainDecides(d, f.muted, f.connected));
    DecisionBranch(s.tables, s.drains[d].rows[0].0, row, f);
    MarkNothing(s.tables, row.dedupeKey);
    match Decision(row, f.muted, f.connected)
    case None =>
      FinishStops(s, d, f, next);
    case Some(pc) =>
      FinishGoesOn(s, d, f, next, pc);
      SameNextRow(s, d, next, pc);
      if pc == Send {
        FinishSending(next, d, f);
      } else if Records(pc) {
        FinishRecording(next, d, f);
      } else {
        FinishRemoving(next, d, f);
      }
  }

  /** Run without interruption, the steps of a drain over a row change the tables just as the loop body does. */
  lemma StepsAreTheLoopBody(s: State, d: nat, f: Fate)
    requires d in s.drains && s.drains[d].rows != [] && s.drains[d].pc == Check
    ensures var copy, r := s.drains[d].rows[0], FinishRow(s, d, f);
      r.drains == NextRow(s, d).drains && r.tables == DrainRow(s.tables, copy.0, copy.1, f)
  {
    hide BadThread, FinishRow;
    var next := Apply(s, DrainChecks(d, f.checkFails));
    var key := s.drains[d].rows[0].1.dedupeKey;
    if key != "" && f.checkFails {
      FinishStops(s, d, f, next);
    } else {
      var pc := if key != "" && key in s.tables.deliveries then RemoveDuplicate else Decide;
      FinishGoesOn(s, d, f, next, pc);
      SameNextRow(s, d, next, pc);
      if pc == RemoveDuplicate {
        FinishRemoving(next, d, f);
      } else {
        FinishDeciding(next, d, f);
      }
    }
  }

  // ---------------------------------------------------------------- the request handler

  datatype Answer = AlreadySent | Muted | Pending | BadRequest | Unavailable

  /** The answers the client takes for success. */
  predicate Success(a: Answer) {
    a == AlreadySent || a == Muted || a == Pending
  }

  /** What the world does while one request is handled; `valid` says its route or thread is usable. */
  datatype RequestFate = RequestFate(checkFails: bool, valid: bool, muted: bool, recordFails: bool,
                                     insertFails: bool, selectFails: bool)

  /** The tables and the answer of one request handled without interruption. */
  function Accept(t: Tables, row: Row, f: RequestFate): (r: (Tables, Answer)) {
    if f.checkFails then (t, Unavailable)
    else if row.dedupeKey in t.deliveries then (t, AlreadySent)
    else if !f.valid then (t, BadRequest)
    else if TrimSpace(row.route) == "" && f.muted then (if f.recordFails then t else Marked(t, row.dedupeKey), Muted)
    else
      var t' := if f.insertFails then t else Inserted(t, row);
      if !f.insertFails && InsertedId(t, row).Some? then (t', Pending)
      else (t', if !f.selectFails && PendingKey(t', row.dedupeKey) then Pending else Unavailable)
  }

  /** The deduped branch of handleAutomationNotification up to its own drain. `row` is the request with its
      scoped key. */
  method AcceptKeyed(db: NeonDB, row: Row, f: RequestFate) returns (answer: Answer)
    requires TablesOk(db.tables) && row.dedupeKey != ""
    modifies db
    ensures TablesOk(db.tables)
    ensures (db.tables, answer) == Accept(old(db.tables), row, f)
  {
    var delivered, err := db.IsDelivered(row.dedupeKey, f.checkFails);
    if err {
      return Unavailable;
    }
    if delivered {
      return AlreadySent;
    }
    if !f.valid {
      return BadRequest;
    }
    if TrimSpace(row.route) == "" && f.muted {
      OperationsKeepOk(db.tables, row, row.dedupeKey, 0);
      err := db.MarkDelivered(row.dedupeKey, f.recordFails);
      return Muted;
    }
    InsertRecords(db.tables, row);
    var id;
    id, err := db.SavePending(row, f.insertFails, f.selectFails);
    if err {
      return Unavailable;
    }
    return Pending;
  }

  /** What an answer means: success has the key waiting or on record, unless the record of a muted one failed; no
      answer makes the tables forget a key, and but for an insert or a record they stay as they were. */
  lemma AnswerMeans(t: Tables, row: Row, f: RequestFate)
    requires TablesOk(t) && row.dedupeKey != ""
    ensures var (t', a) := Accept(t, row, f);
      && (Success(a) ==> Recorded(t', row.dedupeKey) || (a == Muted && f.recordFails))
      && (a == AlreadySent <==> !f.checkFails && row.dedupeKey in t.deliveries)
      && (a == AlreadySent || a == BadRequest || (a == Muted && f.recordFails) ==> t' == t)
      && (forall k :: Recorded(t, k) ==> Recorded(t', k))
  {
    hide Inserted, InsertedId, PendingKey;
    InsertRecords(t, row);
    forall k | Recorded(t, k) ensures Recorded(Accept(t, row, f).0, k) {
      assert Accept(t, row, f).0 in {t, Marked(t, row.dedupeKey), Inserted(t, row)};
      KeepsRecords(t, row, k);
    }
  }

  lemma KeepsRecords(t: Tables, row: Row, k: string)
    requires TablesOk(t) && Recorded(t, k)
    ensures Recorded(Inserted(t, row), k) && Recorded(Marked(t, row.dedupeKey), k)
  {
    InsertRecords(t, row);
    if PendingKey(t, k) {
      assert PendingKey(Inserted(t, row), k);
    }
  }

  /** The answer a handler step gives, if it ends the request. */
  function StepAnswer(s: State, ev: Event): (r: Option<Answer>)
    requires Enabled(s, ev)
  {
    match ev
    case Checked(h, fails) =>
      if fails then Some(Unavailable)
      else if s.handlers[h].row.dedupeKey in s.tables.deliveries then Some(AlreadySent)
      else None
    case Gated(h, valid, _) => if valid then None else Some(BadRequest)
    case Mute(h, _) => Some(Muted)
    case Insert(h, fails) => if !fails && InsertedId(s.tables, s.handlers[h].row).Some? then Some(Pending) else None
    case Select(h, fails) =>
      Some(if !fails && PendingKey(s.tables, s.handlers[h].row.dedupeKey) then Pending else Unavailable)
    case _ => None
  }

  /** A request ends with its answer, and the keys accepted are those answered with success. */
  lemma AnsweredIsAccepted(s: State, ev: Event)
    requires Enabled(s, ev) && HandlerEvent(ev) && !ev.Arrive? && !ev.SavePlain?
    ensures var s', a := Apply(s, ev), StepAnswer(s, ev);
      && ev.h in s.handlers
      && s'.handlers.Keys == (if a.Some? then s.handlers.Keys - {ev.h} else s.handlers.Keys)
      && s'.accepted ==
        (if a.Some? && Success(a.value) then s.accepted + {s.handlers[ev.h].row.dedupeKey} else s.accepted)
  {
    hide Inserted, InsertedId, PendingKey, Marked;
  }

  function NextRequestStep(s: State, h: nat, f: RequestFate): (ev: Event)
    requires h in s.handlers
    ensures Enabled(s, ev) && HandlerEvent(ev) && !ev.Arrive? && !ev.SavePlain? && ev.h == h
  {
    match s.handlers[h].pc
    case AtCheck => Checked(h, f.checkFails)
    case AtGate => Gated(h, f.valid, f.muted)
    case AtMute => Mute(h, f.recordFails)
    case AtInsert => Insert(h, f.insertFails)
    case AtSelect => Select(h, f.selectFails)
  }

  function StepsLeft(pc: HandlerPc): nat {
    match pc
    case AtCheck => 3
    case AtGate => 2
    case AtInsert => 1
    case _ => 0
  }

  lemma RequestGoesOn(s: State, h: nat, f: RequestFate)
    requires h in s.handlers && StepAnswer(s, NextRequestStep(s, h, f)).None?
    ensures var s' := Apply(s, NextRequestStep(s, h, f));
      h in s'.handlers && s'.handlers[h].row == s.handlers[h].row
        && StepsLeft(s'.handlers[h].pc) < StepsLeft(s.handlers[h].pc)
  {
    hide Inserted, InsertedId, PendingKey, Marked;
  }

  /** The handler's steps from where it stands to its answer, uninterrupted. */
  function FinishRequest(s: State, h: nat, f: RequestFate): (r: (State, Answer))
    requires h in s.handlers
    decreases StepsLeft(s.handlers[h].pc)
  {
    var ev := NextRequestStep(s, h, f);
    match StepAnswer(s, ev)
    case Some(a) => (Apply(s, ev), a)
    case None => RequestGoesOn(s, h, f); FinishRequest(Apply(s, ev), h, f)
  }

  lemma FinishInserting(s: State, h: nat, f: RequestFate)
    requires h in s.handlers && s.handlers[h].pc == AtInsert
    ensures var (s', a), row := FinishRequest(s, h, f), s.handlers[h].row;
      var t' := if f.insertFails then s.tables else Inserted(s.tables, row);
      && s'.tables == t'
      && var queued := !f.insertFails && InsertedId(s.tables, row).Some?;
      a == if queued || (!f.selectFails && PendingKey(t', row.dedupeKey)) then Pending else Unavailable
  {
    hide Inserted, InsertedId, PendingKey;
    var row := s.handlers[h].row;
    var ev := Insert(h, f.insertFails);
    assert NextRequestStep(s, h, f) == ev;
    if StepAnswer(s, ev).None? {
      var next := Apply(s, ev);
      assert next.handlers[h] == Handler(row, AtSelect);
      assert NextRequestStep(next, h, f) == Select(h, f.selectFails);
    }
  }

  lemma FinishGating(s: State, h: nat, f: RequestFate)
    requires h in s.handlers && s.handlers[h].pc == AtGate && s.handlers[h].row.dedupeKey !in s.tables.deliveries
    ensures var (s', a) := FinishRequest(s, h, f);
      (s'.tables, a) == Accept(s.tables, s.handlers[h].row, f.(checkFails := false))
  {
    hide Inserted, InsertedId, PendingKey;
    var row := s.handlers[h].row;
    var ev := Gated(h, f.valid, f.muted);
    assert NextRequestStep(s, h, f) == ev;
    if f.valid {
      var next := Apply(s, ev);
      assert StepAnswer(s, ev) == None && FinishRequest(s, h, f) == FinishRequest(next, h, f);
      if TrimSpace(row.route) == "" && f.muted {
        assert next.handlers[h] == Handler(row, AtMute);
        assert NextRequestStep(next, h, f) == Mute(h, f.recordFails);
      } else {
        assert next.handlers[h] == Handler(row, AtInsert);
        hide FinishRequest;
        FinishInserting(next, h, f);
      }
    }
  }

  /** Run without interruption, the steps of a request change the tables and answer just as the code does. */
  lemma RequestStepsAreTheCode(s: State, h: nat, f: RequestFate)
    requires h in s.handlers && s.handlers[h].pc == AtCheck
    ensures var (s', a) := FinishRequest(s, h, f); (s'.tables, a) == Accept(s.tables, s.handlers[h].row, f)
  {
    hide Inserted, InsertedId, PendingKey;
    var ev := Checked(h, f.checkFails);
    assert NextRequestStep(s, h, f) == ev;
    if StepAnswer(s, ev).None? {
      var next := Apply(s, ev);
      assert FinishRequest(s, h, f) == FinishRequest(next, h, f);
      assert next.handlers[h] == s.handlers[h].(pc := AtGate) && next.tables == s.tables;
      hide FinishRequest;
      FinishGating(next, h, f);
      assert f.(checkFails := false) == f;
    }
  }
}
