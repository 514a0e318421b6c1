/** The durable notification queue (internal/bridge/notifications.go, pending.go): any number of request
    handlers and drains, interleaved at SQL statements and sends, each of which may fail. */
module NotificationQueue {
  import opened Options
  import opened Decimals
  import opened NeonTables
  import opened Text

  const MAX_ATTEMPTS := 3

  // ---------------------------------------------------------------- thread ids

  /** The row goes to Messenger under a thread id that is no number. */
  predicate BadThread(row: Row) {
    row.route == "" && row.platform != "whatsapp" && row.platform != "discord" && !IsInt64(row.threadId)
  }

  // ---------------------------------------------------------------- state

  /** Where a drain stands with its current row. */
  datatype Pc =
    | Check
    | RemoveDuplicate
    | Decide
    | RecordMuted | RemoveMuted
    | RecordGivenUp | RemoveGivenUp
    | RemoveBadThread
    | Send
    | CountFailure
    | RecordSent | RemoveSent

  /** The rows a drain still has in hand, as it read them; the first is the current one. */
  datatype Drain = Drain(rows: seq<(nat, Row)>, pc: Pc)

  datatype HandlerPc = AtCheck | AtGate | AtMute | AtInsert | AtSelect

  datatype Handler = Handler(row: Row, pc: HandlerPc)

  /** `accepted`, `sends` and `unrecorded` are bookkeeping: keys answered with success, successful sends by
      key, and successful sends whose delivery record was not written. */
  datatype State = State(tables: Tables, drains: map<nat, Drain>, handlers: map<nat, Handler>,
                         accepted: set<string>, sends: multiset<string>, unrecorded: multiset<string>)

  datatype Event =
    | Arrive(h: nat, row: Row)
    | Checked(h: nat, fails: bool)
    | Gated(h: nat, valid: bool, muted: bool)
    | Mute(h: nat, fails: bool)
    | Insert(h: nat, fails: bool)
    | Select(h: nat, fails: bool)
    | SavePlain(row: Row)
    | StartDrain(d: nat, ids: seq<nat>)
    | DrainChecks(d: nat, fails: bool)
    | DrainDecides(d: nat, muted: bool, connected: bool)
    | DrainSends(d: nat, ok: bool)
    | DrainCounts(d: nat, fails: bool)
    | DrainRecords(d: nat, fails: bool)
    | DrainRemoves(d: nat, fails: bool)
    | StopDrain(d: nat)

  predicate HandlerAt(s: State, h: nat, pc: HandlerPc) {
    h in s.handlers && s.handlers[h].pc == pc
  }

  predicate DrainAt(s: State, d: nat, pc: Pc) {
    d in s.drains && s.drains[d].rows != [] && s.drains[d].pc == pc
  }

  predicate Records(pc: Pc) {
    pc == RecordMuted || pc == RecordGivenUp || pc == RecordSent
  }

  predicate Discards(pc: Pc) {
    pc == RemoveMuted || pc == RemoveGivenUp || pc == RemoveBadThread
  }

  predicate Removes(pc: Pc) {
    Discards(pc) || pc == RemoveDuplicate || pc == RemoveSent
  }

  predicate Enabled(s: State, ev: Event) {
    match ev
    case Arrive(h, row) => h !in s.handlers && row.dedupeKey != ""
    case Checked(h, _) => HandlerAt(s, h, AtCheck)
    case Gated(h, _, _) => HandlerAt(s, h, AtGate)
    case Mute(h, _) => HandlerAt(s, h, AtMute)
    case Insert(h, _) => HandlerAt(s, h, AtInsert)
    case Select(h, _) => HandlerAt(s, h, AtSelect)
    case SavePlain(row) => row.dedupeKey == ""
    case StartDrain(d, ids) =>
      && d !in s.drains && ids != []
      && (forall i, j :: 0 <= i < j < |ids| ==> ids[i] != ids[j])
      && (forall id :: id in ids ==> id in s.tables.pending)
      && (forall id :: id in s.tables.pending ==> id in ids)
    case DrainChecks(d, _) => DrainAt(s, d, Check)
    case DrainDecides(d, _, _) => DrainAt(s, d, Decide)
    case DrainSends(d, _) => DrainAt(s, d, Send)
    case DrainCounts(d, _) => DrainAt(s, d, CountFailure)
    case DrainRecords(d, _) => d in s.drains && s.drains[d].rows != [] && Records(s.drains[d].pc)
    case DrainRemoves(d, _) => d in s.drains && s.drains[d].rows != [] && Removes(s.drains[d].pc)
    case StopDrain(d) => d in s.drains
  }

  function Rows(t: Tables, ids: seq<nat>): (r: seq<(nat, Row)>)
    requires forall id :: id in ids ==> id in t.pending
    ensures |r| == |ids|
    ensures forall i :: 0 <= i < |r| ==> r[i] == (ids[i], t.pending[ids[i]])
  {
    seq(|ids|, i requires 0 <= i < |ids| => assert ids[i] in ids; (ids[i], t.pending[ids[i]]))
  }

  // ---------------------------------------------------------------- steps

  function Ended(s: State, h: nat): State {
    s.(handlers := s.handlers - {h})
  }

  function HandlerTo(s: State, h: nat, pc: HandlerPc): State
    requires h in s.handlers
  {
    s.(handlers := s.handlers[h := s.handlers[h].(pc := pc)])
  }

  function Accepted(s: State, h: nat): State
    requires h in s.handlers
  {
    Ended(s, h).(accepted := s.accepted + {s.handlers[h].row.dedupeKey})
  }

  function DrainTo(s: State, d: nat, pc: Pc): State
    requires d in s.drains
  {
    s.(drains := s.drains[d := s.drains[d].(pc := pc)])
  }

  /** On to the next row, or done. */
  function NextRow(s: State, d: nat): State
    requires d in s.drains && s.drains[d].rows != []
  {
    if |s.drains[d].rows| == 1 then s.(drains := s.drains - {d})
    else s.(drains := s.drains[d := Drain(s.drains[d].rows[1..], Check)])
  }

  /** The branches of drainPending between the delivered check and the next statement. */
  function Decision(row: Row, muted: bool, connected: bool): (pc: Option<Pc>) {
    if row.route == "" && muted then Some(if row.dedupeKey != "" then RecordMuted else RemoveMuted)
    else if row.attempts >= MAX_ATTEMPTS then Some(if row.dedupeKey != "" then RecordGivenUp else RemoveGivenUp)
    else if !connected then None
    else if BadThread(row) then Some(RemoveBadThread)
    else Some(Send)
  }

  function AfterRecord(pc: Pc): Pc {
    match pc
    case RecordMuted => RemoveMuted
    case RecordGivenUp => RemoveGivenUp
    case _ => RemoveSent
  }

  function Apply(s: State, ev: Event): (s': State)
    requires Enabled(s, ev)
  {
    match ev
    case Arrive(h, row) => s.(handlers := s.handlers[h := Handler(row, AtCheck)])
    case Checked(h, fails) =>
      if fails then Ended(s, h)
      else if s.handlers[h].row.dedupeKey in s.tables.deliveries then Accepted(s, h)
      else HandlerTo(s, h, AtGate)
    case Gated(h, valid, muted) =>
      if !valid then Ended(s, h)
      else HandlerTo(s, h, if TrimSpace(s.handlers[h].row.route) == "" && muted then AtMute else AtInsert)
    case Mute(h, fails) =>
      // the error of MarkDelivered is ignored and the answer is "muted" either way
      if fails then Accepted(s, h)
      else Accepted(s, h).(tables := Marked(s.tables, s.handlers[h].row.dedupeKey))
    case Insert(h, fails) =>
      var row := s.handlers[h].row;
      if fails then HandlerTo(s, h, AtSelect)
      else if InsertedId(s.tables, row).Some? then Accepted(s, h).(tables := Inserted(s.tables, row))
      else HandlerTo(s, h, AtSelect).(tables := Inserted(s.tables, row))
    case Select(h, fails) =>
      if !fails && PendingKey(s.tables, s.handlers[h].row.dedupeKey) then Accepted(s, h) else Ended(s, h)
    case SavePlain(row) => s.(tables := Inserted(s.tables, row))
    case StartDrain(d, ids) => s.(drains := s.drains[d := Drain(Rows(s.tables, ids), Check)])
    case DrainChecks(d, fails) =>
      var key := s.drains[d].rows[0].1.dedupeKey;
      if key == "" then DrainTo(s, d, Decide)
      else if fails then NextRow(s, d)
      else DrainTo(s, d, if key in s.tables.deliveries then RemoveDuplicate else Decide)
    case DrainDecides(d, muted, connected) =>
      (match Decision(s.drains[d].rows[0].1, muted, connected)
       case None => NextRow(s, d)
       case Some(pc) => DrainTo(s, d, pc))
    case DrainSends(d, ok) =>
      if ok then DrainTo(s, d, RecordSent).(sends := s.sends + multiset{s.drains[d].rows[0].1.dedupeKey})
      else DrainTo(s, d, CountFailure)
    case DrainCounts(d, fails) =>
      NextRow(s, d).(tables := if fails then s.tables else Bumped(s.tables, s.drains[d].rows[0].0))
    case DrainRecords(d, fails) =>
      var key, pc := s.drains[d].rows[0].1.dedupeKey, s.drains[d].pc;
      if key == "" || !fails then DrainTo(s, d, AfterRecord(pc)).(tables := Marked(s.tables, key))
      else if pc == RecordSent then NextRow(s, d).(unrecorded := s.unrecorded + multiset{key})
      else DrainTo(s, d, AfterRecord(pc))
    case DrainRemoves(d, fails) =>
      NextRow(s, d).(tables := if fails then s.tables else Deleted(s.tables, s.drains[d].rows[0].0))
    case StopDrain(d) =>
      // the process stops this drain; a send already made goes without its record
      var forgotten := if DrainAt(s, d, RecordSent) then multiset{s.drains[d].rows[0].1.dedupeKey} else multiset{};
      s.(drains := s.drains - {d}, unrecorded := s.unrecorded + forgotten)
  }

  /** A run starts with whatever the tables hold after a restart. */
  ghost predicate Run(states: seq<State>, events: seq<Event>) {
    && |states| == |events| + 1
    && Initial(states[0])
    && forall i :: 0 <= i < |events| ==> Enabled(states[i], events[i]) && states[i + 1] == Apply(states[i], events[i])
  }

  ghost predicate Initial(s: State) {
    && TablesOk(s.tables)
    && s.drains == map[] && s.handlers == map[]
    && s.accepted ==
      (set i | i in s.tables.pending && s.tables.pending[i].dedupeKey != "" :: s.tables.pending[i].dedupeKey)
    && s.sends == multiset{} && s.unrecorded == multiset{}
  }

  // ---------------------------------------------------------------- the invariant

  /** A drain's copy of a row carries the key the row has, as long as the row exists. */
  ghost predicate CopyOk(t: Tables, copy: (nat, Row)) {
    copy.0 < t.nextId && (copy.0 in t.pending ==> t.pending[copy.0].dedupeKey == copy.1.dedupeKey)
  }

  ghost predicate DrainOk(t: Tables, dr: Drain) {
    && (forall i :: 0 <= i < |dr.rows| ==> CopyOk(t, dr.rows[i]))
    && (dr.rows != [] && (dr.pc == RemoveDuplicate || dr.pc == RemoveSent) ==>
          dr.rows[0].1.dedupeKey == "" || dr.rows[0].1.dedupeKey in t.deliveries)
  }

  ghost predicate Inv(s: State) {
    && TablesOk(s.tables)
    && (forall d :: d in s.drains ==> DrainOk(s.tables, s.drains[d]))
    && (forall h :: h in s.handlers ==> s.handlers[h].row.dedupeKey != "")
    && (forall k :: k in s.accepted ==> k != "")
    && (forall k :: k != "" && PendingKey(s.tables, k) ==> k in s.accepted)
  }

  /** Rows only change, appear and go by these operations, and copies stay right under all of them. */
  lemma OperationsKeepDrains(s: State, row: Row, key: string, id: nat)
    requires Inv(s)
    ensures forall d :: d in s.drains ==> DrainOk(Inserted(s.tables, row), s.drains[d])
    ensures forall d :: d in s.drains ==> DrainOk(Marked(s.tables, key), s.drains[d])
    ensures forall d :: d in s.drains ==> DrainOk(Deleted(s.tables, id), s.drains[d])
    ensures forall d :: d in s.drains ==> DrainOk(Bumped(s.tables, id), s.drains[d])
  {
  }

  lemma InsertedKeys(t: Tables, row: Row, k: string)
    requires PendingKey(Inserted(t, row), k)
    ensures PendingKey(t, k) || k == row.dedupeKey
  {
    var i :| i in Inserted(t, row).pending && Inserted(t, row).pending[i].dedupeKey == k;
    if i in t.pending && t.pending[i].dedupeKey == k {
      assert PendingKey(t, k);
    }
  }

  predicate HandlerEvent(ev: Event) {
    ev.Arrive? || ev.Checked? || ev.Gated? || ev.Mute? || ev.Insert? || ev.Select? || ev.SavePlain?
  }

  predicate DrainEvent(ev: Event) {
    ev.DrainChecks? || ev.DrainDecides? || ev.DrainSends? || ev.DrainCounts? || ev.DrainRecords? || ev.DrainRemoves?
  }

  /** The key a handler step is about. */
  function HandlerRow(s: State, ev: Event): (row: Row)
    requires HandlerEvent(ev) && Enabled(s, ev)
  {
    if ev.SavePlain? then ev.row else if ev.Arrive? then ev.row else s.handlers[ev.h].row
  }

  /** What a handler step can do to the tables and the bookkeeping. */
  lemma HandlerEffect(s: State, ev: Event)
    requires HandlerEvent(ev) && Enabled(s, ev)
    ensures var s', row := Apply(s, ev), HandlerRow(s, ev);
      && s'.drains == s.drains && s'.sends == s.sends && s'.unrecorded == s.unrecorded
      && s'.tables in {s.tables, Marked(s.tables, row.dedupeKey), Inserted(s.tables, row)}
      && s.accepted <= s'.accepted <= s.accepted + (if ev.SavePlain? then {} else {row.dedupeKey})
      && (s'.tables == Inserted(s.tables, row) && InsertedId(s.tables, row).Some? && !ev.SavePlain? ==>
          row.dedupeKey in s'.accepted)
  {
    hide Inserted, PendingKey;
    InsertedDiffers(s.tables, HandlerRow(s, ev));
  }

  lemma InsertedDiffers(t: Tables, row: Row)
    ensures Inserted(t, row) != t && Inserted(t, row).nextId != Marked(t, row.dedupeKey).nextId
  {
  }

  lemma HandlerHandlers(s: State, ev: Event)
    requires HandlerEvent(ev) && Enabled(s, ev)
    requires forall h :: h in s.handlers ==> s.handlers[h].row.dedupeKey != ""
    ensures forall h :: h in Apply(s, ev).handlers ==> Apply(s, ev).handlers[h].row.dedupeKey != ""
  {
    hide Inserted, InsertedId, PendingKey, Marked;
  }

  lemma HandlerStepKeeps(s: State, ev: Event)
    requires Inv(s) && HandlerEvent(ev) && Enabled(s, ev)
    ensures Inv(Apply(s, ev))
  {
    hide DrainOk, TablesOk, Apply, Enabled;
    var s' := Apply(s, ev);
    var row := HandlerRow(s, ev);
    HandlerEffect(s, ev);
    HandlerHandlers(s, ev);
    HandlerRowKey(s, ev);
    OperationsKeepOk(s.tables, row, row.dedupeKey, 0);
    OperationsKeepDrains(s, row, row.dedupeKey, 0);
    forall k | k != "" && PendingKey(s'.tables, k) ensures k in s'.accepted {
      if !PendingKey(s.tables, k) {
        InsertedKeys(s.tables, row, k);
      }
    }
  }

  lemma HandlerRowKey(s: State, ev: Event)
    requires Inv(s) && HandlerEvent(ev) && Enabled(s, ev)
    ensures ev.SavePlain? <==> HandlerRow(s, ev).dedupeKey == ""
  {
    hide DrainOk, TablesOk;
  }

  lemma NextRowKeeps(t: Tables, s: State, d: nat)
    requires d in s.drains && s.drains[d].rows != []
    requires forall e :: e in s.drains ==> DrainOk(t, s.drains[e])
    ensures forall e :: e in NextRow(s, d).drains ==> DrainOk(t, NextRow(s, d).drains[e])
  {
  }

  /** What a drain step can do to the tables: nothing, or one statement about its current row. */
  lemma DrainEffect(s: State, ev: Event)
    requires DrainEvent(ev) && Enabled(s, ev)
    ensures var s', copy := Apply(s, ev), s.drains[ev.d].rows[0];
      && s'.tables in {s.tables, Marked(s.tables, copy.1.dedupeKey), Deleted(s.tables, copy.0),
                       Bumped(s.tables, copy.0)}
      && s'.accepted == s.accepted && s'.handlers == s.handlers
      && (s'.drains == NextRow(s, ev.d).drains || exists pc :: s'.drains == DrainTo(s, ev.d, pc).drains)
  {
    hide Deleted, Bumped, Marked, BadThread, TrimSpace, Decision, NextRow, DrainTo;
    DrainFrames(s, ev.d);
    var d := ev.d;
    match ev
    case DrainChecks(_, _) =>
      assert Apply(s, ev).drains in {NextRow(s, d).drains, DrainTo(s, d, Decide).drains,
                                     DrainTo(s, d, RemoveDuplicate).drains};
    case DrainDecides(_, muted, connected) =>
      var dec := Decision(s.drains[d].rows[0].1, muted, connected);
      if dec.Some? {
        assert Apply(s, ev).drains == DrainTo(s, d, dec.value).drains;
      }
    case DrainSends(_, _) =>
      assert Apply(s, ev).drains in {DrainTo(s, d, RecordSent).drains, DrainTo(s, d, CountFailure).drains};
    case DrainCounts(_, _) =>
    case DrainRecords(_, _) =>
      assert Apply(s, ev).drains in {NextRow(s, d).drains, DrainTo(s, d, AfterRecord(s.drains[d].pc)).drains};
    case DrainRemoves(_, _) =>
  }

  /** Moving a drain touches the drains only. */
  lemma DrainFrames(s: State, d: nat)
    requires d in s.drains && s.drains[d].rows != []
    ensures NextRow(s, d) == s.(drains := NextRow(s, d).drains)
    ensures forall pc :: DrainTo(s, d, pc) == s.(drains := DrainTo(s, d, pc).drains)
  {
  }

  lemma DrainStepKeeps(s: State, ev: Event)
    requires Inv(s) && DrainEvent(ev) && Enabled(s, ev)
    ensures Inv(Apply(s, ev))
  {
    hide TablesOk, Apply, DrainOk;
    var s' := Apply(s, ev);
    var id, row := s.drains[ev.d].rows[0].0, s.drains[ev.d].rows[0].1;
    DrainEffect(s, ev);
    OperationsKeepOk(s.tables, row, row.dedupeKey, id);
    OperationsKeepDrains(s, row, row.dedupeKey, id);
    DrainDrains(s, ev);
    PendingShrinks(s, ev);
  }

  /** The drains after a step: the current one moved on, and to a removing point only with its key on record. */
  lemma DrainDrains(s: State, ev: Event)
    requires Inv(s) && DrainEvent(ev) && Enabled(s, ev)
    requires forall d :: d in s.drains ==> DrainOk(Apply(s, ev).tables, s.drains[d])
    ensures forall d :: d in Apply(s, ev).drains ==> DrainOk(Apply(s, ev).tables, Apply(s, ev).drains[d])
  {
    hide DrainOk, Apply, Inv;
    var s', d := Apply(s, ev), ev.d;
    DrainGoes(s, ev);
    if s'.drains == NextRow(s, d).drains {
      NextRowKeeps(s'.tables, s, d);
    } else {
      MovedDrainOk(s'.tables, s.drains[d], s'.drains[d].pc);
    }
  }

  /** Where a step takes its drain, and what holds at the removing points after a record. */
  lemma DrainGoes(s: State, ev: Event)
    requires DrainEvent(ev) && Enabled(s, ev)
    ensures var s', d := Apply(s, ev), ev.d;
      var key := s.drains[d].rows[0].1.dedupeKey;
      || s'.drains == NextRow(s, d).drains
      || (&& d in s'.drains && s'.drains == s.drains[d := s.drains[d].(pc := s'.drains[d].pc)]
          && (s'.drains[d].pc == RemoveDuplicate || s'.drains[d].pc == RemoveSent ==>
              key == "" || key in s'.tables.deliveries))
  {
    hide Deleted, Bumped, BadThread, TrimSpace, NextRow, Decision;
    DrainFrames(s, ev.d);
    if ev.DrainDecides? {
      DecisionRemoves(s.drains[ev.d].rows[0].1, ev.muted, ev.connected);
    }
  }

  lemma DecisionRemoves(row: Row, muted: bool, connected: bool)
    ensures Decision(row, muted, connected) != Some(RemoveDuplicate)
      && Decision(row, muted, connected) != Some(RemoveSent)
  {
    hide BadThread;
  }

  lemma MovedDrainOk(t: Tables, dr: Drain, pc: Pc)
    requires DrainOk(t, dr) && dr.rows != []
    requires pc == RemoveDuplicate || pc == RemoveSent ==>
      dr.rows[0].1.dedupeKey == "" || dr.rows[0].1.dedupeKey in t.deliveries
    ensures DrainOk(t, dr.(pc := pc))
  {
  }

  /** No drain step makes a key pending that was not. */
  lemma PendingShrinks(s: State, ev: Event)
    requires DrainEvent(ev) && Enabled(s, ev)
    ensures forall k :: PendingKey(Apply(s, ev).tables, k) ==> PendingKey(s.tables, k)
  {
    hide Apply;
    DrainEffect(s, ev);
    var t, t', id := s.tables, Apply(s, ev).tables, s.drains[ev.d].rows[0].0;
    forall k | PendingKey(t', k) ensures PendingKey(t, k) {
      BumpKeepsKeys(t, id, k);
      var i :| i in t'.pending && t'.pending[i].dedupeKey == k;
      assert t' != Bumped(t, id) ==> i in t.pending && t.pending[i].dedupeKey == k;
    }
  }

  lemma StartStopKeeps(s: State, ev: Event)
    requires Inv(s) && Enabled(s, ev) && (ev.StartDrain? || ev.StopDrain?)
    ensures Inv(Apply(s, ev))
  {
    hide TablesOk;
    if ev.StartDrain? {
      forall i | 0 <= i < |ev.ids| ensures CopyOk(s.tables, Rows(s.tables, ev.ids)[i]) {
        assert ev.ids[i] in ev.ids;
        PendingIdsBelowNext(s.tables, ev.ids[i]);
      }
    }
  }

  lemma PendingIdsBelowNext(t: Tables, id: nat)
    requires TablesOk(t) && id in t.pending
    ensures id < t.nextId
  {
  }

  /** Every step keeps the invariant; in particular the queue never holds two rows with one non-empty key. */
  lemma StepKeeps(s: State, ev: Event)
    requires Inv(s) && Enabled(s, ev)
    ensures Inv(Apply(s, ev))
  {
    hide Inv, Apply;
    if ev.StartDrain? || ev.StopDrain? {
      StartStopKeeps(s, ev);
    } else if DrainEvent(ev) {
      DrainStepKeeps(s, ev);
    } else {
      HandlerStepKeeps(s, ev);
    }
  }

  lemma InitialInv(s: State)
    requires Initial(s)
    ensures Inv(s)
  {
    forall k | k != "" && PendingKey(s.tables, k) ensures k in s.accepted {
      var i :| i in s.tables.pending && s.tables.pending[i].dedupeKey == k;
    }
  }

  lemma {:induction false} RunInv(states: seq<State>, events: seq<Event>, n: nat)
    requires Run(states, events) && n < |states|
    ensures Inv(states[n])
  {
    hide Inv, Apply, Enabled, Initial;
    if n == 0 {
      InitialInv(states[0]);
    } else {
      RunInv(states, events, n - 1);
      StepKeeps(states[n - 1], events[n - 1]);
    }
  }
}
