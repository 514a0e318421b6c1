/** When a drain sends a queued row, passes over it, or drops it (internal/bridge/pending.go), told from what the run
    did before: the failed sends of the row that were counted until the drain read it. */
module GivingUp {
  import opened Decimals
  import opened NeonTables
  import opened NotificationQueue

  /** This step counts a failed send of the row. */
  predicate CountsFor(s: State, ev: Event, id: nat) {
    ev.DrainCounts? && !ev.fails && ev.d in s.drains && s.drains[ev.d].rows != [] && s.drains[ev.d].rows[0].0 == id
  }

  /** How often that happened in the first n steps. */
  function Counted(states: seq<State>, events: seq<Event>, n: nat, id: nat): (c: nat)
    requires n <= |events| <= |states|
  {
    if n == 0 then 0
    else Counted(states, events, n - 1, id) + (if CountsFor(states[n - 1], events[n - 1], id) then 1 else 0)
  }

  /** A row that was there when the run began may have been counted before. */
  function CountedBefore(s: State, id: nat): (c: nat) {
    if id in s.tables.pending then s.tables.pending[id].attempts else 0
  }

  function Failures(states: seq<State>, events: seq<Event>, n: nat, id: nat): (c: nat)
    requires n <= |events| < |states|
  {
    CountedBefore(states[0], id) + Counted(states, events, n, id)
  }

  /** Drain d read the queue in step k and has been at it since. */
  ghost predicate ReadAt(states: seq<State>, events: seq<Event>, k: nat, n: nat, d: nat) {
    && k < n <= |events| < |states|
    && events[k].StartDrain? && events[k].d == d
    && forall j :: k < j <= n ==> d in states[j].drains
  }

  // ---------------------------------------------------------------- attempts are failures counted

  ghost predicate AttemptsTold(states: seq<State>, events: seq<Event>, n: nat)
    requires n <= |events| < |states|
  {
    && (forall id :: id in states[n].tables.pending ==>
          states[n].tables.pending[id].attempts == Failures(states, events, n, id))
    && (forall id: nat :: id >= states[n].tables.nextId ==> Failures(states, events, n, id) == 0)
  }

  lemma TablesAfter(s: State, ev: Event, id: nat)
    requires Inv(s) && Enabled(s, ev)
    ensures var t, t' := s.tables, Apply(s, ev).tables;
      && t'.nextId >= t.nextId
      && (id in t'.pending && id in t.pending ==>
            t'.pending[id].attempts == t.pending[id].attempts + if CountsFor(s, ev, id) then 1 else 0)
      && (id in t'.pending && id !in t.pending ==> id == t.nextId && t'.pending[id].attempts == 0)
      && (id >= t.nextId ==> !CountsFor(s, ev, id))
  {
    if HandlerEvent(ev) {
      hide Apply;
      HandlerEffect(s, ev);
    } else if DrainEvent(ev) {
      DrainTablesAfter(s, ev, id);
    }
  }

  lemma DrainTablesAfter(s: State, ev: Event, id: nat)
    requires Inv(s) && Enabled(s, ev) && DrainEvent(ev)
    ensures var t, t' := s.tables, Apply(s, ev).tables;
      && t'.nextId == t.nextId
      && (id in t'.pending ==>
            && id in t.pending
            && t'.pending[id].attempts == t.pending[id].attempts + if CountsFor(s, ev, id) then 1 else 0)
      && (id >= t.nextId ==> !CountsFor(s, ev, id))
  {
    hide BadThread, Decision;
    var copy := s.drains[ev.d].rows[0];
    assert CopyOk(s.tables, copy);
  }

  lemma {:induction false} AttemptsAreFailures(states: seq<State>, events: seq<Event>, n: nat)
    requires Run(states, events) && n <= |events|
    ensures AttemptsTold(states, events, n)
  {
    hide Apply, Enabled, Inv, CountsFor;
    if n == 0 {
      StartsCounted(states[0]);
    } else {
      AttemptsAreFailures(states, events, n - 1);
      RunInv(states, events, n - 1);
      forall id: nat
        ensures id in states[n].tables.pending ==>
          states[n].tables.pending[id].attempts == Failures(states, events, n, id)
        ensures id >= states[n].tables.nextId ==> Failures(states, events, n, id) == 0
      {
        TablesAfter(states[n - 1], events[n - 1], id);
      }
    }
  }

  lemma StartsCounted(s: State)
    requires Initial(s)
    ensures forall id: nat :: id >= s.tables.nextId ==> CountedBefore(s, id) == 0
  {
  }

  // ---------------------------------------------------------------- what a drain has in hand

  /** These are rows as the table held them. */
  predicate AsRead(t: Tables, rows: seq<(nat, Row)>) {
    forall i :: 0 <= i < |rows| ==> rows[i].0 in t.pending && rows[i].1 == t.pending[rows[i].0]
  }

  lemma DrainKeepsRows(s: State, ev: Event, t: Tables, d: nat)
    requires Enabled(s, ev) && d in s.drains && d in Apply(s, ev).drains && AsRead(t, s.drains[d].rows)
    ensures AsRead(t, Apply(s, ev).drains[d].rows)
  {
    hide Apply;
    if HandlerEvent(ev) {
      HandlerEffect(s, ev);
    } else if DrainEvent(ev) {
      DrainEffect(s, ev);
    } else {
      StartStopKeepsRows(s, ev, t, d);
    }
  }

  lemma StartStopKeepsRows(s: State, ev: Event, t: Tables, d: nat)
    requires Enabled(s, ev) && (ev.StartDrain? || ev.StopDrain?)
    requires d in s.drains && d in Apply(s, ev).drains && AsRead(t, s.drains[d].rows)
    ensures AsRead(t, Apply(s, ev).drains[d].rows)
  {
    hide AsRead, Rows;
  }

  lemma StartReads(s: State, ev: Event)
    requires Enabled(s, ev) && ev.StartDrain?
    ensures AsRead(s.tables, Apply(s, ev).drains[ev.d].rows)
  {
  }

  lemma {:induction false} RowsAsRead(states: seq<State>, events: seq<Event>, k: nat, n: nat, d: nat)
    requires Run(states, events) && ReadAt(states, events, k, n, d)
    ensures AsRead(states[k].tables, states[n].drains[d].rows)
  {
    hide Apply, Enabled, AsRead;
    if n == k + 1 {
      StartReads(states[k], events[k]);
    } else {
      assert d in states[n - 1].drains && d in states[n].drains;
      RowsAsRead(states, events, k, n - 1, d);
      DrainKeepsRows(states[n - 1], events[n - 1], states[k].tables, d);
    }
  }

  // ---------------------------------------------------------------- what becomes of a row

  /** Without a route the row goes to a thread of its platform; for Messenger that has to be a number. */
  predicate GoodThread(row: Row) {
    row.route != "" || row.platform == "whatsapp" || row.platform == "discord" || IsInt64(row.threadId)
  }

  /** The points at which a row is about to be dropped as muted, or given up. */
  predicate DropsMuted(pc: Pc) {
    pc == RecordMuted || pc == RemoveMuted
  }

  predicate GivesUp(pc: Pc) {
    pc == RecordGivenUp || pc == RemoveGivenUp
  }

  /** Over every run: what a drain decides about the row in its hand. `k` is the step in which it read the queue, and
      `failures` the failed sends of the row counted until then. */
  lemma DecisionTells(states: seq<State>, events: seq<Event>, k: nat, n: nat, d: nat, muted: bool, connected: bool)
    requires Run(states, events) && n < |events| && events[n] == DrainDecides(d, muted, connected)
    requires ReadAt(states, events, k, n, d)
    ensures d in states[n].drains && states[n].drains[d].rows != []
    ensures var (id, row) := states[n].drains[d].rows[0];
      var failures := Failures(states, events, k, id);
      var after := states[n + 1].drains;
      && id in states[k].tables.pending && row == states[k].tables.pending[id] && row.attempts == failures
      && (if row.route == "" && muted then d in after && DropsMuted(after[d].pc)
          else if failures >= 3 then d in after && GivesUp(after[d].pc)
          else if !connected then DrainEnds(states[n], d, states[n + 1]) || NextTaken(states[n], d, states[n + 1])
          else if GoodThread(row) then d in after && after[d].pc == Send
          else d in after && after[d].pc == RemoveBadThread)
      && (connected || failures >= 3 || (row.route == "" && muted) ==> after[d].rows == states[n].drains[d].rows)
  {
    RowsAsRead(states, events, k, n, d);
    AttemptsAreFailures(states, events, k);
    assert Enabled(states[n], events[n]) && states[n + 1] == Apply(states[n], events[n]);
    hide Run, ReadAt, Failures, IsInt64;
  }

  /** Before it decides, a drain looks the key up: a row whose key is on record is removed as a duplicate, and one whose
      look-up fails is passed over. */
  lemma CheckTells(states: seq<State>, events: seq<Event>, n: nat, d: nat, fails: bool)
    requires Run(states, events) && n < |events| && events[n] == DrainChecks(d, fails)
    ensures d in states[n].drains && states[n].drains[d].rows != []
    ensures var key, after := states[n].drains[d].rows[0].1.dedupeKey, states[n + 1].drains;
      if key == "" then d in after && after[d].pc == Decide
      else if fails then DrainEnds(states[n], d, states[n + 1]) || NextTaken(states[n], d, states[n + 1])
      else d in after && after[d].pc == if key in states[n].tables.deliveries then RemoveDuplicate else Decide
  {
    assert Enabled(states[n], events[n]) && states[n + 1] == Apply(states[n], events[n]);
  }

  /** Whoever has rows in hand has read them in some step. */
  lemma {:induction false} SomeStepRead(states: seq<State>, events: seq<Event>, n: nat, d: nat) returns (k: nat)
    requires Run(states, events) && n <= |events| && d in states[n].drains
    ensures ReadAt(states, events, k, n, d)
  {
    hide Apply, Enabled, TablesOk;
    k := n - 1;
    if d in states[n - 1].drains {
      k := SomeStepRead(states, events, n - 1, d);
    } else {
      OnlyStartsAdd(states[n - 1], events[n - 1], d);
    }
  }

  lemma OnlyStartsAdd(s: State, ev: Event, d: nat)
    requires Enabled(s, ev) && d !in s.drains && d in Apply(s, ev).drains
    ensures ev == StartDrain(d, ev.ids)
  {
    hide Apply;
    if HandlerEvent(ev) {
      HandlerEffect(s, ev);
    } else if DrainEvent(ev) {
      DrainEffect(s, ev);
    } else {
      StartAdds(s, ev, d);
    }
  }

  lemma StartAdds(s: State, ev: Event, d: nat)
    requires Enabled(s, ev) && (ev.StartDrain? || ev.StopDrain?) && d !in s.drains && d in Apply(s, ev).drains
    ensures ev.StartDrain? && ev.d == d
  {
    hide Rows;
  }

  /** A row inserted in step m has no failures before it. */
  lemma NoFailuresYet(states: seq<State>, events: seq<Event>, m: nat, k: nat, id: nat)
    requires Run(states, events) && m <= k <= |events| && id == states[m].tables.nextId
    ensures Failures(states, events, k, id) == Counted(states, events, k, id) - Counted(states, events, m, id)
    ensures Counted(states, events, m, id) == 0
  {
    AttemptsAreFailures(states, events, m);
    hide Run, CountsFor;
  }

  /** What the steps after a decision write, and when the drain goes on to its next row. */
  lemma StepWrites(s: State, ev: Event)
    requires Enabled(s, ev) && DrainEvent(ev) && !ev.DrainChecks? && !ev.DrainDecides?
    ensures var s', d := Apply(s, ev), ev.d;
      var (id, row), t, t', pc := s.drains[d].rows[0], s.tables, s'.tables, s.drains[d].pc;
      var moved := DrainEnds(s, d, s') || NextTaken(s, d, s');
      match ev
      case DrainSends(_, ok) =>
        && t' == t && d in s'.drains && s'.drains[d] == Drain(s.drains[d].rows, if ok then RecordSent else CountFailure)
      case DrainCounts(_, fails) =>
        && moved && t'.deliveries == t.deliveries && t'.pending.Keys == t.pending.Keys
        && (forall i :: i in t.pending ==>
              t'.pending[i] == t.pending[i].(attempts := t.pending[i].attempts + if i == id && !fails then 1 else 0))
      case DrainRecords(_, fails) =>
        && t'.pending == t.pending
        && t'.deliveries == t.deliveries + (if fails || row.dedupeKey == "" then {} else {row.dedupeKey})
        && var next := if pc == RecordSent then RemoveSent else if pc == RecordMuted then RemoveMuted
          else RemoveGivenUp;
        if pc == RecordSent && fails && row.dedupeKey != "" then moved
        else d in s'.drains && s'.drains[d] == Drain(s.drains[d].rows, next)
      case DrainRemoves(_, fails) =>
        moved && t'.deliveries == t.deliveries && t'.pending == if fails then t.pending else t.pending - {id}
      case _ => true
  {
    hide BadThread, Decision;
    match ev
    case DrainSends(_, _) => hide NextRow, Marked, Deleted, Bumped;
    case DrainCounts(_, _) => hide DrainTo, Marked, Deleted;
    case DrainRecords(_, _) => hide Deleted, Bumped;
    case _ => hide DrainTo, Marked, Bumped;
  }

  /** The row was the drain's last. */
  predicate DrainEnds(s: State, d: nat, s': State)
    requires d in s.drains
  {
    |s.drains[d].rows| == 1 && s'.drains == s.drains - {d}
  }

  /** The drain begins with the row after it. */
  predicate NextTaken(s: State, d: nat, s': State)
    requires d in s.drains
  {
    |s.drains[d].rows| > 1 && s'.drains == s.drains[d := Drain(s.drains[d].rows[1..], Check)]
  }
}
