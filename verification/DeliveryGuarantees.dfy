/** What the notification queue guarantees over every run: nothing accepted is lost, and nothing is sent
    twice unless its delivery could not be recorded. */
module DeliveryGuarantees {
  import opened Options
  import opened NeonTables
  import opened NotificationQueue

  // ---------------------------------------------------------------- nothing is lost

  /** Every key a request was answered success for is waiting or on record. */
  ghost predicate Lossless(s: State) {
    forall k :: k in s.accepted ==> Recorded(s.tables, k)
  }

  /** A discard without a record: a row removed as muted, given up or badly addressed while its key is not
      on record, or a request answered "muted" after its record failed. */
  predicate UnrecordedDiscard(s: State, ev: Event)
    requires Enabled(s, ev)
  {
    match ev
    case Mute(h, fails) => fails && !Recorded(s.tables, s.handlers[h].row.dedupeKey)
    case DrainRemoves(d, fails) =>
      var copy := s.drains[d].rows[0];
      && !fails && Discards(s.drains[d].pc) && copy.1.dedupeKey != ""
      && copy.0 in s.tables.pending && copy.1.dedupeKey !in s.tables.deliveries
    case _ => false
  }

  lemma RemovalStep(s: State, ev: Event)
    requires Inv(s) && Lossless(s) && Enabled(s, ev) && ev.DrainRemoves?
    ensures Lossless(Apply(s, ev)) <==> !UnrecordedDiscard(s, ev)
  {
    hide BadThread;
    var copy := s.drains[ev.d].rows[0];
    var s' := Apply(s, ev);
    assert CopyOk(s.tables, copy) && DrainOk(s.tables, s.drains[ev.d]);
    if !ev.fails {
      forall k | k in s.accepted
        ensures Recorded(s'.tables, k) <==>
          !(copy.0 in s.tables.pending && copy.1.dedupeKey == k && k !in s.tables.deliveries)
      {
        DeleteForgetsOne(s.tables, copy.0, k);
      }
      if UnrecordedDiscard(s, ev) {
        assert PendingKey(s.tables, copy.1.dedupeKey);
      }
    }
  }

  lemma OtherDrainStep(s: State, ev: Event)
    requires Inv(s) && Lossless(s) && Enabled(s, ev) && DrainEvent(ev) && !ev.DrainRemoves?
    ensures Lossless(Apply(s, ev))
  {
    var copy := s.drains[ev.d].rows[0];
    var s' := Apply(s, ev);
    DrainEffectKept(s, ev);
    forall k | k in s.accepted ensures Recorded(s'.tables, k) {
      BumpKeepsKeys(s.tables, copy.0, k);
      assert Recorded(s.tables, k);
    }
  }

  lemma DrainEffectKept(s: State, ev: Event)
    requires Enabled(s, ev) && DrainEvent(ev) && !ev.DrainRemoves?
    ensures var s', copy := Apply(s, ev), s.drains[ev.d].rows[0];
      && s'.tables in {s.tables, Marked(s.tables, copy.1.dedupeKey), Bumped(s.tables, copy.0)}
      && s'.accepted == s.accepted
  {
    hide Bumped, Marked, BadThread, Decision;
  }

  lemma HandlerStepLoss(s: State, ev: Event)
    requires Inv(s) && Lossless(s) && Enabled(s, ev) && HandlerEvent(ev)
    ensures Lossless(Apply(s, ev)) <==> !UnrecordedDiscard(s, ev)
  {
    var s' := Apply(s, ev);
    var row := HandlerRow(s, ev);
    InsertRecords(s.tables, row);
    forall k | Recorded(s.tables, k) ensures Recorded(s'.tables, k) {
      HandlerKeepsRecords(s, ev, k);
    }
    HandlerAccepts(s, ev);
  }

  lemma HandlerKeepsRecords(s: State, ev: Event, k: string)
    requires Inv(s) && Enabled(s, ev) && HandlerEvent(ev) && Recorded(s.tables, k)
    ensures Recorded(Apply(s, ev).tables, k)
  {
    hide Apply;
    HandlerEffect(s, ev);
    InsertRecords(s.tables, HandlerRow(s, ev));
  }

  /** A handler step accepts at most its own key, and leaves it recorded but for a muted one. */
  lemma HandlerAccepts(s: State, ev: Event)
    requires Inv(s) && Enabled(s, ev) && HandlerEvent(ev)
    ensures var s', key := Apply(s, ev), HandlerRow(s, ev).dedupeKey;
      && (forall k :: k in s'.accepted && k != key ==> k in s.accepted)
      && (key in s'.accepted && key !in s.accepted && !ev.Mute? ==> Recorded(s'.tables, key))
      && (ev.Mute? ==> key in s'.accepted && (Recorded(s'.tables, key) <==> !ev.fails || Recorded(s.tables, key)))
  {
    InsertRecords(s.tables, HandlerRow(s, ev));
  }

  /** Step by step: acceptance without loss is kept exactly unless the step is an unrecorded discard. */
  lemma StepLossIff(s: State, ev: Event)
    requires Inv(s) && Lossless(s) && Enabled(s, ev)
    ensures Lossless(Apply(s, ev)) <==> !UnrecordedDiscard(s, ev)
  {
    hide Inv;
    if HandlerEvent(ev) {
      HandlerStepLoss(s, ev);
    } else if ev.DrainRemoves? {
      RemovalStep(s, ev);
    } else if DrainEvent(ev) {
      OtherDrainStep(s, ev);
    } else {
      assert Apply(s, ev).tables == s.tables && Apply(s, ev).accepted == s.accepted;
    }
  }

  lemma {:induction false} NoLossUpTo(states: seq<State>, events: seq<Event>, n: nat)
    requires Run(states, events) && n < |states|
    requires forall i :: 0 <= i < n ==> !UnrecordedDiscard(states[i], events[i])
    ensures Lossless(states[n])
  {
    hide Apply, Enabled, Inv, UnrecordedDiscard;
    if n == 0 {
      InitialLossless(states[0]);
    } else {
      NoLossUpTo(states, events, n - 1);
      RunInv(states, events, n - 1);
      StepLossIff(states[n - 1], events[n - 1]);
    }
  }

  lemma InitialLossless(s: State)
    requires Initial(s)
    ensures Lossless(s)
  {
    forall k | k in s.accepted ensures Recorded(s.tables, k) {
      var i :| i in s.tables.pending && s.tables.pending[i].dedupeKey == k;
    }
  }

  /** No loss, both ways, under any interleaving and with drains stopping anywhere: all along a run every
      accepted key is waiting or on record exactly when the run contains no unrecorded discard. */
  lemma NoLossIff(states: seq<State>, events: seq<Event>)
    requires Run(states, events)
    ensures (forall n :: 0 <= n < |states| ==> Lossless(states[n]))
      <==> (forall i :: 0 <= i < |events| ==> !UnrecordedDiscard(states[i], events[i]))
  {
    hide Apply, Enabled, Inv, Lossless, UnrecordedDiscard, Initial;
    if forall i :: 0 <= i < |events| ==> !UnrecordedDiscard(states[i], events[i]) {
      forall n | 0 <= n < |states| ensures Lossless(states[n]) {
        NoLossUpTo(states, events, n);
      }
    }
    if forall n :: 0 <= n < |states| ==> Lossless(states[n]) {
      forall i | 0 <= i < |events| ensures !UnrecordedDiscard(states[i], events[i]) {
        assert Lossless(states[i]) && Lossless(states[i + 1]);
        RunInv(states, events, i);
        StepLossIff(states[i], events[i]);
      }
    }
  }

  /** Where a discard can lose its key: its record was refused, or the thread id is no number. With records of
      discards that succeed only the second is left; the record after a send may fail, the row is kept then. */
  ghost predicate DiscardsAreRecorded(states: seq<State>, events: seq<Event>)
    requires Run(states, events)
  {
    forall i :: 0 <= i < |events| ==> RecordsItsDiscard(states[i], events[i])
  }

  predicate RecordsItsDiscard(s: State, ev: Event)
    requires Enabled(s, ev)
  {
    && (ev.Mute? ==> !ev.fails)
    && (ev.DrainRecords? && ev.fails ==> s.drains[ev.d].pc == RecordSent)
  }

  /** At a discard reached through a successful record the key is on record. */
  predicate DiscardRecorded(t: Tables, dr: Drain) {
    dr.rows != [] && (dr.pc == RemoveMuted || dr.pc == RemoveGivenUp) ==>
      dr.rows[0].1.dedupeKey == "" || dr.rows[0].1.dedupeKey in t.deliveries
  }

  ghost predicate DiscardsRecorded(s: State) {
    forall d :: d in s.drains ==> DiscardRecorded(s.tables, s.drains[d])
  }

  lemma DiscardsRecordedStep(s: State, ev: Event)
    requires Enabled(s, ev) && DiscardsRecorded(s) && RecordsItsDiscard(s, ev)
    ensures DiscardsRecorded(Apply(s, ev))
  {
    if HandlerEvent(ev) {
      hide Apply;
      HandlerDeliveries(s, ev);
      HandlerDrains(s, ev);
    } else if DrainEvent(ev) {
      hide Apply, DiscardRecorded, RecordsItsDiscard;
      DrainDeliveries(s, ev);
      OtherDrainsStay(s, ev);
      forall d | d in Apply(s, ev).drains ensures DiscardRecorded(Apply(s, ev).tables, Apply(s, ev).drains[d]) {
        if d == ev.d {
          CurrentDiscardRecorded(s, ev);
        } else {
          assert DiscardRecorded(s.tables, s.drains[d]);
          RecordedStays(s.tables, Apply(s, ev).tables, s.drains[d]);
        }
      }
    } else {
      hide DiscardRecorded;
      if ev.StartDrain? {
        NothingDiscardedYet(s.tables, Drain(Rows(s.tables, ev.ids), Check));
      }
    }
  }

  lemma RecordedStays(t: Tables, t': Tables, dr: Drain)
    requires DiscardRecorded(t, dr) && t.deliveries <= t'.deliveries
    ensures DiscardRecorded(t', dr)
  {
  }

  lemma NothingDiscardedYet(t: Tables, dr: Drain)
    requires dr.pc == Check
    ensures DiscardRecorded(t, dr)
  {
  }

  lemma OtherDrainsStay(s: State, ev: Event)
    requires Enabled(s, ev) && DrainEvent(ev)
    ensures forall d :: d in Apply(s, ev).drains && d != ev.d ==> d in s.drains && Apply(s, ev).drains[d] == s.drains[d]
  {
    hide Apply;
    DrainEffect(s, ev);
  }

  lemma CurrentDiscardRecorded(s: State, ev: Event)
    requires Enabled(s, ev) && DrainEvent(ev) && RecordsItsDiscard(s, ev)
    requires ev.d in Apply(s, ev).drains
    ensures DiscardRecorded(Apply(s, ev).tables, Apply(s, ev).drains[ev.d])
  {
    hide BadThread, Deleted, Bumped;
    if ev.DrainDecides? {
      hide Apply;
      DecidedDiscard(s, ev);
    }
  }

  lemma DecidedDiscard(s: State, ev: Event)
    requires Enabled(s, ev) && ev.DrainDecides? && ev.d in Apply(s, ev).drains
    ensures DiscardRecorded(Apply(s, ev).tables, Apply(s, ev).drains[ev.d])
  {
    hide BadThread;
  }

  lemma HandlerDrains(s: State, ev: Event)
    requires Enabled(s, ev) && HandlerEvent(ev)
    ensures Apply(s, ev).drains == s.drains
  {
    hide PendingKey, Inserted, InsertedId, Marked;
  }

  lemma DrainDeliveries(s: State, ev: Event)
    requires Enabled(s, ev) && DrainEvent(ev)
    ensures s.tables.deliveries <= Apply(s, ev).tables.deliveries
  {
    hide BadThread;
  }

  lemma {:induction false} DiscardsRecordedRun(states: seq<State>, events: seq<Event>, n: nat)
    requires Run(states, events) && DiscardsAreRecorded(states, events) && n < |states|
    ensures DiscardsRecorded(states[n])
  {
    hide Apply, Enabled, Inv, RecordsItsDiscard;
    if n > 0 {
      DiscardsRecordedRun(states, events, n - 1);
      DiscardsRecordedStep(states[n - 1], events[n - 1]);
    }
  }

  /** A row dropped for a thread id that is no number while its key is not on record. */
  predicate BadThreadDiscard(s: State, ev: Event)
    requires Enabled(s, ev)
  {
    ev.DrainRemoves? && s.drains[ev.d].pc == RemoveBadThread && UnrecordedDiscard(s, ev)
  }

  /** When discards are recorded, the only row ever lost is one with such a thread id. */
  lemma OnlyBadThreadsLost(states: seq<State>, events: seq<Event>, i: nat)
    requires Run(states, events) && DiscardsAreRecorded(states, events) && i < |events|
    ensures UnrecordedDiscard(states[i], events[i]) <==> BadThreadDiscard(states[i], events[i])
  {
    hide Apply, Inv;
    DiscardsRecordedRun(states, events, i);
    assert RecordsItsDiscard(states[i], events[i]);
  }

  /** Nothing is ever lost exactly when no such row is dropped. */
  lemma NoLossIffThreadsGood(states: seq<State>, events: seq<Event>)
    requires Run(states, events) && DiscardsAreRecorded(states, events)
    ensures (forall n :: 0 <= n < |states| ==> Lossless(states[n]))
      <==> (forall i :: 0 <= i < |events| ==> !BadThreadDiscard(states[i], events[i]))
  {
    hide Run, Enabled, Lossless, UnrecordedDiscard, BadThreadDiscard, DiscardsAreRecorded;
    NoLossIff(states, events);
    EachEnabled(states, events);
    forall i | 0 <= i < |events|
      ensures UnrecordedDiscard(states[i], events[i]) <==> BadThreadDiscard(states[i], events[i])
    {
      OnlyBadThreadsLost(states, events, i);
    }
  }

  lemma EachEnabled(states: seq<State>, events: seq<Event>)
    requires Run(states, events)
    ensures |states| == |events| + 1 && forall i :: 0 <= i < |events| ==> Enabled(states[i], events[i])
  {
  }

  // ---------------------------------------------------------------- nothing is sent twice

  /** Where a drain stands with the key: between its check and the send, or between the send and the record. */
  datatype Phase = Away | Before | After

  function PhaseOf(s: State, d: nat, k: string): (r: Phase) {
    if d !in s.drains || s.drains[d].rows == [] || s.drains[d].rows[0].1.dedupeKey != k then Away
    else if s.drains[d].pc == Decide || s.drains[d].pc == Send then Before
    else if s.drains[d].pc == RecordSent then After
    else Away
  }

  /** No two drains are between the check and the record of this key. */
  predicate OneInFlight(s: State, k: string) {
    forall d, e :: d in s.drains && e in s.drains && PhaseOf(s, d, k) != Away && PhaseOf(s, e, k) != Away ==> d == e
  }

  predicate SentUnrecordedYet(s: State, k: string) {
    exists d :: d in s.drains && PhaseOf(s, d, k) == After
  }

  /** Sends are covered: by a failed record each, and by at most one more that is on record or about to be. */
  ghost predicate SendsCovered(s: State, k: string) {
    && s.sends[k] <= s.unrecorded[k] + (if k in s.tables.deliveries || SentUnrecordedYet(s, k) then 1 else 0)
    && (forall d :: d in s.drains && PhaseOf(s, d, k) == Before ==> s.sends[k] <= s.unrecorded[k])
  }

  /** How one step may move drain d past key k, and what it then does to the bookkeeping. */
  ghost predicate Moves(s: State, s': State, d: nat, k: string) {
    var was, now := PhaseOf(s, d, k), PhaseOf(s', d, k);
    && (forall e :: e != d ==> PhaseOf(s', e, k) == PhaseOf(s, e, k))
    && s.tables.deliveries <= s'.tables.deliveries
    && s'.sends[k] == s.sends[k] + (if was == Before && now == After then 1 else 0)
    && s'.unrecorded[k] >= s.unrecorded[k]
    && (was == Away ==> now != After)
    && (was == Away && now == Before ==> k !in s'.tables.deliveries)
    && (was == After && now != After ==> k in s'.tables.deliveries || s'.unrecorded[k] == s.unrecorded[k] + 1)
    && (was == After ==> now != Before)
  }

  function PhaseAt(pc: Pc): (r: Phase) {
    if pc == Decide || pc == Send then Before else if pc == RecordSent then After else Away
  }

  lemma PhaseNext(s: State, d: nat, s': State, k: string)
    requires d in s.drains && s.drains[d].rows != [] && s'.drains == NextRow(s, d).drains
    ensures PhaseOf(s', d, k) == Away
    ensures forall e :: e != d ==> PhaseOf(s', e, k) == PhaseOf(s, e, k)
  {
  }

  lemma PhaseTo(s: State, d: nat, pc: Pc, s': State, k: string)
    requires d in s.drains && s.drains[d].rows != [] && s'.drains == DrainTo(s, d, pc).drains
    ensures PhaseOf(s', d, k) == if s.drains[d].rows[0].1.dedupeKey == k then PhaseAt(pc) else Away
    ensures forall e :: e != d ==> PhaseOf(s', e, k) == PhaseOf(s, e, k)
  {
  }

  lemma PhaseHere(s: State, d: nat, k: string)
    requires d in s.drains && s.drains[d].rows != []
    ensures PhaseOf(s, d, k) == if s.drains[d].rows[0].1.dedupeKey == k then PhaseAt(s.drains[d].pc) else Away
  {
  }

  lemma DrainMoves(s: State, ev: Event, k: string)
    requires Enabled(s, ev) && DrainEvent(ev) && k != ""
    ensures Moves(s, Apply(s, ev), ev.d, k)
  {
    hide Apply, PhaseOf;
    PhaseHere(s, ev.d, k);
    DrainDeliveries(s, ev);
    if ev.DrainSends? {
      SendMoves(s, ev, k);
    } else if ev.DrainRecords? {
      RecordMoves(s, ev, k);
    } else {
      QuietMoves(s, ev);
      if Apply(s, ev).drains == NextRow(s, ev.d).drains {
        PhaseNext(s, ev.d, Apply(s, ev), k);
      } else {
        PhaseTo(s, ev.d, Apply(s, ev).drains[ev.d].pc, Apply(s, ev), k);
      }
    }
  }

  /** The steps that neither send nor record; only the check leads before a send, and only an undelivered key. */
  lemma QuietMoves(s: State, ev: Event)
    requires Enabled(s, ev) && (ev.DrainChecks? || ev.DrainDecides? || ev.DrainCounts? || ev.DrainRemoves?)
    ensures var s', d := Apply(s, ev), ev.d;
      && s'.sends == s.sends && s'.unrecorded == s.unrecorded && s'.tables.deliveries == s.tables.deliveries
      && (s'.drains == NextRow(s, d).drains ||
          (&& d in s'.drains && s'.drains == DrainTo(s, d, s'.drains[d].pc).drains && PhaseAt(s'.drains[d].pc) != After
           && (PhaseAt(s'.drains[d].pc) == Before && PhaseAt(s.drains[d].pc) != Before ==>
                 s.drains[d].rows[0].1.dedupeKey == "" || s.drains[d].rows[0].1.dedupeKey !in s.tables.deliveries)))
      && PhaseAt(s.drains[d].pc) != After
  {
    hide BadThread;
    if ev.DrainDecides? {
      var dec := Decision(s.drains[ev.d].rows[0].1, ev.muted, ev.connected);
      assert dec.Some? ==> PhaseAt(dec.value) != After;
    }
  }

  lemma SendMoves(s: State, ev: Event, k: string)
    requires Enabled(s, ev) && ev.DrainSends?
    ensures Moves(s, Apply(s, ev), ev.d, k)
  {
    hide PhaseOf;
    PhaseHere(s, ev.d, k);
    PhaseTo(s, ev.d, if ev.ok then RecordSent else CountFailure, Apply(s, ev), k);
  }

  lemma RecordMoves(s: State, ev: Event, k: string)
    requires Enabled(s, ev) && ev.DrainRecords? && k != ""
    ensures Moves(s, Apply(s, ev), ev.d, k)
  {
    hide PhaseOf;
    PhaseHere(s, ev.d, k);
    var pc := s.drains[ev.d].pc;
    if s.drains[ev.d].rows[0].1.dedupeKey != "" && ev.fails && pc == RecordSent {
      PhaseNext(s, ev.d, Apply(s, ev), k);
    } else {
      PhaseTo(s, ev.d, AfterRecord(pc), Apply(s, ev), k);
    }
  }

  lemma StartStopMoves(s: State, ev: Event, k: string)
    requires Enabled(s, ev) && (ev.StartDrain? || ev.StopDrain?)
    ensures Moves(s, Apply(s, ev), ev.d, k)
  {
  }

  lemma HandlerMoves(s: State, ev: Event, k: string)
    requires Enabled(s, ev) && HandlerEvent(ev)
    ensures Moves(s, Apply(s, ev), 0, k)
  {
    hide Apply;
    HandlerEffect(s, ev);
    HandlerDeliveries(s, ev);
    assert forall d :: PhaseOf(Apply(s, ev), d, k) == PhaseOf(s, d, k);
  }

  lemma HandlerDeliveries(s: State, ev: Event)
    requires Enabled(s, ev) && HandlerEvent(ev)
    ensures s.tables.deliveries <= Apply(s, ev).tables.deliveries
  {
    hide PendingKey;
  }

  /** A move keeps sends covered while the key is in flight once only. */
  lemma MoveCovered(s: State, s': State, d: nat, k: string)
    requires Moves(s, s', d, k) && SendsCovered(s, k)
    requires OneInFlight(s, k) && OneInFlight(s', k)
    ensures SendsCovered(s', k)
  {
    var was, now := PhaseOf(s, d, k), PhaseOf(s', d, k);
    forall e | e in s'.drains && PhaseOf(s', e, k) == Before ensures s'.sends[k] <= s'.unrecorded[k] {
      assert e != d ==> PhaseOf(s, e, k) == Before;
      if e == d && was == Away {
        forall f | f in s.drains ensures PhaseOf(s, f, k) != After {
          assert f != d ==> PhaseOf(s', f, k) == PhaseOf(s, f, k);
        }
      }
    }
    if SentUnrecordedYet(s, k) && !SentUnrecordedYet(s', k) {
      var e :| e in s.drains && PhaseOf(s, e, k) == After;
      assert e == d;
    }
  }

  /** Every step keeps sends covered. */
  lemma StepCovered(s: State, ev: Event, k: string)
    requires Enabled(s, ev) && SendsCovered(s, k) && k != ""
    requires OneInFlight(s, k) && OneInFlight(Apply(s, ev), k)
    ensures SendsCovered(Apply(s, ev), k)
  {
    hide Apply, Enabled, Moves, SendsCovered, OneInFlight;
    if HandlerEvent(ev) {
      HandlerMoves(s, ev, k);
      MoveCovered(s, Apply(s, ev), 0, k);
    } else {
      if DrainEvent(ev) {
        DrainMoves(s, ev, k);
      } else {
        StartStopMoves(s, ev, k);
      }
      MoveCovered(s, Apply(s, ev), ev.d, k);
    }
  }

  lemma {:induction false} RunCovered(states: seq<State>, events: seq<Event>, n: nat, k: string)
    requires Run(states, events) && n < |states| && k != ""
    requires forall i :: 0 <= i < |states| ==> OneInFlight(states[i], k)
    ensures SendsCovered(states[n], k)
  {
    hide Apply, Enabled, Inv, SendsCovered, OneInFlight;
    if n == 0 {
      InitialCovered(states[0], k);
    } else {
      RunCovered(states, events, n - 1, k);
      assert OneInFlight(states[n], k);
      StepCovered(states[n - 1], events[n - 1], k);
    }
  }

  lemma InitialCovered(s: State, k: string)
    requires Initial(s)
    ensures SendsCovered(s, k)
  {
  }

  /** A key that is never between check and record in two drains at once is sent at most once, plus once for every
      send whose record failed or was cut off. On a working database that is at most once. */
  lemma AtMostOnce(states: seq<State>, events: seq<Event>, n: nat, k: string)
    requires Run(states, events) && n < |states| && k != ""
    requires forall i :: 0 <= i < |states| ==> OneInFlight(states[i], k)
    ensures states[n].sends[k] <= 1 + states[n].unrecorded[k]
  {
    RunCovered(states, events, n, k);
  }

  // ---------------------------------------------------------------- where it ends

  function KeyedRow(key: string): Row {
    Row("discord", "1", "", "", "hello", key, "poller", "", 0, key)
  }

  /** Drain d, about to check its only row, checks it, decides to send it, and sends it. */
  lemma SendsIt(s: State, d: nat, row: Row) returns (s': State)
    requires d in s.drains && s.drains[d] == Drain([(1, row)], Check)
    requires row == KeyedRow(row.dedupeKey) && row.dedupeKey != "" && row.dedupeKey !in s.tables.deliveries
    ensures Enabled(s, DrainChecks(d, false))
    ensures var a := Apply(s, DrainChecks(d, false));
      && Enabled(a, DrainDecides(d, false, true))
      && var b := Apply(a, DrainDecides(d, false, true));
      && Enabled(b, DrainSends(d, true)) && s' == Apply(b, DrainSends(d, true))
    ensures s'.sends == s.sends + multiset{row.dedupeKey} && s'.unrecorded == s.unrecorded && s'.tables == s.tables
    ensures s'.drains == s.drains[d := Drain([(1, row)], RecordSent)]
  {
    var a := Apply(s, DrainChecks(d, false));
    assert a == DrainTo(s, d, Decide);
    assert Decision(row, false, true) == Some(Send);
    var b := Apply(a, DrainDecides(d, false, true));
    assert b == DrainTo(a, d, Send);
    s' := Apply(b, DrainSends(d, true));
  }

  /** Two drains at once do send twice, with every statement succeeding: both check before either records. */
  lemma OverlapSendsTwice(key: string) returns (states: seq<State>, events: seq<Event>)
    requires key != ""
    ensures Run(states, events)
    ensures states[|events|].sends[key] == 2 && states[|events|].unrecorded[key] == 0
  {
    hide Apply, Enabled;
    var row := KeyedRow(key);
    var s0 := State(Tables(map[1 := row], 2, {}), map[], map[], {key}, multiset{}, multiset{});
    StartsOnOneRow(s0, 1, row);
    var s1 := Apply(s0, StartDrain(1, [1]));
    StartsOnOneRow(s1, 2, row);
    var s2 := Apply(s1, StartDrain(2, [1]));
    var s5 := SendsIt(s2, 1, row);
    var s8 := SendsIt(s5, 2, row);
    var s3 := Apply(s2, DrainChecks(1, false));
    var s6 := Apply(s5, DrainChecks(2, false));
    states := [s0, s1, s2, s3, Apply(s3, DrainDecides(1, false, true)), s5,
               s6, Apply(s6, DrainDecides(2, false, true)), s8];
    events := [StartDrain(1, [1]), StartDrain(2, [1]),
               DrainChecks(1, false), DrainDecides(1, false, true), DrainSends(1, true),
               DrainChecks(2, false), DrainDecides(2, false, true), DrainSends(2, true)];
  }

  /** A request for Messenger under a thread id that is no number. */
  function LostRow(key: string): (row: Row)
    ensures row.dedupeKey == key && BadThread(row)
  {
    Row("messenger", "x", "", "", "hello", key, "poller", "", 0, key)
  }

  /** A request that finds the tables empty is accepted, and its row waits. */
  lemma EmptyQueueAccepts(s: State, row: Row) returns (states: seq<State>, events: seq<Event>)
    requires s == State(Tables(map[], 1, {}), map[], map[], {}, multiset{}, multiset{})
    requires row.dedupeKey != "" && row.attempts == 0
    ensures Run(states, events) && |events| == 4 && states[0] == s
    ensures forall ev :: ev in events ==> !ev.Mute? && !ev.DrainRecords?
    ensures states[4] == s.(tables := Tables(map[1 := row], 2, {}), accepted := {row.dedupeKey})
  {
    var at1 := s.(handlers := map[1 := Handler(row, AtCheck)]);
    var at2 := s.(handlers := map[1 := Handler(row, AtGate)]);
    var at3 := s.(handlers := map[1 := Handler(row, AtInsert)]);
    var at4 := s.(tables := Tables(map[1 := row], 2, {}), accepted := {row.dedupeKey});
    assert at2 == HandlerTo(at1, 1, AtGate) && at3 == HandlerTo(at2, 1, AtInsert);
    assert Inserted(at3.tables, row) == at4.tables && InsertedId(at3.tables, row).Some?;
    assert Accepted(at3, 1).(tables := at4.tables) == at4;
    states := [s, at1, at2, at3, at4];
    events := [Arrive(1, row), Checked(1, false), Gated(1, true, false), Insert(1, false)];
  }

  /** A drain with one row in hand reaches the point that drops a row whose thread id is no number. */
  lemma DecidesToDrop(s: State, row: Row)
    requires s.drains == map[1 := Drain([(1, row)], Check)] && BadThread(row) && row.attempts == 0
    requires row.dedupeKey != "" && row.dedupeKey !in s.tables.deliveries
    ensures Enabled(s, DrainChecks(1, false))
    ensures var a := Apply(s, DrainChecks(1, false));
      && Enabled(a, DrainDecides(1, false, true))
      && Apply(a, DrainDecides(1, false, true)) == DrainTo(s, 1, RemoveBadThread)
  {
    hide BadThread;
    var a := Apply(s, DrainChecks(1, false));
    assert a == DrainTo(s, 1, Decide);
    assert Decision(row, false, true) == Some(RemoveBadThread);
  }

  /** A drain drops a row whose thread id is no number. */
  lemma BadThreadDropped(s: State, row: Row) returns (states: seq<State>, events: seq<Event>)
    requires s.tables == Tables(map[1 := row], 2, {}) && s.drains == map[]
    requires BadThread(row) && row.attempts == 0 && row.dedupeKey != ""
    ensures |events| == 4 && |states| == 5 && states[0] == s
    ensures forall i :: 0 <= i < 4 ==> Enabled(states[i], events[i]) && states[i + 1] == Apply(states[i], events[i])
    ensures forall ev :: ev in events ==> !ev.Mute? && !ev.DrainRecords?
    ensures states[4] == s.(tables := Tables(map[], 2, {}))
  {
    var at1 := s.(drains := map[1 := Drain([(1, row)], Check)]);
    var at3 := DrainTo(at1, 1, RemoveBadThread);
    RemovesOnlyRow(at3, row);
    hide BadThread, Apply, Enabled;
    StartsOnOneRow(s, 1, row);
    DecidesToDrop(at1, row);
    events := [StartDrain(1, [1]), DrainChecks(1, false), DrainDecides(1, false, true), DrainRemoves(1, false)];
    states := [s, at1, Apply(at1, events[1]), at3, Apply(at3, events[3])];
  }

  lemma RemovesOnlyRow(s: State, row: Row)
    requires s.drains == map[1 := Drain([(1, row)], RemoveBadThread)] && s.tables == Tables(map[1 := row], 2, {})
    ensures Enabled(s, DrainRemoves(1, false))
    ensures Apply(s, DrainRemoves(1, false)) == s.(drains := map[], tables := Tables(map[], 2, {}))
  {
    assert NextRow(s, 1).drains == map[] && Deleted(s.tables, 1) == Tables(map[], 2, {});
  }

  /** An accepted key is lost with every statement succeeding: the handler takes the request, the drain drops it. */
  lemma BadThreadLoses(key: string) returns (states: seq<State>, events: seq<Event>)
    requires key != ""
    ensures Run(states, events) && DiscardsAreRecorded(states, events)
    ensures var last := states[|events|];
      key in last.accepted && !Recorded(last.tables, key) && last.sends == multiset{}
  {
    hide Apply, Enabled, BadThread;
    var row := LostRow(key);
    var s := State(Tables(map[], 1, {}), map[], map[], {}, multiset{}, multiset{});
    var taken, requested := EmptyQueueAccepts(s, row);
    var dropped, drained := BadThreadDropped(taken[4], row);
    states, events := taken + dropped[1..], requested + drained;
    assert forall i :: 0 <= i < |events| ==> events[i] in events;
  }

  lemma StartsOnOneRow(s: State, d: nat, row: Row)
    requires d !in s.drains && s.tables == Tables(map[1 := row], 2, {})
    ensures Enabled(s, StartDrain(d, [1]))
    ensures Apply(s, StartDrain(d, [1])) == s.(drains := s.drains[d := Drain([(1, row)], Check)])
  {
    assert Rows(s.tables, [1]) == [(1, row)];
  }
}
