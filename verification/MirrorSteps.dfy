/** Sends and edits of mirrored legs (SendRoute and EditRoute, internal/bridge/service.go) statement by statement: s.mu
    is held for a lookup or a record, not from the one to the other, so calls about the same leg can overlap. */
module MirrorSteps {
  import opened Options
  import opened MirrorMap

  /** Where a delivery stands: at the lookup, at the in-place edit of the mirror found, at the fresh send, or at the
      record of the message it sent. */
  datatype At = Looking | Rewriting(rec: Mirror) | Posting | Recording(id: nat)

  /** An edit of a leg, or the send of its first copy, which starts at the fresh send. */
  datatype Delivery = Delivery(leg: Leg, text: string, window: Option<int>, at: At)

  /** One platform and the deliveries under way on it. */
  datatype Traffic = Traffic(side: Side, calls: map<nat, Delivery>)

  /** A copy of a text without a primary message is sent and forgotten. */
  datatype Event =
    | BeginEdit(c: nat, leg: Leg, text: string, window: Option<int>)
    | BeginSend(c: nat, leg: Leg, text: string)
    | SendStray(channel: string, text: string, o: Outcome)
    | Go(c: nat, o: Outcome)

  predicate Enabled(t: Traffic, ev: Event) {
    match ev
    case BeginEdit(c, _, _, _) => c !in t.calls
    case BeginSend(c, leg, _) => c !in t.calls && leg.primary != ""
    case SendStray(_, _, _) => true
    case Go(c, _) => c in t.calls
  }

  function To(t: Traffic, c: nat, at: At): Traffic
    requires c in t.calls
  {
    t.(calls := t.calls[c := t.calls[c].(at := at)])
  }

  function Ended(t: Traffic, c: nat): Traffic {
    t.(calls := t.calls - {c})
  }

  function Apply(t: Traffic, ev: Event): Traffic
    requires Enabled(t, ev)
  {
    match ev
    case BeginEdit(c, leg, text, window) => t.(calls := t.calls[c := Delivery(leg, text, window, Looking)])
    case BeginSend(c, leg, text) => t.(calls := t.calls[c := Delivery(leg, text, None, Posting)])
    case SendStray(channel, text, o) => t.(side := Stray(t.side, channel, text, o))
    case Go(c, o) =>
      var e, side := t.calls[c], t.side;
      match e.at
      case Looking =>
        if Key(e.leg) in side.edits && (e.window.Some? ==> o.now - side.edits[Key(e.leg)].at <= e.window.value)
        then To(t, c, Rewriting(side.edits[Key(e.leg)]))
        else To(t, c, Posting)
      case Rewriting(rec) =>
        if o.edits && Editable(side.chat, e.leg.channel, rec.id)
        then Ended(t, c).(side :=
               side.(chat := Rewritten(side.chat, e.leg.channel, rec.id, e.text), said := side.said[e.leg := e.text]))
        else To(t, c, Posting)
      case Posting =>
        if o.sends
        then To(t, c, Recording(side.chat.next)).(side :=
               side.(chat := Posted(side.chat, e.leg.channel, e.text), said := side.said[e.leg := e.text]))
        else Ended(t, c)
      case Recording(id) => Ended(t, c).(side := side.(edits := Recorded(side.edits, Key(e.leg), id, o.now)))
  }

  ghost predicate Run(states: seq<Traffic>, events: seq<Event>) {
    && |states| == |events| + 1
    && states[0] == Traffic(EMPTY.wa, map[])
    && forall i :: 0 <= i < |events| ==> Enabled(states[i], events[i]) && states[i + 1] == Apply(states[i], events[i])
  }

  function StepsLeft(at: At): nat {
    match at
    case Looking => 3
    case Rewriting(_) => 2
    case Posting => 1
    case Recording(_) => 0
  }

  /** A delivery's steps from where it stands to its end, uninterrupted. */
  function Finish(t: Traffic, c: nat, o: Outcome): Traffic
    requires c in t.calls
    decreases StepsLeft(t.calls[c].at)
  {
    var next := Apply(t, Go(c, o));
    if c in next.calls then Finish(next, c, o) else next
  }

  /** Run without interruption, the steps of a send do what the code does in one go. */
  lemma StepsAreTheSend(t: Traffic, c: nat, o: Outcome)
    requires c in t.calls && t.calls[c].at == Posting
    ensures Finish(t, c, o) == Ended(t, c).(side := Mirrored(t.side, t.calls[c].leg, t.calls[c].text, o))
  {
    hide Recorded, Posted;
    var next := Apply(t, Go(c, o));
    if o.sends {
      var last := Apply(next, Go(c, o));
      assert Finish(t, c, o) == Finish(next, c, o) == last;
      assert last.calls == t.calls - {c};
    }
  }

  /** Run without interruption, the steps of an edit do what the code does in one go. */
  lemma StepsAreTheEdit(t: Traffic, c: nat, o: Outcome)
    requires c in t.calls && t.calls[c].at == Looking
    ensures var e := t.calls[c];
      Finish(t, c, o) == Ended(t, c).(side := ReEdited(t.side, e.leg, e.text, o, e.window))
  {
    hide Recorded, Posted, Rewritten, Editable, Mirrored;
    var e, next := t.calls[c], Apply(t, Go(c, o));
    assert Finish(t, c, o) == Finish(next, c, o);
    if next.calls[c].at == Posting {
      StepsAreTheSend(next, c, o);
      assert Ended(next, c) == Ended(t, c);
    } else {
      var third := Apply(next, Go(c, o));
      if c in third.calls {
        assert Finish(next, c, o) == Finish(third, c, o);
        StepsAreTheSend(third, c, o);
        assert Ended(third, c) == Ended(t, c);
      } else {
        assert third.calls == t.calls - {c};
      }
    }
  }

  /** Edits 1 and 2 of a leg without a record, each about to send. */
  lemma TwoLook(leg: Leg, first: string, second: string, o: Outcome) returns (states: seq<Traffic>, events: seq<Event>)
    ensures Run(states, events) && |events| == 4
    ensures states[4] ==
      Traffic(EMPTY.wa, map[1 := Delivery(leg, first, None, Posting), 2 := Delivery(leg, second, None, Posting)])
  {
    var a, b := Delivery(leg, first, None, Looking), Delivery(leg, second, None, Looking);
    var s1 := Traffic(EMPTY.wa, map[1 := a]);
    var s2 := Traffic(EMPTY.wa, map[1 := a, 2 := b]);
    var s3 := To(s2, 1, Posting);
    states := [Traffic(EMPTY.wa, map[]), s1, s2, s3, To(s3, 2, Posting)];
    events := [BeginEdit(1, leg, first, None), BeginEdit(2, leg, second, None), Go(1, o), Go(2, o)];
  }

  /** Two overlapping edits that both mirror afresh: the platform delivers the first text, then the second, but the
      first edit records its message last, and the record no longer names the last text. */
  lemma OverlapBreaks(leg: Leg, first: string, second: string, o: Outcome)
    returns (states: seq<Traffic>, events: seq<Event>)
    requires first != second && o.sends
    ensures Run(states, events) && states[|events|].calls == map[]
    ensures states[|events|].side.said == map[leg := second] && !NamesLastText(states[|events|].side, leg)
  {
    hide Key;
    states, events := TwoLook(leg, first, second, o);
    var t5 := Apply(states[4], Go(1, o));
    var t6 := Apply(t5, Go(2, o));
    assert t6.calls ==
      map[1 := Delivery(leg, first, None, Recording(0)), 2 := Delivery(leg, second, None, Recording(1))];
    var t7, t8 := RecordTwice(t6, leg, first, second, o);
    states, events := states + [t5, t6, t7, t8], events + [Go(1, o), Go(2, o), Go(2, o), Go(1, o)];
  }

  /** The second edit records, then the first. */
  lemma RecordTwice(t: Traffic, leg: Leg, first: string, second: string, o: Outcome) returns (t': Traffic, t'': Traffic)
    requires t.calls ==
      map[1 := Delivery(leg, first, None, Recording(0)), 2 := Delivery(leg, second, None, Recording(1))]
    requires first != second && t.side.said == map[leg := second] && t.side.edits == map[]
    requires 0 in t.side.chat.messages && t.side.chat.messages[0] == Message(leg.channel, first)
    ensures t' == Apply(t, Go(2, o)) && 1 in t'.calls && t'' == Apply(t', Go(1, o))
    ensures t''.calls == map[] && t''.side.said == map[leg := second] && !NamesLastText(t''.side, leg)
  {
    hide Key;
    t' := Apply(t, Go(2, o));
    assert t'.calls == map[1 := Delivery(leg, first, None, Recording(0))];
    t'' := Apply(t', Go(1, o));
    assert t''.side.edits[Key(leg)].id == 0;
  }

  // ---------------------------------------------------------------- which messages are whose

  /** The message this delivery has in hand. */
  function InHand(e: Delivery): (r: Option<nat>) {
    match e.at
    case Rewriting(rec) => Some(rec.id)
    case Recording(id) => Some(id)
    case _ => None
  }

  /** The leg's record, or a delivery of it, names this message. */
  ghost predicate Uses(t: Traffic, leg: Leg, id: nat) {
    || (Key(leg) in t.side.edits && t.side.edits[Key(leg)].id == id)
    || (exists c :: c in t.calls && t.calls[c].leg == leg && InHand(t.calls[c]) == Some(id))
  }

  /** The deliveries are over these addresses, their messages are old, and no two legs share one. */
  ghost predicate UsesApart(t: Traffic, channels: iset<string>) {
    && (forall c :: c in t.calls ==> t.calls[c].leg.channel in channels)
    && (forall a: Leg, id: nat :: a.channel in channels && Uses(t, a, id) ==> id < t.side.chat.next)
    && (forall a: Leg, b: Leg, id: nat ::
          a.channel in channels && b.channel in channels && Uses(t, a, id) && Uses(t, b, id) ==> a == b)
  }

  ghost predicate Over(ev: Event, channels: iset<string>) {
    ev.BeginEdit? || ev.BeginSend? ==> ev.leg.channel in channels
  }

  lemma RecordAt(m: map<string, Mirror>, key: string, id: nat, now: int, k: string)
    ensures k in Recorded(m, key, id, now) ==>
      if k == key then Recorded(m, key, id, now)[k].id == id else k in m && Recorded(m, key, id, now)[k] == m[k]
    ensures key in Recorded(m, key, id, now)
  {
  }

  /** This step sends the next message for this leg. */
  predicate Sends(t: Traffic, ev: Event, leg: Leg)
    requires Enabled(t, ev)
  {
    ev.Go? && t.calls[ev.c].at == Posting && ev.o.sends && leg == t.calls[ev.c].leg
  }

  /** A message used after a step was used before by the same leg, or is the next one, which the step sent for it. */
  lemma UsedBefore(t: Traffic, ev: Event, leg: Leg, id: nat, channels: iset<string>)
    requires Enabled(t, ev) && Apart(channels) && UsesApart(t, channels) && leg.channel in channels
    requires Uses(Apply(t, ev), leg, id)
    ensures Uses(t, leg, id) || (Sends(t, ev, leg) && id == t.side.chat.next)
  {
    hide Key, Apart, Editable, Posted, Rewritten, Recorded;
    var t' := Apply(t, ev);
    if c :| c in t'.calls && t'.calls[c].leg == leg && InHand(t'.calls[c]) == Some(id) {
      if !(c in t.calls && t'.calls[c] == t.calls[c]) {
        assert !ev.SendStray? && ev.c == c;
      }
    } else if ev.Go? && t.calls[ev.c].at.Recording? {
      var e := t.calls[ev.c];
      RecordAt(t.side.edits, Key(e.leg), e.at.id, ev.o.now, Key(leg));
      KeyInjective(channels, leg, e.leg);
      assert InHand(e) == Some(e.at.id);
    }
  }

  lemma NextGrows(t: Traffic, ev: Event)
    requires Enabled(t, ev)
    ensures t.side.chat.next <= Apply(t, ev).side.chat.next
    ensures forall leg :: Sends(t, ev, leg) ==> t.side.chat.next < Apply(t, ev).side.chat.next
    ensures forall c :: c in Apply(t, ev).calls ==>
      (c in t.calls && Apply(t, ev).calls[c].leg == t.calls[c].leg)
      || ((ev.BeginEdit? || ev.BeginSend?) && Apply(t, ev).calls[c].leg == ev.leg)
  {
    hide Key, Recorded, Editable;
  }

  lemma StepKeepsApart(t: Traffic, ev: Event, channels: iset<string>)
    requires Enabled(t, ev) && Over(ev, channels) && Apart(channels) && UsesApart(t, channels)
    ensures UsesApart(Apply(t, ev), channels)
  {
    hide Uses, Apart, Apply, Enabled, Sends;
    NextGrows(t, ev);
    forall a: Leg, id: nat | a.channel in channels && Uses(Apply(t, ev), a, id)
      ensures id < Apply(t, ev).side.chat.next
    {
      UsedBefore(t, ev, a, id, channels);
    }
    forall a: Leg, b: Leg, id: nat |
      a.channel in channels && b.channel in channels && Uses(Apply(t, ev), a, id) && Uses(Apply(t, ev), b, id)
      ensures a == b
    {
      UsedBefore(t, ev, a, id, channels);
      UsedBefore(t, ev, b, id, channels);
      SendsForOne(t, ev, a, b);
    }
  }

  lemma SendsForOne(t: Traffic, ev: Event, a: Leg, b: Leg)
    requires Enabled(t, ev)
    ensures Sends(t, ev, a) && Sends(t, ev, b) ==> a == b
  {
  }

  // ---------------------------------------------------------------- exactly when a record is wrong

  predicate Recorder(t: Traffic, leg: Leg) {
    exists c :: c in t.calls && t.calls[c].leg == leg && t.calls[c].at.Recording?
  }

  /** Wherever nothing is left to record, the record names the message with the last text. */
  ghost predicate AllRight(t: Traffic, channels: iset<string>) {
    forall leg: Leg :: leg.channel in channels && !Recorder(t, leg) ==> NamesLastText(t.side, leg)
  }

  /** The message says what was last delivered on the leg. */
  predicate SaysLast(side: Side, leg: Leg, id: nat) {
    id in side.chat.messages && leg in side.said && side.chat.messages[id] == Message(leg.channel, side.said[leg])
  }

  /** The last record of a leg for now is made late, when its message no longer says what was last delivered; or an edit
      rewrites a message the record does not name, and the one it names says something else. */
  ghost predicate Stale(t: Traffic, ev: Event)
    requires Enabled(t, ev)
  {
    && ev.Go?
    && var e, side := t.calls[ev.c], t.side;
       && !Recorder(Apply(t, ev), e.leg)
       && match e.at
          case Recording(id) => !SaysLast(side, e.leg, id)
          case Rewriting(rec) =>
            && ev.o.edits && Editable(side.chat, e.leg.channel, rec.id)
            && Key(e.leg) in side.edits
            && var id := side.edits[Key(e.leg)].id;
               id != rec.id && !(id in side.chat.messages && side.chat.messages[id] == Message(e.leg.channel, e.text))
          case _ => false
  }

  /** A step of a delivery leaves the other legs alone, and a stray copy leaves all of them alone. */
  lemma OtherLegStays(t: Traffic, ev: Event, a: Leg, channels: iset<string>)
    requires Enabled(t, ev) && Apart(channels) && UsesApart(t, channels) && a.channel in channels
    requires ev.Go? ==> a != t.calls[ev.c].leg
    ensures NamesLastText(t.side, a) ==> NamesLastText(Apply(t, ev).side, a)
  {
    hide Key, Apart, Editable;
    if Key(a) in t.side.edits {
      assert Uses(t, a, t.side.edits[Key(a)].id);
    }
    if ev.Go? {
      var e := t.calls[ev.c];
      KeyInjective(channels, a, e.leg);
      if InHand(e).Some? {
        assert Uses(t, e.leg, InHand(e).value);
      }
      if e.at.Recording? {
        RecordAt(t.side.edits, Key(e.leg), e.at.id, ev.o.now, Key(a));
      }
    }
  }

  /** A recorder goes only by recording. */
  lemma RecordersStay(t: Traffic, ev: Event, a: Leg)
    requires Enabled(t, ev)
    ensures Recorder(t, a) && (!ev.Go? || t.calls[ev.c].leg != a || !t.calls[ev.c].at.Recording?) ==>
      Recorder(Apply(t, ev), a)
    ensures Sends(t, ev, a) ==> Recorder(Apply(t, ev), a)
  {
    hide Key, Editable, Recorded, Posted;
    if c :| c in t.calls && t.calls[c].leg == a && t.calls[c].at.Recording? {
      assert !ev.Go? || c != ev.c ==> c in Apply(t, ev).calls && Apply(t, ev).calls[c] == t.calls[c];
    }
    if Sends(t, ev, a) {
      assert ev.c in Apply(t, ev).calls && Apply(t, ev).calls[ev.c].at.Recording?;
    }
  }

  /** On its own leg a step that leaves nothing to record leaves the record right exactly unless it is stale. */
  lemma OwnLegIff(t: Traffic, ev: Event)
    requires Enabled(t, ev) && ev.Go? && !Sends(t, ev, t.calls[ev.c].leg) && !Recorder(Apply(t, ev), t.calls[ev.c].leg)
    requires t.calls[ev.c].at.Recording? || NamesLastText(t.side, t.calls[ev.c].leg)
    ensures NamesLastText(Apply(t, ev).side, t.calls[ev.c].leg) <==> !Stale(t, ev)
  {
    hide Key, Recorder;
    var e := t.calls[ev.c];
    if e.at.Recording? {
      RecordAt(t.side.edits, Key(e.leg), e.at.id, ev.o.now, Key(e.leg));
      hide Recorded;
    }
  }

  /** Step by step: right records stay right exactly unless the step is stale. */
  lemma StepRightIff(t: Traffic, ev: Event, channels: iset<string>)
    requires Enabled(t, ev) && Apart(channels) && UsesApart(t, channels) && AllRight(t, channels)
    ensures AllRight(Apply(t, ev), channels) <==> !Stale(t, ev)
  {
    hide Apart, UsesApart, Apply, Stale, Sends, Recorder, NamesLastText;
    forall a: Leg | a.channel in channels && !Recorder(Apply(t, ev), a) && (ev.Go? ==> a != t.calls[ev.c].leg)
      ensures NamesLastText(Apply(t, ev).side, a)
    {
      RecordersStay(t, ev, a);
      OtherLegStays(t, ev, a, channels);
    }
    StaleIsGo(t, ev);
    if ev.Go? {
      var leg := t.calls[ev.c].leg;
      OverChannels(t, ev.c, channels);
      RecordersStay(t, ev, leg);
      if !Recorder(Apply(t, ev), leg) {
        OwnLegIff(t, ev);
      }
    }
  }

  lemma OverChannels(t: Traffic, c: nat, channels: iset<string>)
    requires UsesApart(t, channels) && c in t.calls
    ensures t.calls[c].leg.channel in channels
  {
    hide Uses;
  }

  lemma StaleIsGo(t: Traffic, ev: Event)
    requires Enabled(t, ev)
    ensures Stale(t, ev) ==> ev.Go? && !Recorder(Apply(t, ev), t.calls[ev.c].leg)
  {
    hide Apply, Recorder;
  }

  lemma {:induction false} RunKeepsApart(states: seq<Traffic>, events: seq<Event>, channels: iset<string>, n: nat)
    requires Run(states, events) && n < |states|
    requires Apart(channels) && forall i :: 0 <= i < |events| ==> Over(events[i], channels)
    ensures UsesApart(states[n], channels)
  {
    hide Apply, Enabled, Apart, Over;
    if n > 0 {
      RunKeepsApart(states, events, channels, n - 1);
      hide UsesApart;
      assert Over(events[n - 1], channels);
      StepKeepsApart(states[n - 1], events[n - 1], channels);
    }
  }

  lemma {:induction false} RightUpTo(states: seq<Traffic>, events: seq<Event>, channels: iset<string>, n: nat)
    requires Run(states, events) && n < |states|
    requires Apart(channels) && forall i :: 0 <= i < |events| ==> Over(events[i], channels)
    requires forall i :: 0 <= i < n ==> !Stale(states[i], events[i])
    ensures AllRight(states[n], channels)
  {
    hide Apply, Enabled, Apart, Over, Stale, UsesApart;
    if n > 0 {
      RightUpTo(states, events, channels, n - 1);
      hide AllRight;
      RunKeepsApart(states, events, channels, n - 1);
      StepRightIff(states[n - 1], events[n - 1], channels);
    }
  }

  /** Over every run of sends and edits, overlapping as they like: the records are right in every state exactly when no
      step is stale. */
  lemma RunRightIff(states: seq<Traffic>, events: seq<Event>, channels: iset<string>)
    requires Run(states, events)
    requires Apart(channels) && forall i :: 0 <= i < |events| ==> Over(events[i], channels)
    ensures (forall n :: 0 <= n < |states| ==> AllRight(states[n], channels))
      <==> (forall i :: 0 <= i < |events| ==> !Stale(states[i], events[i]))
  {
    hide Apply, Enabled, Apart, Over, Stale, UsesApart, AllRight;
    if forall i :: 0 <= i < |events| ==> !Stale(states[i], events[i]) {
      forall n | 0 <= n < |states| ensures AllRight(states[n], channels) {
        RightUpTo(states, events, channels, n);
      }
    }
    if forall n :: 0 <= n < |states| ==> AllRight(states[n], channels) {
      forall i | 0 <= i < |events| ensures !Stale(states[i], events[i]) {
        assert AllRight(states[i], channels) && AllRight(states[i + 1], channels);
        RunKeepsApart(states, events, channels, i);
        StepRightIff(states[i], events[i], channels);
      }
    }
  }

  // ---------------------------------------------------------------- without overlap

  predicate Underway(t: Traffic, c: nat, leg: Leg) {
    c in t.calls && t.calls[c].leg == leg && !t.calls[c].at.Looking?
  }

  /** No two deliveries of a leg are past their lookup together. */
  ghost predicate OneDelivery(t: Traffic) {
    forall c, d, leg :: Underway(t, c, leg) && Underway(t, d, leg) ==> c == d
  }

  /** What a delivery has in hand is what the record still says, or the message with the last text. */
  predicate HandOk(side: Side, e: Delivery) {
    match e.at
    case Rewriting(rec) => Key(e.leg) in side.edits ==> side.edits[Key(e.leg)].id == rec.id
    case Recording(id) => SaysLast(side, e.leg, id)
    case _ => true
  }

  ghost predicate HandsOk(t: Traffic) {
    forall c :: c in t.calls ==> HandOk(t.side, t.calls[c])
  }

  lemma OtherHandStays(t: Traffic, ev: Event, d: nat, channels: iset<string>)
    requires Enabled(t, ev) && Apart(channels) && UsesApart(t, channels) && d in t.calls
    requires ev.Go? ==> t.calls[d].leg != t.calls[ev.c].leg
    ensures HandOk(t.side, t.calls[d]) ==> HandOk(Apply(t, ev).side, t.calls[d])
  {
    hide Key, Apart, Editable;
    var f := t.calls[d];
    if InHand(f).Some? {
      assert Uses(t, f.leg, InHand(f).value);
    }
    if ev.Go? {
      var e := t.calls[ev.c];
      KeyInjective(channels, f.leg, e.leg);
      if InHand(e).Some? {
        assert Uses(t, e.leg, InHand(e).value);
      }
      if e.at.Recording? {
        RecordAt(t.side.edits, Key(e.leg), e.at.id, ev.o.now, Key(f.leg));
      }
    }
  }

  /** A delivery past its lookup is on another leg than any other such delivery. */
  lemma OtherLegs(t: Traffic, c: nat, d: nat)
    requires OneDelivery(t) && c in t.calls && d in t.calls && c != d
    requires !t.calls[c].at.Looking? && !t.calls[d].at.Looking?
    ensures t.calls[c].leg != t.calls[d].leg
  {
    assert Underway(t, c, t.calls[c].leg) && Underway(t, d, t.calls[d].leg);
  }

  lemma StepKeepsHand(t: Traffic, ev: Event, d: nat, channels: iset<string>)
    requires Enabled(t, ev) && Apart(channels) && UsesApart(t, channels) && OneDelivery(t) && HandsOk(t)
    requires d in Apply(t, ev).calls
    ensures HandOk(Apply(t, ev).side, Apply(t, ev).calls[d])
  {
    hide Key, Apart, Editable, HandOk, UsesApart;
    CallsAfter(t, ev, d);
    if ev.Go? && d == ev.c {
      assert HandOk(t.side, t.calls[d]);
      OwnHand(t, ev);
    } else if Apply(t, ev).calls[d].at.Looking? || Apply(t, ev).calls[d].at == Posting {
      EmptyHand(Apply(t, ev).side, Apply(t, ev).calls[d]);
    } else if ev.Go? && t.calls[ev.c].at.Looking? {
      LookingChangesNothing(t, ev);
    } else {
      if ev.Go? {
        OtherLegs(t, ev.c, d);
      }
      OtherHandStays(t, ev, d, channels);
    }
  }

  lemma EmptyHand(side: Side, e: Delivery)
    requires e.at.Looking? || e.at == Posting
    ensures HandOk(side, e)
  {
  }

  lemma LookingChangesNothing(t: Traffic, ev: Event)
    requires Enabled(t, ev) && ev.Go? && t.calls[ev.c].at.Looking?
    ensures Apply(t, ev).side == t.side
  {
  }

  /** The deliveries after a step: a new one has nothing in hand, and only the one that moved has changed. */
  lemma CallsAfter(t: Traffic, ev: Event, d: nat)
    requires Enabled(t, ev) && d in Apply(t, ev).calls
    ensures ev.Go? && d == ev.c ==> d in t.calls
    ensures !(ev.Go? && d == ev.c) ==>
      var at := Apply(t, ev).calls[d].at;
      at.Looking? || at == Posting || (d in t.calls && Apply(t, ev).calls[d] == t.calls[d])
  {
    hide Key, Editable, Recorded, Posted;
  }

  lemma OwnHand(t: Traffic, ev: Event)
    requires Enabled(t, ev) && ev.Go? && HandOk(t.side, t.calls[ev.c]) && ev.c in Apply(t, ev).calls
    ensures HandOk(Apply(t, ev).side, Apply(t, ev).calls[ev.c])
  {
    hide Key, Editable, Recorded;
  }

  lemma {:induction false} RunKeepsHands(states: seq<Traffic>, events: seq<Event>, channels: iset<string>, n: nat)
    requires Run(states, events) && n < |states|
    requires Apart(channels) && forall i :: 0 <= i < |events| ==> Over(events[i], channels)
    requires forall i :: 0 <= i < |states| ==> OneDelivery(states[i])
    ensures HandsOk(states[n])
  {
    hide Apply, Enabled, Apart, Over, OneDelivery, UsesApart, HandOk;
    if n > 0 {
      RunKeepsHands(states, events, channels, n - 1);
      RunKeepsApart(states, events, channels, n - 1);
      var t, ev := states[n - 1], events[n - 1];
      forall d | d in states[n].calls ensures HandOk(states[n].side, states[n].calls[d]) {
        StepKeepsHand(t, ev, d, channels);
      }
    }
  }

  lemma RightHandIsNotStale(t: Traffic, ev: Event)
    requires Enabled(t, ev) && HandsOk(t)
    ensures !Stale(t, ev)
  {
    hide Key, Editable, Apply, Recorder;
    if ev.Go? {
      assert HandOk(t.side, t.calls[ev.c]);
    }
  }

  /** Deliveries of different legs may overlap as they like: as long as those of one leg do not overlap past their
      lookups, the records are right in every state. */
  lemma ApartKeepsRecords(states: seq<Traffic>, events: seq<Event>, channels: iset<string>)
    requires Run(states, events)
    requires Apart(channels) && forall i :: 0 <= i < |events| ==> Over(events[i], channels)
    requires forall i :: 0 <= i < |states| ==> OneDelivery(states[i])
    ensures forall n :: 0 <= n < |states| ==> AllRight(states[n], channels)
  {
    hide Apply, Enabled, Apart, Over, OneDelivery, AllRight, HandsOk, Stale;
    forall i | 0 <= i < |events| ensures !Stale(states[i], events[i]) {
      RunKeepsHands(states, events, channels, i);
      RightHandIsNotStale(states[i], events[i]);
    }
    RunRightIff(states, events, channels);
  }
}
