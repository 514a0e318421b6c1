/** What a send or an edit on a route does on the mirroring platforms (internal/bridge/service.go), channel by channel,
    and which messages a send leaves in the chats. */
module RouteDelivery {
  import opened Options
  import opened Decimals
  import opened MirrorMap

  const DAY := 24 * 60 * 60 * 1000

  // ---------------------------------------------------------------- one channel

  /** A new message in this channel, with the next id; all others are as they were. */
  predicate Delivered(c: Chat, c': Chat, channel: string, text: string) {
    c'.next == c.next + 1 && c'.messages == c.messages[c.next := Message(channel, text)]
  }

  /** The key names this message from now on; of the other records those of the last day are left. */
  predicate Noted(m: map<string, Mirror>, m': map<string, Mirror>, key: string, id: nat, now: int) {
    && key in m' && m'[key] == Mirror(id, now)
    && (forall k :: k in m' && k != key ==> k in m && m'[k] == m[k])
    && (forall k :: k in m && k != key ==> (k in m' <==> now - m[k].at <= DAY))
  }

  /** A copy of a text: nothing happens if the platform refuses it; the record is kept only for a text with a
      primary. */
  predicate CopySent(side: Side, side': Side, primary: string, channel: string, text: string, o: Outcome) {
    if !o.sends then side' == side
    else
      && Delivered(side.chat, side'.chat, channel, text)
      && (if primary == "" then side'.edits == side.edits && side'.said == side.said
          else Noted(side.edits, side'.edits, primary + "|" + channel, side.chat.next, o.now)
               && side'.said == side.said[Leg(primary, channel) := text])
  }

  /** The recorded message can still be edited: it is young enough and the platform has it in this channel. */
  predicate InPlace(side: Side, primary: string, channel: string, o: Outcome, window: Option<int>) {
    var key := primary + "|" + channel;
    && key in side.edits && o.edits
    && (window == None || o.now - side.edits[key].at <= window.value)
    && side.edits[key].id in side.chat.messages && side.chat.messages[side.edits[key].id].channel == channel
  }

  /** An edited copy: the recorded message says the new text, or a fresh copy takes its place. */
  predicate CopyEdited(side: Side, side': Side, primary: string, channel: string, text: string, o: Outcome,
                       window: Option<int>) {
    var key := primary + "|" + channel;
    if InPlace(side, primary, channel, o, window) then
      && side'.edits == side.edits && side'.chat.next == side.chat.next
      && side'.chat.messages == side.chat.messages[side.edits[key].id := Message(channel, text)]
      && side'.said == side.said[Leg(primary, channel) := text]
    else if !o.sends then side' == side
    else
      && Delivered(side.chat, side'.chat, channel, text)
      && Noted(side.edits, side'.edits, key, side.chat.next, o.now)
      && side'.said == side.said[Leg(primary, channel) := text]
  }

  lemma RecordNotes(m: map<string, Mirror>, key: string, id: nat, now: int)
    ensures Noted(m, Recorded(m, key, id, now), key, id, now)
  {
  }

  lemma MirroredIsSent(side: Side, leg: Leg, text: string, o: Outcome)
    requires leg.primary != ""
    ensures CopySent(side, Mirrored(side, leg, text, o), leg.primary, leg.channel, text, o)
  {
    hide Recorded, Noted;
    RecordNotes(side.edits, Key(leg), side.chat.next, o.now);
  }

  lemma StrayIsSent(side: Side, channel: string, text: string, o: Outcome)
    ensures CopySent(side, Stray(side, channel, text, o), "", channel, text, o)
  {
  }

  lemma ReEditedIsEdited(side: Side, leg: Leg, text: string, o: Outcome, window: Option<int>)
    ensures CopyEdited(side, ReEdited(side, leg, text, o, window), leg.primary, leg.channel, text, o, window)
  {
    hide Recorded, Noted;
    RecordNotes(side.edits, Key(leg), side.chat.next, o.now);
  }

  // ---------------------------------------------------------------- the route

  /** One channel of a send changes the side of its platform, if it has one, and nothing else. */
  predicate ChannelSent(s: State, s': State, ch: Channel, o: Outcome, primary: string, text: string) {
    && (if ch.kind == WhatsApp then CopySent(s.wa, s'.wa, primary, ch.address, text, o) else s'.wa == s.wa)
    && (if ch.kind == Discord then CopySent(s.dc, s'.dc, primary, ch.address, text, o) else s'.dc == s.dc)
  }

  /** Only WhatsApp has a window. */
  predicate ChannelEdited(s: State, s': State, ch: Channel, o: Outcome, primary: string, text: string, window: int) {
    && (if ch.kind == WhatsApp then CopyEdited(s.wa, s'.wa, primary, ch.address, text, o, Some(window))
        else s'.wa == s.wa)
    && (if ch.kind == Discord then CopyEdited(s.dc, s'.dc, primary, ch.address, text, o, None) else s'.dc == s.dc)
  }

  lemma SendLegTells(s: State, ch: Channel, o: Outcome, primary: string, text: string)
    ensures ChannelSent(s, SendLeg(s, ch, o, primary, text), ch, o, primary, text)
  {
    hide CopySent, Mirrored, Stray;
    if primary == "" {
      StrayIsSent(s.wa, ch.address, text, o);
      StrayIsSent(s.dc, ch.address, text, o);
    } else {
      MirroredIsSent(s.wa, Leg(primary, ch.address), text, o);
      MirroredIsSent(s.dc, Leg(primary, ch.address), text, o);
    }
  }

  lemma EditLegTells(s: State, ch: Channel, o: Outcome, primary: string, text: string, window: int)
    ensures ChannelEdited(s, EditLeg(s, ch, o, primary, text, window), ch, o, primary, text, window)
  {
    hide CopyEdited, ReEdited;
    ReEditedIsEdited(s.wa, Leg(primary, ch.address), text, o, Some(window));
    ReEditedIsEdited(s.dc, Leg(primary, ch.address), text, o, None);
  }

  /** A Messenger channel that ends an edit: it has no number, or the platform refuses. */
  predicate FailsEdit(ch: Channel, o: Outcome) {
    ch.kind == Messenger && (!IsInt64(ch.address) || !o.edits)
  }

  /** A send with this primary id goes through all its channels in turn. */
  lemma {:induction false} SendTells(s: State, channels: seq<Channel>, outs: seq<Outcome>, primary: string,
                                     text: string)
    returns (mids: seq<State>)
    requires |outs| == |channels|
    ensures |mids| == |channels| + 1 && mids[0] == s && mids[|channels|] == SendLegs(s, channels, outs, primary, text)
    ensures forall i :: 0 <= i < |channels| ==> ChannelSent(mids[i], mids[i + 1], channels[i], outs[i], primary, text)
  {
    hide ChannelSent, SendLeg;
    mids := [s];
    if channels != [] {
      var n := |channels| - 1;
      mids := SendTells(s, channels[..n], outs[..n], primary, text);
      SendLegTells(mids[n], channels[n], outs[n], primary, text);
      mids := mids + [SendLeg(mids[n], channels[n], outs[n], primary, text)];
    }
  }

  lemma {:induction false} EditLegsTell(s: State, channels: seq<Channel>, outs: seq<Outcome>, primary: string,
                                        text: string, window: int)
    returns (mids: seq<State>)
    requires |outs| == |channels|
    ensures |mids| == |channels| + 1 && mids[0] == s
    ensures mids[|channels|] == EditLegs(s, channels, outs, primary, text, window)
    ensures forall i :: 0 <= i < |channels| ==>
        ChannelEdited(mids[i], mids[i + 1], channels[i], outs[i], primary, text, window)
  {
    hide ChannelEdited, EditLeg;
    mids := [s];
    if channels != [] {
      var n := |channels| - 1;
      mids := EditLegsTell(s, channels[..n], outs[..n], primary, text, window);
      EditLegTells(mids[n], channels[n], outs[n], primary, text, window);
      mids := mids + [EditLeg(mids[n], channels[n], outs[n], primary, text, window)];
    }
  }

  /** An edit goes through its channels in turn, up to the first Messenger channel that fails. */
  lemma EditTells(s: State, channels: seq<Channel>, outs: seq<Outcome>, primary: string, text: string, window: int)
    returns (n: nat, mids: seq<State>)
    requires |outs| == |channels|
    ensures n <= |channels| && (n < |channels| ==> FailsEdit(channels[n], outs[n]))
    ensures forall i :: 0 <= i < n ==> !FailsEdit(channels[i], outs[i])
    ensures |mids| == n + 1 && mids[0] == s && mids[n] == AfterEdit(s, channels, outs, primary, text, window)
    ensures forall i :: 0 <= i < n ==>
        ChannelEdited(mids[i], mids[i + 1], channels[i], outs[i], primary, text, window)
  {
    hide ChannelEdited, EditLegs;
    n := EditReach(channels, outs);
    mids := EditLegsTell(s, channels[..n], outs[..n], primary, text, window);
  }

  // ---------------------------------------------------------------- the messages of a send

  /** The channels of a platform that took the text. */
  predicate Took(ch: Channel, o: Outcome, kind: Kind) {
    ch.kind == kind && o.sends
  }

  /** Where those channels are, in order. */
  ghost predicate Places(at: seq<nat>, channels: seq<Channel>, outs: seq<Outcome>, kind: Kind)
    requires |outs| == |channels|
  {
    && (forall i, j :: 0 <= i < j < |at| ==> at[i] < at[j])
    && (forall i :: 0 <= i < |at| ==> at[i] < |channels|)
    && (forall k :: 0 <= k < |channels| ==> (k in at <==> Took(channels[k], outs[k], kind)))
  }

  /** The chat has gained these messages, in this order, and lost none. */
  predicate Gained(c: Chat, c': Chat, copies: seq<Message>) {
    && c'.next == c.next + |copies|
    && (forall id :: id in c'.messages ==> id in c.messages || c.next <= id < c'.next)
    && (forall id :: id in c.messages ==> id in c'.messages && (id < c.next ==> c'.messages[id] == c.messages[id]))
    && (forall id :: c.next <= id < c'.next ==> id in c'.messages && c'.messages[id] == copies[id - c.next])
  }

  /** One message with the text for each of these channels. */
  function Copies(channels: seq<Channel>, at: seq<nat>, text: string): (r: seq<Message>)
    ensures |r| == |at|
    ensures forall i :: 0 <= i < |r| && at[i] < |channels| ==> r[i] == Message(channels[at[i]].address, text)
  {
    seq(|at|, i requires 0 <= i < |at| => Message(if at[i] < |channels| then channels[at[i]].address else "", text))
  }

  lemma OneMorePlace(at: seq<nat>, channels: seq<Channel>, outs: seq<Outcome>, kind: Kind)
    requires |outs| == |channels| > 0 && Places(at, channels[..|channels| - 1], outs[..|channels| - 1], kind)
    ensures var n := |channels| - 1;
      Places(if Took(channels[n], outs[n], kind) then at + [n] else at, channels, outs, kind)
  {
    var n := |channels| - 1;
    var at' := if Took(channels[n], outs[n], kind) then at + [n] else at;
    forall k | 0 <= k < |channels| ensures k in at' <==> Took(channels[k], outs[k], kind) {
      if k < n {
        assert k in at <==> Took(channels[..n][k], outs[..n][k], kind);
      }
    }
  }

  lemma OneMoreGained(c: Chat, mid: Chat, c': Chat, copies: seq<Message>, channel: string, text: string)
    requires Gained(c, mid, copies) && Delivered(mid, c', channel, text)
    ensures Gained(c, c', copies + [Message(channel, text)])
  {
    var more := copies + [Message(channel, text)];
    forall id | c.next <= id < c'.next ensures id in c'.messages && c'.messages[id] == more[id - c.next] {
      assert id < mid.next ==> id in mid.messages;
    }
  }

  lemma OneMoreCopy(channels: seq<Channel>, at: seq<nat>, text: string)
    requires channels != [] && forall i :: 0 <= i < |at| ==> at[i] < |channels| - 1
    ensures var n := |channels| - 1;
      && Copies(channels, at, text) == Copies(channels[..n], at, text)
      && Copies(channels, at + [n], text) == Copies(channels[..n], at, text) + [Message(channels[n].address, text)]
  {
    var n := |channels| - 1;
    var front, all, more := Copies(channels[..n], at, text), Copies(channels, at, text),
      Copies(channels, at + [n], text);
    assert forall i :: 0 <= i < |at| ==> front[i] == all[i] && (at + [n])[i] == at[i] && more[i] == front[i];
    assert all == front && more == front + [Message(channels[n].address, text)];
  }

  /** The places and the messages, with one channel more. */
  lemma Reached(c: Chat, mid: Chat, c': Chat, channels: seq<Channel>, outs: seq<Outcome>, kind: Kind, text: string,
                at: seq<nat>) returns (at': seq<nat>)
    requires |outs| == |channels| > 0
    requires var n := |channels| - 1;
      && Places(at, channels[..n], outs[..n], kind) && Gained(c, mid, Copies(channels[..n], at, text))
      && if Took(channels[n], outs[n], kind) then Delivered(mid, c', channels[n].address, text) else c' == mid
    ensures Places(at', channels, outs, kind) && Gained(c, c', Copies(channels, at', text))
  {
    var n := |channels| - 1;
    OneMoreCopy(channels, at, text);
    hide Gained, Delivered;
    OneMorePlace(at, channels, outs, kind);
    at' := at;
    if Took(channels[n], outs[n], kind) {
      OneMoreGained(c, mid, c', Copies(channels[..n], at, text), channels[n].address, text);
      at' := at + [n];
    }
  }

  /** A send reaches, on WhatsApp and on Discord, exactly the channels that take it, each with one message. */
  lemma {:induction false} SendReaches(s: State, channels: seq<Channel>, outs: seq<Outcome>, primary: string,
                                       text: string)
    returns (wa: seq<nat>, dc: seq<nat>)
    requires |outs| == |channels|
    ensures var s' := SendLegs(s, channels, outs, primary, text);
      && Places(wa, channels, outs, WhatsApp) && Gained(s.wa.chat, s'.wa.chat, Copies(channels, wa, text))
      && Places(dc, channels, outs, Discord) && Gained(s.dc.chat, s'.dc.chat, Copies(channels, dc, text))
  {
    wa, dc := [], [];
    if channels != [] {
      var n := |channels| - 1;
      var mid := SendLegs(s, channels[..n], outs[..n], primary, text);
      wa, dc := SendReaches(s, channels[..n], outs[..n], primary, text);
      SendLegTells(mid, channels[n], outs[n], primary, text);
      hide Gained, Places, SendLeg, Delivered;
      var s' := SendLeg(mid, channels[n], outs[n], primary, text);
      wa := Reached(s.wa.chat, mid.wa.chat, s'.wa.chat, channels, outs, WhatsApp, text, wa);
      dc := Reached(s.dc.chat, mid.dc.chat, s'.dc.chat, channels, outs, Discord, text, dc);
    }
  }
}
