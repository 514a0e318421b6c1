/** Route fan-out and its mirror map (internal/bridge/service.go): a text sent on a route goes to Messenger, whose
    message id is the primary, and is mirrored to WhatsApp and Discord; edits of the primary follow the mirrors.
    Message ids on the mirroring platforms are numbers handed out in order: only their being fresh matters. */
module MirrorMap {
  import opened Options
  import opened Decimals
  import opened Text

  datatype Kind = Messenger | WhatsApp | Discord | OtherKind

  /** `address` is the thread id, the JID or the channel id. */
  datatype Channel = Channel(kind: Kind, address: string)

  /** What the platforms answer on one leg: the time, the Messenger id, and whether a send or an in-place edit
      succeeds. */
  datatype Outcome = Outcome(now: int, primary: Option<string>, sends: bool, edits: bool)

  datatype Mirror = Mirror(id: nat, at: int)

  datatype Message = Message(channel: string, text: string)

  datatype Chat = Chat(next: nat, messages: map<nat, Message>)

  /** The copies of one primary message in one channel. */
  datatype Leg = Leg(primary: string, channel: string)

  /** One mirroring platform. `said` is bookkeeping: the last text delivered on each leg. */
  datatype Side = Side(edits: map<string, Mirror>, chat: Chat, said: map<Leg, string>)

  datatype State = State(wa: Side, dc: Side)

  const MIRROR_EDIT_TTL := 24 * 60 * 60 * 1000

  function Key(leg: Leg): (r: string) {
    leg.primary + "|" + leg.channel
  }

  // ---------------------------------------------------------------- the map

  function Recorded(m: map<string, Mirror>, key: string, id: nat, now: int): (r: map<string, Mirror>) {
    var added := m[key := Mirror(id, now)];
    map k | k in added && added[k].at >= now - MIRROR_EDIT_TTL :: added[k]
  }

  class MirrorEdits {
    var entries: map<string, Mirror>

    constructor ()
      ensures entries == map[]
    {
      entries := map[];
    }

    /** recordMirrorEdit: store, then prune what is past the time to live. */
    method Record(key: string, id: nat, now: int)
      modifies this
      ensures entries == Recorded(old(entries), key, id, now)
    {
      entries := entries[key := Mirror(id, now)];
      var cutoff := now - MIRROR_EDIT_TTL;
      ghost var added := entries;
      var todo := entries.Keys;
      while todo != {}
        invariant todo <= entries.Keys
        invariant entries == map k | k in added && (k in todo || added[k].at >= cutoff) :: added[k]
        decreases todo
      {
        var k :| k in todo;
        todo := todo - {k};
        if entries[k].at < cutoff {
          entries := entries - {k};
        }
      }
    }

    /** mirrorEditTarget: a lookup consumes nothing. */
    method Target(key: string) returns (r: Option<Mirror>)
      ensures r == if key in entries then Some(entries[key]) else None
    {
      if key in entries {
        return Some(entries[key]);
      }
      return None;
    }
  }

  // ---------------------------------------------------------------- one leg

  function Posted(c: Chat, channel: string, text: string): (r: Chat) {
    Chat(c.next + 1, c.messages[c.next := Message(channel, text)])
  }

  /** A platform can only edit a message that is there. */
  predicate Editable(c: Chat, channel: string, id: nat) {
    id in c.messages && c.messages[id].channel == channel
  }

  function Rewritten(c: Chat, channel: string, id: nat, text: string): (r: Chat) {
    c.(messages := c.messages[id := Message(channel, text)])
  }

  /** A fresh copy, recorded under the leg's key. */
  function Mirrored(side: Side, leg: Leg, text: string, o: Outcome): (r: Side) {
    if !o.sends then side
    else Side(Recorded(side.edits, Key(leg), side.chat.next, o.now), Posted(side.chat, leg.channel, text),
              side.said[leg := text])
  }

  /** A copy of a text that has no primary message. */
  function Stray(side: Side, channel: string, text: string, o: Outcome): (r: Side) {
    if o.sends then side.(chat := Posted(side.chat, channel, text)) else side
  }

  function SendLeg(s: State, ch: Channel, o: Outcome, primary: string, text: string): (r: State) {
    var leg := Leg(primary, ch.address);
    match ch.kind
    case WhatsApp => s.(wa := if primary != "" then Mirrored(s.wa, leg, text, o) else Stray(s.wa, ch.address, text, o))
    case Discord => s.(dc := if primary != "" then Mirrored(s.dc, leg, text, o) else Stray(s.dc, ch.address, text, o))
    case Messenger => s
    case OtherKind => s
  }

  /** In place if a mirror is recorded, still inside the window and the platform takes the edit; else afresh. */
  function ReEdited(side: Side, leg: Leg, text: string, o: Outcome, window: Option<int>): (r: Side) {
    if && Key(leg) in side.edits
       && (window.Some? ==> o.now - side.edits[Key(leg)].at <= window.value)
       && o.edits && Editable(side.chat, leg.channel, side.edits[Key(leg)].id)
    then
      side.(chat := Rewritten(side.chat, leg.channel, side.edits[Key(leg)].id, text), said := side.said[leg := text])
    else Mirrored(side, leg, text, o)
  }

  function EditLeg(s: State, ch: Channel, o: Outcome, primary: string, text: string, window: int): (r: State) {
    var leg := Leg(primary, ch.address);
    match ch.kind
    case WhatsApp => s.(wa := ReEdited(s.wa, leg, text, o, Some(window)))
    case Discord => s.(dc := ReEdited(s.dc, leg, text, o, None))
    case Messenger => s
    case OtherKind => s
  }

  // ---------------------------------------------------------------- the two calls

  /** The primary id after the Messenger channels; None if one of them fails. The last channel's id wins. */
  function PrimaryId(channels: seq<Channel>, outs: seq<Outcome>): (r: Option<string>)
    requires |outs| == |channels|
  {
    if channels == [] then Some("")
    else
      var n := |channels| - 1;
      match PrimaryId(channels[..n], outs[..n])
      case None => None
      case Some(id) =>
        if !channels[n].kind.Messenger? then Some(id)
        else if IsInt64(channels[n].address) && outs[n].primary != Some("") then outs[n].primary
        else None
  }

  function SendLegs(s: State, channels: seq<Channel>, outs: seq<Outcome>, primary: string, text: string): (r: State)
    requires |outs| == |channels|
  {
    if channels == [] then s
    else
      var n := |channels| - 1;
      SendLeg(SendLegs(s, channels[..n], outs[..n], primary, text), channels[n], outs[n], primary, text)
  }

  /** The Messenger edit of this channel fails, which ends the call. */
  predicate StopsEdit(ch: Channel, o: Outcome) {
    ch.kind.Messenger? && !(IsInt64(ch.address) && o.edits)
  }

  /** The channels an edit gets through before it stops. */
  function EditReach(channels: seq<Channel>, outs: seq<Outcome>): (r: nat)
    requires |outs| == |channels|
    ensures r <= |channels|
    ensures r < |channels| ==> StopsEdit(channels[r], outs[r])
    ensures forall i :: 0 <= i < r ==> !StopsEdit(channels[i], outs[i])
  {
    if channels == [] || StopsEdit(channels[0], outs[0]) then 0 else 1 + EditReach(channels[1..], outs[1..])
  }

  function EditLegs(s: State, channels: seq<Channel>, outs: seq<Outcome>, primary: string, text: string,
                    window: int): (r: State)
    requires |outs| == |channels|
  {
    if channels == [] then s
    else
      var n := |channels| - 1;
      EditLeg(EditLegs(s, channels[..n], outs[..n], primary, text, window), channels[n], outs[n], primary, text, window)
  }

  function AfterSend(s: State, channels: seq<Channel>, outs: seq<Outcome>, text: string): (r: State)
    requires |outs| == |channels|
  {
    match PrimaryId(channels, outs)
    case None => s
    case Some(primary) => SendLegs(s, channels, outs, primary, text)
  }

  function AfterEdit(s: State, channels: seq<Channel>, outs: seq<Outcome>, primary: string, text: string,
                     window: int): (r: State)
    requires |outs| == |channels|
  {
    var n := EditReach(channels, outs);
    EditLegs(s, channels[..n], outs[..n], primary, text, window)
  }

  class Service {
    const waEdits: MirrorEdits
    const dcEdits: MirrorEdits
    const window: int  // whatsapp.EditWindow, fixed by the WhatsApp library
    var waChat: Chat
    var dcChat: Chat
    ghost var waSaid: map<Leg, string>
    ghost var dcSaid: map<Leg, string>

    ghost predicate Valid() {
      waEdits != dcEdits
    }

    ghost function Value(): (r: State)
      reads this, waEdits, dcEdits
    {
      State(Side(waEdits.entries, waChat, waSaid), Side(dcEdits.entries, dcChat, dcSaid))
    }

    constructor (window: int)
      ensures this.window == window
      ensures Valid() && fresh(waEdits) && fresh(dcEdits)
      ensures Value() == EMPTY
    {
      this.window := window;
      waEdits := new MirrorEdits();
      dcEdits := new MirrorEdits();
      waChat, dcChat := Chat(0, map[]), Chat(0, map[]);
      waSaid, dcSaid := map[], map[];
    }

    /** SendWhatsApp and sendDiscord: a fresh message, or a failure. */
    method PostWhatsApp(channel: string, text: string, o: Outcome) returns (id: Option<nat>)
      modifies this`waChat
      ensures id == if o.sends then Some(old(waChat).next) else None
      ensures waChat == if o.sends then Posted(old(waChat), channel, text) else old(waChat)
    {
      if !o.sends {
        return None;
      }
      id := Some(waChat.next);
      waChat := Posted(waChat, channel, text);
    }

    method PostDiscord(channel: string, text: string, o: Outcome) returns (id: Option<nat>)
      modifies this`dcChat
      ensures id == if o.sends then Some(old(dcChat).next) else None
      ensures dcChat == if o.sends then Posted(old(dcChat), channel, text) else old(dcChat)
    {
      if !o.sends {
        return None;
      }
      id := Some(dcChat.next);
      dcChat := Posted(dcChat, channel, text);
    }

    method EditWhatsApp(channel: string, id: nat, text: string, o: Outcome) returns (done: bool)
      modifies this`waChat
      ensures done == (o.edits && Editable(old(waChat), channel, id))
      ensures waChat == if done then Rewritten(old(waChat), channel, id, text) else old(waChat)
    {
      done := o.edits && Editable(waChat, channel, id);
      if done {
        waChat := Rewritten(waChat, channel, id, text);
      }
    }

    method EditDiscord(channel: string, id: nat, text: string, o: Outcome) returns (done: bool)
      modifies this`dcChat
      ensures done == (o.edits && Editable(old(dcChat), channel, id))
      ensures dcChat == if done then Rewritten(old(dcChat), channel, id, text) else old(dcChat)
    {
      done := o.edits && Editable(dcChat, channel, id);
      if done {
        dcChat := Rewritten(dcChat, channel, id, text);
      }
    }

    method SendPrimary(channels: seq<Channel>, outs: seq<Outcome>) returns (primary: Option<string>)
      requires |outs| == |channels|
      ensures primary == PrimaryId(channels, outs)
    {
      var id := "";
      for i := 0 to |channels|
        invariant PrimaryId(channels[..i], outs[..i]) == Some(id)
      {
        assert channels[..i + 1][..i] == channels[..i] && outs[..i + 1][..i] == outs[..i];
        if !channels[i].kind.Messenger? {
          continue;
        }
        if !IsInt64(channels[i].address) || outs[i].primary.None? || outs[i].primary.value == "" {
          PrimaryFails(channels, outs, i + 1);
          return None;
        }
        id := outs[i].primary.value;
      }
      assert channels[..|channels|] == channels && outs[..|outs|] == outs;
      return Some(id);
    }

    method SendRoute(channels: seq<Channel>, outs: seq<Outcome>, text: string) returns (primary: Option<string>)
      requires Valid() && |outs| == |channels|
      modifies this, waEdits, dcEdits
      ensures channels == [] ==> primary.None?
      ensures channels != [] ==> primary == PrimaryId(channels, outs)
      ensures Value() == AfterSend(old(Value()), channels, outs, text)
    {
      hide Recorded, Posted, IsInt64;
      if |channels| == 0 {
        return None;
      }
      primary := SendPrimary(channels, outs);
      if primary.None? {
        return;
      }
      var primaryId := primary.value;
      for i := 0 to |channels|
        invariant Value() == SendLegs(old(Value()), channels[..i], outs[..i], primaryId, text)
      {
        assert channels[..i + 1][..i] == channels[..i] && outs[..i + 1][..i] == outs[..i];
        var ch, o := channels[i], outs[i];
        match ch.kind
        case WhatsApp =>
          var id := PostWhatsApp(ch.address, text, o);
          if id.None? {
            continue;
          }
          if primaryId != "" {
            waEdits.Record(primaryId + "|" + ch.address, id.value, o.now);
            waSaid := waSaid[Leg(primaryId, ch.address) := text];
          }
        case Discord =>
          var id := PostDiscord(ch.address, text, o);
          if id.None? {
            continue;
          }
          if primaryId != "" {
            dcEdits.Record(primaryId + "|" + ch.address, id.value, o.now);
            dcSaid := dcSaid[Leg(primaryId, ch.address) := text];
          }
        case Messenger =>
        case OtherKind =>
      }
      assert channels[..|channels|] == channels && outs[..|outs|] == outs;
    }

    method EditMirror(ch: Channel, o: Outcome, messageId: string, text: string)
      requires Valid() && (ch.kind.WhatsApp? || ch.kind.Discord?)
      modifies this, waEdits, dcEdits
      ensures Value() == EditLeg(old(Value()), ch, o, messageId, text, window)
    {
      hide Recorded, Posted, Rewritten, Editable;
      var leg := Leg(messageId, ch.address);
      var key := messageId + "|" + ch.address;
      if ch.kind.WhatsApp? {
        var rec := waEdits.Target(key);
        if rec.Some? && o.now - rec.value.at <= window {
          var done := EditWhatsApp(ch.address, rec.value.id, text, o);
          if done {
            waSaid := waSaid[leg := text];
            return;
          }
        }
        var id := PostWhatsApp(ch.address, text, o);
        if id.None? {
          return;
        }
        waEdits.Record(key, id.value, o.now);
        waSaid := waSaid[leg := text];
      } else {
        var rec := dcEdits.Target(key);
        if rec.Some? {
          var done := EditDiscord(ch.address, rec.value.id, text, o);
          if done {
            dcSaid := dcSaid[leg := text];
            return;
          }
        }
        var id := PostDiscord(ch.address, text, o);
        if id.None? {
          return;
        }
        dcEdits.Record(key, id.value, o.now);
        dcSaid := dcSaid[leg := text];
      }
    }

    method EditRoute(channels: seq<Channel>, outs: seq<Outcome>, messageId: string, text: string) returns (ok: bool)
      requires Valid() && |outs| == |channels|
      modifies this, waEdits, dcEdits
      ensures ok <==>
        EditReach(channels, outs) == |channels| && exists i :: 0 <= i < |channels| && channels[i].kind.Messenger?
      ensures Value() == AfterEdit(old(Value()), channels, outs, messageId, text, window)
    {
      hide IsInt64, ReEdited;
      var edited := false;
      for i := 0 to |channels|
        invariant i <= EditReach(channels, outs)
        invariant edited <==> exists j :: 0 <= j < i && channels[j].kind.Messenger?
        invariant Value() == EditLegs(old(Value()), channels[..i], outs[..i], messageId, text, window)
      {
        assert channels[..i + 1][..i] == channels[..i] && outs[..i + 1][..i] == outs[..i];
        var ch, o := channels[i], outs[i];
        match ch.kind
        case Messenger =>
          if !IsInt64(ch.address) || !o.edits {
            return false;
          }
          edited := true;
        case WhatsApp => EditMirror(ch, o, messageId, text);
        case Discord => EditMirror(ch, o, messageId, text);
        case OtherKind =>
      }
      return edited;
    }
  }

  const EMPTY := State(Side(map[], Chat(0, map[]), map[]), Side(map[], Chat(0, map[]), map[]))

  /** The Messenger send on this channel gives an id. */
  predicate PrimarySent(ch: Channel, o: Outcome) {
    IsInt64(ch.address) && o.primary.Some? && o.primary.value != ""
  }

  /** A send fails exactly when one of its Messenger channels does; else its id is the last Messenger channel's, and
      empty only if there is none. */
  lemma {:induction false} PrimaryIsLastMessenger(channels: seq<Channel>, outs: seq<Outcome>)
    requires |outs| == |channels|
    ensures PrimaryId(channels, outs).None? <==>
      exists i :: 0 <= i < |channels| && channels[i].kind.Messenger? && !PrimarySent(channels[i], outs[i])
    ensures PrimaryId(channels, outs).Some? ==> LastMessenger(channels, outs, PrimaryId(channels, outs).value)
  {
    hide PrimarySent;
    if channels != [] {
      var n := |channels| - 1;
      PrimaryIsLastMessenger(channels[..n], outs[..n]);
      PrimaryNext(channels, outs);
      hide PrimaryId;
      if i :| 0 <= i < n && channels[..n][i].kind.Messenger? && !PrimarySent(channels[..n][i], outs[..n][i]) {
        assert channels[i].kind.Messenger? && !PrimarySent(channels[i], outs[i]);
      }
      if i :| 0 <= i < n && channels[i].kind.Messenger? && !PrimarySent(channels[i], outs[i]) {
        assert channels[..n][i].kind.Messenger? && !PrimarySent(channels[..n][i], outs[..n][i]);
      }
      if PrimaryId(channels, outs).Some? && !channels[n].kind.Messenger? {
        LastMessengerStays(channels, outs, PrimaryId(channels, outs).value);
      }
    }
  }

  /** The last Messenger channel gave this id, or there is none and it is empty. */
  ghost predicate LastMessenger(channels: seq<Channel>, outs: seq<Outcome>, id: string)
    requires |outs| == |channels|
  {
    || (id == "" && forall i :: 0 <= i < |channels| ==> !channels[i].kind.Messenger?)
    || (exists i :: 0 <= i < |channels| && channels[i].kind.Messenger? && outs[i].primary == Some(id) && id != ""
          && forall j :: i < j < |channels| ==> !channels[j].kind.Messenger?)
  }

  lemma LastMessengerStays(channels: seq<Channel>, outs: seq<Outcome>, id: string)
    requires |outs| == |channels| > 0 && !channels[|channels| - 1].kind.Messenger?
    requires LastMessenger(channels[..|channels| - 1], outs[..|channels| - 1], id)
    ensures LastMessenger(channels, outs, id)
  {
    var n := |channels| - 1;
    var cs, os := channels[..n], outs[..n];
    if i :| 0 <= i < n && cs[i].kind.Messenger? && os[i].primary == Some(id) && id != ""
            && forall j :: i < j < n ==> !cs[j].kind.Messenger? {
      forall j | i < j < |channels| ensures !channels[j].kind.Messenger? {
        assert j < n ==> channels[j] == cs[j];
      }
      assert channels[i] == cs[i] && outs[i] == os[i];
    } else {
      forall j | 0 <= j < |channels| ensures !channels[j].kind.Messenger? {
        assert j < n ==> channels[j] == cs[j];
      }
    }
  }

  lemma PrimaryNext(channels: seq<Channel>, outs: seq<Outcome>)
    requires |outs| == |channels| > 0
    ensures var n := |channels| - 1;
            var before := PrimaryId(channels[..n], outs[..n]);
      && (before.None? ==> PrimaryId(channels, outs).None?)
      && (before.Some? && !channels[n].kind.Messenger? ==> PrimaryId(channels, outs) == before)
      && (before.Some? && channels[n].kind.Messenger? ==>
            PrimaryId(channels, outs) == if PrimarySent(channels[n], outs[n]) then outs[n].primary else None)
      && (PrimarySent(channels[n], outs[n]) ==> outs[n].primary.Some? && outs[n].primary.value != "")
  {
    hide IsInt64;
  }

  lemma {:induction false} PrimaryFails(channels: seq<Channel>, outs: seq<Outcome>, i: nat)
    requires |outs| == |channels| && i <= |channels|
    requires PrimaryId(channels[..i], outs[..i]) == None
    ensures PrimaryId(channels, outs) == None
  {
    if i < |channels| {
      var n := |channels| - 1;
      assert channels[..n][..i] == channels[..i] && outs[..n][..i] == outs[..i];
      PrimaryFails(channels[..n], outs[..n], i);
    } else {
      assert channels[..i] == channels && outs[..i] == outs;
    }
  }

  // ---------------------------------------------------------------- what every run of calls keeps

  datatype Call =
    | SendCall(channels: seq<Channel>, outs: seq<Outcome>, text: string)
    | EditCall(channels: seq<Channel>, outs: seq<Outcome>, primary: string, text: string)

  ghost predicate CallOk(call: Call) {
    |call.outs| == |call.channels|
  }

  function AfterCall(s: State, call: Call, window: int): (r: State)
    requires CallOk(call)
  {
    match call
    case SendCall(channels, outs, text) => AfterSend(s, channels, outs, text)
    case EditCall(channels, outs, primary, text) => AfterEdit(s, channels, outs, primary, text, window)
  }

  function AfterCalls(calls: seq<Call>, window: int): (r: State)
    requires forall i :: 0 <= i < |calls| ==> CallOk(calls[i])
  {
    if calls == [] then EMPTY else AfterCall(AfterCalls(calls[..|calls| - 1], window), calls[|calls| - 1], window)
  }

  /** No address of the platform is another one behind a bar. */
  ghost predicate Apart(channels: iset<string>) {
    forall c, d, x :: c in channels && d in channels ==> c != x + "|" + d
  }

  /** Legs over such addresses never share a key, whatever the primary ids are. */
  lemma KeyInjective(channels: iset<string>, a: Leg, b: Leg)
    requires Apart(channels) && a.channel in channels && b.channel in channels
    ensures Key(a) == Key(b) <==> a == b
  {
    assert "|" == ['|'];
    JoinsMeetIff(a.primary, a.channel, b.primary, b.channel, '|');
  }

  /** And over no others. */
  lemma KeysMeet(c: string, d: string, x: string, primary: string)
    requires c == x + "|" + d
    ensures Key(Leg(primary + "|" + x, d)) == Key(Leg(primary, c)) && c != d
  {
    assert primary + "|" + x + "|" + d == primary + "|" + (x + "|" + d);
    assert |c| > |d|;
  }

  /** The recorded mirror of a leg names the message that carries the last text delivered on it. */
  ghost predicate NamesLastText(side: Side, leg: Leg) {
    Key(leg) in side.edits ==>
      var id := side.edits[Key(leg)].id;
      && id in side.chat.messages
      && leg in side.said
      && side.chat.messages[id] == Message(leg.channel, side.said[leg])
  }

  /** No message mirrors two legs. */
  ghost predicate OwnMirror(side: Side, a: Leg, b: Leg) {
    Key(a) in side.edits && Key(b) in side.edits && side.edits[Key(a)].id == side.edits[Key(b)].id ==> a == b
  }

  ghost predicate SideOk(side: Side, channels: iset<string>) {
    && (forall id :: id in side.chat.messages ==> id < side.chat.next)
    && (forall leg: Leg :: leg.channel in channels ==> NamesLastText(side, leg))
    && (forall a: Leg, b: Leg :: a.channel in channels && b.channel in channels ==> OwnMirror(side, a, b))
  }

  lemma MirroredKeepsOk(side: Side, leg: Leg, text: string, o: Outcome, channels: iset<string>)
    requires Apart(channels) && SideOk(side, channels) && leg.channel in channels
    ensures SideOk(Mirrored(side, leg, text, o), channels)
  {
    hide Key, Apart;
    if o.sends {
      var side' := Mirrored(side, leg, text, o);
      forall a: Leg | a.channel in channels ensures NamesLastText(side', a) {
        KeyInjective(channels, a, leg);
        assert NamesLastText(side, a);
      }
      forall a: Leg, b: Leg | a.channel in channels && b.channel in channels ensures OwnMirror(side', a, b) {
        KeyInjective(channels, a, leg);
        KeyInjective(channels, b, leg);
        assert OwnMirror(side, a, b) && NamesLastText(side, a) && NamesLastText(side, b);
      }
    }
  }

  lemma StrayKeepsOk(side: Side, channel: string, text: string, o: Outcome, channels: iset<string>)
    requires SideOk(side, channels)
    ensures SideOk(Stray(side, channel, text, o), channels)
  {
    hide Key;
    var side' := Stray(side, channel, text, o);
    forall a: Leg | a.channel in channels ensures NamesLastText(side', a) {
      assert NamesLastText(side, a);
    }
    forall a: Leg, b: Leg | a.channel in channels && b.channel in channels ensures OwnMirror(side', a, b) {
      assert OwnMirror(side, a, b);
    }
  }

  lemma ReEditedKeepsOk(side: Side, leg: Leg, text: string, o: Outcome, window: Option<int>, channels: iset<string>)
    requires Apart(channels) && SideOk(side, channels) && leg.channel in channels
    ensures SideOk(ReEdited(side, leg, text, o, window), channels)
  {
    var side' := ReEdited(side, leg, text, o, window);
    if side' == Mirrored(side, leg, text, o) {
      MirroredKeepsOk(side, leg, text, o, channels);
    } else {
      hide Key, Apart, Mirrored;
      forall a: Leg | a.channel in channels ensures NamesLastText(side', a) {
        KeyInjective(channels, a, leg);
        assert NamesLastText(side, a) && OwnMirror(side, a, leg);
      }
      forall a: Leg, b: Leg | a.channel in channels && b.channel in channels ensures OwnMirror(side', a, b) {
        assert OwnMirror(side, a, b);
      }
    }
  }

  /** The WhatsApp channels of a route are among `wa`, its Discord channels among `dc`. */
  ghost predicate Over(channels: seq<Channel>, wa: iset<string>, dc: iset<string>) {
    forall i :: 0 <= i < |channels| ==>
      && (channels[i].kind.WhatsApp? ==> channels[i].address in wa)
      && (channels[i].kind.Discord? ==> channels[i].address in dc)
  }

  ghost predicate StateOk(s: State, wa: iset<string>, dc: iset<string>) {
    SideOk(s.wa, wa) && SideOk(s.dc, dc)
  }

  lemma SendLegKeepsOk(s: State, ch: Channel, o: Outcome, primary: string, text: string, wa: iset<string>,
                       dc: iset<string>)
    requires Apart(wa) && Apart(dc) && StateOk(s, wa, dc) && Over([ch], wa, dc)
    ensures StateOk(SendLeg(s, ch, o, primary, text), wa, dc)
  {
    hide Apart, SideOk, Mirrored, Stray;
    assert [ch][0] == ch;
    var leg := Leg(primary, ch.address);
    if ch.kind.WhatsApp? {
      MirroredKeepsOk(s.wa, leg, text, o, wa);
      StrayKeepsOk(s.wa, leg.channel, text, o, wa);
    } else if ch.kind.Discord? {
      MirroredKeepsOk(s.dc, leg, text, o, dc);
      StrayKeepsOk(s.dc, leg.channel, text, o, dc);
    }
  }

  lemma {:induction false} SendKeepsOk(s: State, channels: seq<Channel>, outs: seq<Outcome>, primary: string,
                                       text: string, wa: iset<string>, dc: iset<string>)
    requires Apart(wa) && Apart(dc) && StateOk(s, wa, dc) && |outs| == |channels| && Over(channels, wa, dc)
    ensures StateOk(SendLegs(s, channels, outs, primary, text), wa, dc)
  {
    hide Apart, StateOk, SendLeg;
    if channels != [] {
      var n := |channels| - 1;
      SendKeepsOk(s, channels[..n], outs[..n], primary, text, wa, dc);
      SendLegKeepsOk(SendLegs(s, channels[..n], outs[..n], primary, text), channels[n], outs[n], primary, text, wa, dc);
    }
  }

  lemma EditLegKeepsOk(s: State, ch: Channel, o: Outcome, primary: string, text: string, window: int,
                       wa: iset<string>, dc: iset<string>)
    requires Apart(wa) && Apart(dc) && StateOk(s, wa, dc) && Over([ch], wa, dc)
    ensures StateOk(EditLeg(s, ch, o, primary, text, window), wa, dc)
  {
    hide Apart, SideOk, ReEdited;
    assert [ch][0] == ch;
    var leg := Leg(primary, ch.address);
    if ch.kind.WhatsApp? {
      ReEditedKeepsOk(s.wa, leg, text, o, Some(window), wa);
    } else if ch.kind.Discord? {
      ReEditedKeepsOk(s.dc, leg, text, o, None, dc);
    }
  }

  lemma {:induction false} EditKeepsOk(s: State, channels: seq<Channel>, outs: seq<Outcome>, primary: string,
                                       text: string, window: int, wa: iset<string>, dc: iset<string>)
    requires Apart(wa) && Apart(dc) && StateOk(s, wa, dc) && |outs| == |channels| && Over(channels, wa, dc)
    ensures StateOk(EditLegs(s, channels, outs, primary, text, window), wa, dc)
  {
    hide Apart, StateOk, EditLeg;
    if channels != [] {
      var n := |channels| - 1;
      EditKeepsOk(s, channels[..n], outs[..n], primary, text, window, wa, dc);
      EditLegKeepsOk(EditLegs(s, channels[..n], outs[..n], primary, text, window), channels[n], outs[n], primary, text,
                     window, wa, dc);
    }
  }

  /** A history of calls over these addresses. */
  ghost predicate History(calls: seq<Call>, wa: iset<string>, dc: iset<string>) {
    forall i :: 0 <= i < |calls| ==> CallOk(calls[i]) && Over(calls[i].channels, wa, dc)
  }

  /** After any sequence of sends and edits, with any failures, windows missed and records pruned, every recorded
      mirror names the message carrying the last text delivered on its leg, and no message mirrors two legs. */
  lemma {:induction false} CallsKeepOk(calls: seq<Call>, window: int, wa: iset<string>, dc: iset<string>)
    requires Apart(wa) && Apart(dc) && History(calls, wa, dc)
    ensures StateOk(AfterCalls(calls, window), wa, dc)
  {
    hide Apart;
    if calls != [] {
      var last := calls[|calls| - 1];
      var before := AfterCalls(calls[..|calls| - 1], window);
      CallsKeepOk(calls[..|calls| - 1], window, wa, dc);
      hide StateOk, SendLegs, EditLegs, PrimaryId, EditReach;
      match last
      case SendCall(channels, outs, text) =>
        if PrimaryId(channels, outs).Some? {
          SendKeepsOk(before, channels, outs, PrimaryId(channels, outs).value, text, wa, dc);
        }
      case EditCall(channels, outs, primary, text) =>
        var n := EditReach(channels, outs);
        EditKeepsOk(before, channels[..n], outs[..n], primary, text, window, wa, dc);
    }
  }

  // ---------------------------------------------------------------- exactly when

  /** An edit of one channel that mirrors it afresh. */
  function Afresh(kind: Kind, address: string, primary: string, text: string): Call {
    EditCall([Channel(kind, address)], [Outcome(0, None, true, false)], primary, text)
  }

  function SideOf(s: State, kind: Kind): Side
    requires kind.WhatsApp? || kind.Discord?
  {
    if kind.WhatsApp? then s.wa else s.dc
  }

  lemma AfreshMirrors(s: State, kind: Kind, address: string, primary: string, text: string, window: int)
    requires kind.WhatsApp? || kind.Discord?
    ensures var call := Afresh(kind, address, primary, text);
      SideOf(AfterCall(s, call, window), kind) ==
        Mirrored(SideOf(s, kind), Leg(primary, address), text, Outcome(0, None, true, false))
  {
    hide Mirrored, Key, Editable;
    var ch, o := Channel(kind, address), Outcome(0, None, true, false);
    assert [ch][1..] == [] && [o][1..] == [] && [ch][..1] == [ch] && [o][..1] == [o];
    assert [ch][..0] == [] && [o][..0] == [];
    assert EditReach([ch], [o]) == 1;
    assert EditLegs(s, [ch], [o], primary, text, window) == EditLeg(s, ch, o, primary, text, window);
  }

  /** Where one address is another one behind a bar, two edits with primaries to match leave a record that names the
      other leg's message. */
  lemma BarredAddressBreaks(kind: Kind, c: string, d: string, x: string, window: int)
    requires (kind.WhatsApp? || kind.Discord?) && c == x + "|" + d
    ensures var calls := [Afresh(kind, d, "|" + x, "first"), Afresh(kind, c, "", "second")];
      !NamesLastText(SideOf(AfterCalls(calls, window), kind), Leg("|" + x, d))
  {
    var one, two := Afresh(kind, d, "|" + x, "first"), Afresh(kind, c, "", "second");
    AfterTwo(one, two, window);
    AfreshMirrors(EMPTY, kind, d, "|" + x, "first", window);
    AfreshMirrors(AfterCall(EMPTY, one, window), kind, c, "", "second", window);
    KeysMeet(c, d, x, "");
    assert "" + "|" + x == "|" + x;
    TwoMirrors(Leg("|" + x, d), Leg("", c), SideOf(EMPTY, kind));
  }

  lemma AfterTwo(one: Call, two: Call, window: int)
    requires CallOk(one) && CallOk(two)
    ensures AfterCalls([one, two], window) == AfterCall(AfterCall(EMPTY, one, window), two, window)
  {
    hide AfterCall;
    assert [one, two][..1] == [one] && [one][..0] == [];
    assert AfterCalls([one], window) == AfterCall(AfterCalls([], window), one, window);
  }

  lemma TwoMirrors(a: Leg, b: Leg, side: Side)
    requires Key(a) == Key(b) && a.channel != b.channel
    requires side == EMPTY.wa
    ensures var o := Outcome(0, None, true, false);
      !NamesLastText(Mirrored(Mirrored(side, a, "first", o), b, "second", o), a)
  {
    hide Key;
    var o := Outcome(0, None, true, false);
    var one := Mirrored(side, a, "first", o);
    assert one.chat.next == 1 && one.edits == map[Key(a) := Mirror(0, 0)];
    var two := Mirrored(one, b, "second", o);
    assert two.edits[Key(a)] == Mirror(1, 0) && two.chat.messages[1] == Message(b.channel, "second");
  }

  /** The records stay right over every history of calls exactly when no address of a platform is another address of it
      behind a bar. */
  lemma RecordsRightIff(wa: iset<string>, dc: iset<string>, window: int)
    ensures (forall calls :: History(calls, wa, dc) ==> StateOk(AfterCalls(calls, window), wa, dc))
      <==> Apart(wa) && Apart(dc)
  {
    hide StateOk, AfterCalls;
    if Apart(wa) && Apart(dc) {
      forall calls | History(calls, wa, dc) ensures StateOk(AfterCalls(calls, window), wa, dc) {
        CallsKeepOk(calls, window, wa, dc);
      }
    } else {
      var kind, addresses := if Apart(wa) then Discord else WhatsApp, if Apart(wa) then dc else wa;
      var c, d, x :| c in addresses && d in addresses && c == x + "|" + d;
      BarredHistory(kind, c, d, x, window, wa, dc);
    }
  }

  lemma BarredHistory(kind: Kind, c: string, d: string, x: string, window: int, wa: iset<string>, dc: iset<string>)
    requires (kind.WhatsApp? && c in wa && d in wa) || (kind.Discord? && c in dc && d in dc)
    requires c == x + "|" + d
    ensures exists calls :: History(calls, wa, dc) && !StateOk(AfterCalls(calls, window), wa, dc)
  {
    hide AfterCalls, NamesLastText, OwnMirror;
    var calls := [Afresh(kind, d, "|" + x, "first"), Afresh(kind, c, "", "second")];
    BarredAddressBreaks(kind, c, d, x, window);
    assert History(calls, wa, dc);
    assert Leg("|" + x, d).channel == d;
  }

  /** An edit of one leg either leaves everything as it was, or the leg's recorded mirror carries the new text: in the
      same message if the platform took the edit in time, else in a new one. Other legs keep or lose their record,
      and never see another text. */
  lemma EditReachesMirror(side: Side, leg: Leg, text: string, o: Outcome, window: Option<int>, channels: iset<string>)
    requires Apart(channels) && SideOk(side, channels) && leg.channel in channels
    ensures var side', key := ReEdited(side, leg, text, o, window), Key(leg);
            var inPlace := key in side.edits && (window.Some? ==> o.now - side.edits[key].at <= window.value)
              && o.edits;
            && (!inPlace && !o.sends ==> side' == side)
            && (inPlace || o.sends ==>
                  && key in side'.edits
                  && side'.edits[key].id in side'.chat.messages
                  && side'.chat.messages[side'.edits[key].id] == Message(leg.channel, text)
                  && (inPlace <==> side'.edits == side.edits && side'.chat.next == side.chat.next))
    ensures forall other: Leg :: other.channel in channels && other != leg ==>
      KeepsMirror(side, ReEdited(side, leg, text, o, window), other)
  {
    hide Key, Apart;
    var side' := ReEdited(side, leg, text, o, window);
    assert NamesLastText(side, leg);
    forall other: Leg | other.channel in channels && other != leg ensures KeepsMirror(side, side', other) {
      KeyInjective(channels, other, leg);
      assert NamesLastText(side, other) && OwnMirror(side, other, leg);
    }
  }

  /** A record that is left is the one that was there, and its message still says the same. */
  ghost predicate KeepsMirror(side: Side, side': Side, leg: Leg) {
    Key(leg) in side'.edits ==>
      && Key(leg) in side.edits && side'.edits[Key(leg)] == side.edits[Key(leg)]
      && var id := side.edits[Key(leg)].id;
         id in side.chat.messages && id in side'.chat.messages && side'.chat.messages[id] == side.chat.messages[id]
  }
}
