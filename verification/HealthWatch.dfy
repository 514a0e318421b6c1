/** The health watch of one platform (internal/bridge/healthwatch.go): checkHealth advances a small state machine on
    every poll and says which notification to send. Clock readings are the integer `now` of each poll; the zero
    time is None. */
module HealthWatch {
  import opened Options

  /** One poll: the time, whether the platform is connected, and whether it is a logged-out WhatsApp. */
  datatype Poll = Poll(now: int, alive: bool, loggedOut: bool)

  datatype Message = DeadMessage(loggedOut: bool) | AliveMessage

  datatype Note = Note(at: int, msg: Message)

  datatype Limits = Limits(deadAfter: int, minNotify: int)

  datatype State = State(armed: bool, deadSince: Option<int>, lastDead: bool, alivePending: bool,
                         lastNotify: Option<int>)

  const BOOT := State(false, None, false, false, None)

  // ---------------------------------------------------------------- one poll

  predicate Elapsed(since: Option<int>, now: int, atLeast: int) {
    since.None? || now - since.value >= atLeast
  }

  /** The state a poll meets once arming is settled; None if it stays unarmed or has just been armed by a connect. */
  function Arm(st: State, p: Poll): (r: (State, bool)) {
    if st.armed then (st, true)
    else if p.alive then (st.(armed := true), false)
    else if p.loggedOut then (st.(armed := true), true)
    else (st, false)
  }

  function StepAlive(lim: Limits, st: State, now: int): (r: (State, Option<Message>)) {
    var st := st.(deadSince := None);
    if !st.lastDead && !st.alivePending then (st, None)
    else if Elapsed(st.lastNotify, now, lim.minNotify) then
      (st.(lastDead := false, alivePending := false, lastNotify := Some(now)), Some(AliveMessage))
    else (st.(alivePending := true), None)
  }

  function StepDead(lim: Limits, st: State, p: Poll): (r: (State, Option<Message>)) {
    var since := if st.deadSince.None? then p.now else st.deadSince.value;
    var st := st.(deadSince := Some(since));
    if !st.lastDead && p.now - since >= lim.deadAfter && Elapsed(st.lastNotify, p.now, lim.minNotify) then
      (st.(lastDead := true, lastNotify := Some(p.now)), Some(DeadMessage(p.loggedOut)))
    else (st, None)
  }

  function Step(lim: Limits, st: State, p: Poll): (r: (State, Option<Message>)) {
    var (armed, goOn) := Arm(st, p);
    if !goOn then (armed, None)
    else if p.alive then StepAlive(lim, armed, p.now)
    else StepDead(lim, armed, p)
  }

  /** healthState, whose fields checkHealth updates. */
  class HealthState {
    var armed: bool
    var deadSince: Option<int>
    var lastDead: bool
    var alivePending: bool
    var lastNotify: Option<int>

    ghost function Value(): (r: State)
      reads this
    {
      State(armed, deadSince, lastDead, alivePending, lastNotify)
    }

    constructor ()
      ensures Value() == BOOT
    {
      armed, deadSince, lastDead, alivePending, lastNotify := false, None, false, false, None;
    }

    method CheckHealth(lim: Limits, p: Poll) returns (msg: Option<Message>)
      modifies this
      ensures (Value(), msg) == Step(lim, old(Value()), p)
    {
      if !armed {
        if p.alive {
          armed := true;
          return None;
        }
        if p.loggedOut {
          armed := true;
        } else {
          return None;
        }
      }
      if p.alive {
        deadSince := None;
        if lastDead || alivePending {
          if lastNotify.None? || p.now - lastNotify.value >= lim.minNotify {
            lastDead := false;
            alivePending := false;
            lastNotify := Some(p.now);
            return Some(AliveMessage);
          }
          alivePending := true;
          return None;
        }
        return None;
      }
      if deadSince.None? {
        deadSince := Some(p.now);
      }
      if !lastDead && p.now - deadSince.value >= lim.deadAfter
        && (lastNotify.None? || p.now - lastNotify.value >= lim.minNotify) {
        lastDead := true;
        lastNotify := Some(p.now);
        return Some(DeadMessage(p.loggedOut));
      }
      return None;
    }
  }

  // ---------------------------------------------------------------- whole runs

  function Run(lim: Limits, polls: seq<Poll>): (r: State) {
    if polls == [] then BOOT else Step(lim, Run(lim, polls[..|polls| - 1]), polls[|polls| - 1]).0
  }

  /** What the last poll of the run sends. */
  function Emitted(lim: Limits, polls: seq<Poll>): (r: Option<Message>)
    requires polls != []
  {
    Step(lim, Run(lim, polls[..|polls| - 1]), polls[|polls| - 1]).1
  }

  /** Everything sent during the run, oldest first. */
  function Sent(lim: Limits, polls: seq<Poll>): (r: seq<Note>) {
    if polls == [] then []
    else
      Sent(lim, polls[..|polls| - 1]) +
      match Emitted(lim, polls)
      case None => []
      case Some(msg) => [Note(polls[|polls| - 1].now, msg)]
  }

  /** The loop of watchHealth for one platform. */
  method WatchHealth(lim: Limits, polls: seq<Poll>) returns (sent: seq<Note>)
    ensures sent == Sent(lim, polls)
  {
    var st := new HealthState();
    sent := [];
    for i := 0 to |polls|
      invariant fresh(st)
      invariant st.Value() == Run(lim, polls[..i])
      invariant sent == Sent(lim, polls[..i])
    {
      assert polls[..i + 1][..i] == polls[..i];
      var msg := st.CheckHealth(lim, polls[i]);
      if msg.Some? {
        sent := sent + [Note(polls[i].now, msg.value)];
      }
    }
    assert polls[..|polls|] == polls;
  }

  // ---------------------------------------------------------------- what the polls say, without the state machine

  predicate Ordered(polls: seq<Poll>) {
    forall i, j :: 0 <= i <= j < |polls| ==> polls[i].now <= polls[j].now
  }

  /** Some poll up to `n` connected, or found WhatsApp logged out. */
  predicate ArmedBy(polls: seq<Poll>, n: nat) {
    exists k :: 0 <= k < n && k < |polls| && (polls[k].alive || polls[k].loggedOut)
  }

  /** Armed and not alive from poll `i` to the last one. */
  predicate DownFrom(polls: seq<Poll>, i: int) {
    && 0 <= i < |polls|
    && ArmedBy(polls, i + 1)
    && forall k :: i <= k < |polls| ==> !polls[k].alive
  }

  /** An unbroken armed stretch of not-alive polls, up to the last poll, spans deadAfter. */
  ghost predicate DownLongEnough(lim: Limits, polls: seq<Poll>) {
    exists i :: DownFrom(polls, i) && polls[|polls| - 1].now - polls[i].now >= lim.deadAfter
  }

  /** The last notification announced a death that no alive notification has followed. */
  predicate AliveOwed(sent: seq<Note>) {
    sent != [] && sent[|sent| - 1].msg.DeadMessage?
  }

  predicate Cooled(lim: Limits, sent: seq<Note>, now: int) {
    sent == [] || now - sent[|sent| - 1].at >= lim.minNotify
  }

  /** How the state remembers the run. */
  ghost predicate Remembers(polls: seq<Poll>, sent: seq<Note>, st: State) {
    && (st.armed <==> ArmedBy(polls, |polls|))
    && (st.lastDead <==> AliveOwed(sent))
    && (st.alivePending ==> st.lastDead)
    && st.lastNotify == (if sent == [] then None else Some(sent[|sent| - 1].at))
    && (!st.armed ==> sent == [])
    && RemembersSince(polls, st.deadSince)
  }

  /** The remembered time is that of the first not-alive poll of the current armed stretch. */
  ghost predicate RemembersSince(polls: seq<Poll>, since: Option<int>) {
    && (since.Some? ==> exists i :: DownFrom(polls, i) && polls[i].now == since.value)
    && (forall i :: DownFrom(polls, i) ==> since.Some? && since.value <= polls[i].now)
  }

  lemma ArmedByAdd(polls: seq<Poll>, p: Poll, n: nat)
    requires n <= |polls|
    ensures ArmedBy(polls + [p], n) <==> ArmedBy(polls, n)
    ensures ArmedBy(polls + [p], |polls| + 1) <==> ArmedBy(polls, |polls|) || p.alive || p.loggedOut
  {
    var ps := polls + [p];
    assert ps[|polls|] == p;
    assert forall k :: 0 <= k < |polls| ==> ps[k] == polls[k];
    if p.alive || p.loggedOut {
      assert ps[|polls|].alive || ps[|polls|].loggedOut;
    }
    if k :| 0 <= k < |polls| && (polls[k].alive || polls[k].loggedOut) {
      assert ps[k].alive || ps[k].loggedOut;
    }
  }

  lemma DownFromAdd(polls: seq<Poll>, p: Poll, i: int)
    ensures DownFrom(polls + [p], i)
       <==> !p.alive && (DownFrom(polls, i) || (i == |polls| && (ArmedBy(polls, |polls|) || p.loggedOut)))
  {
    var ps := polls + [p];
    assert ps[|polls|] == p;
    assert forall k :: 0 <= k < |polls| ==> ps[k] == polls[k];
    if 0 <= i <= |polls| {
      ArmedByAdd(polls, p, if i < |polls| then i + 1 else |polls|);
      hide ArmedBy;
    }
  }

  function After(sent: seq<Note>, now: int, msg: Option<Message>): (r: seq<Note>) {
    sent + match msg case None => [] case Some(m) => [Note(now, m)]
  }

  function NextSince(since: Option<int>, armed: bool, p: Poll): (r: Option<int>) {
    if p.alive then None else if armed && since.None? then Some(p.now) else since
  }

  lemma SinceAdd(polls: seq<Poll>, p: Poll, since: Option<int>)
    requires Ordered(polls + [p]) && RemembersSince(polls, since)
    ensures RemembersSince(polls + [p], NextSince(since, ArmedBy(polls, |polls|) || p.loggedOut, p))
  {
    var ps := polls + [p];
    assert ps[|polls|] == p && forall k :: 0 <= k < |polls| ==> ps[k] == polls[k];
    forall i ensures DownFrom(ps, i)
       <==> !p.alive && (DownFrom(polls, i) || (i == |polls| && (ArmedBy(polls, |polls|) || p.loggedOut)))
    {
      DownFromAdd(polls, p, i);
    }
    assert forall i :: DownFrom(polls, i) ==> 0 <= i < |polls|;
    hide ArmedBy, DownFrom;
    if !p.alive && since.Some? {
      var i :| DownFrom(polls, i) && polls[i].now == since.value;
      assert DownFrom(ps, i) && ps[i].now == since.value;
    }
  }

  lemma LongEnoughIffSince(lim: Limits, polls: seq<Poll>, since: Option<int>)
    requires polls != [] && RemembersSince(polls, since)
    ensures DownLongEnough(lim, polls) <==> since.Some? && polls[|polls| - 1].now - since.value >= lim.deadAfter
  {
    hide DownFrom;
  }

  lemma SinceMeansArmed(polls: seq<Poll>, since: Option<int>)
    requires RemembersSince(polls, since) && since.Some?
    ensures ArmedBy(polls, |polls|)
  {
    var i :| DownFrom(polls, i) && polls[i].now == since.value;
  }

  /** A step, by cases of the memory. */
  lemma StepCases(lim: Limits, st: State, p: Poll)
    requires st.alivePending ==> st.lastDead
    requires !st.armed ==> st.deadSince.None? && !st.lastDead
    ensures var (next, msg) := Step(lim, st, p);
            var cool := Elapsed(st.lastNotify, p.now, lim.minNotify);
            var since := NextSince(st.deadSince, st.armed || p.loggedOut, p);
            && (next.armed <==> st.armed || p.alive || p.loggedOut)
            && next.deadSince == since
            && msg == (if p.alive && st.lastDead && cool then Some(AliveMessage)
                       else if since.Some? && p.now - since.value >= lim.deadAfter && !st.lastDead && cool then
                         Some(DeadMessage(p.loggedOut))
                       else None)
            && next.lastDead == (match msg case None => st.lastDead case Some(m) => m.DeadMessage?)
            && next.lastNotify == (if msg.Some? then Some(p.now) else st.lastNotify)
            && (next.alivePending ==> next.lastDead)
  {
  }

  lemma AfterRemembered(sent: seq<Note>, now: int, msg: Option<Message>)
    ensures msg.None? ==> After(sent, now, msg) == sent
    ensures msg.Some? ==>
      var after := After(sent, now, msg);
      after != [] && after[|after| - 1] == Note(now, msg.value)
  {
  }

  /** One poll keeps the memory, and sends exactly what the history calls for. */
  lemma StepRemembers(lim: Limits, polls: seq<Poll>, sent: seq<Note>, st: State, p: Poll)
    requires Ordered(polls + [p]) && Remembers(polls, sent, st)
    ensures Remembers(polls + [p], After(sent, p.now, Step(lim, st, p).1), Step(lim, st, p).0)
    ensures Step(lim, st, p).1 ==
      if p.alive && AliveOwed(sent) && Cooled(lim, sent, p.now) then Some(AliveMessage)
      else if DownLongEnough(lim, polls + [p]) && !AliveOwed(sent) && Cooled(lim, sent, p.now) then
        Some(DeadMessage(p.loggedOut))
      else None
  {
    RemembersMore(polls, sent, st);
    hide Step, After, ArmedBy, DownFrom, RemembersSince, DownLongEnough, Ordered;
    ArmedByAdd(polls, p, |polls|);
    SinceAdd(polls, p, st.deadSince);
    var since := NextSince(st.deadSince, ArmedBy(polls, |polls|) || p.loggedOut, p);
    LongEnoughIffSince(lim, polls + [p], since);
    StepCases(lim, st, p);
    AfterRemembered(sent, p.now, Step(lim, st, p).1);
    assert (polls + [p])[|polls|] == p;
  }

  lemma RemembersMore(polls: seq<Poll>, sent: seq<Note>, st: State)
    requires Remembers(polls, sent, st)
    ensures st.deadSince.Some? ==> st.armed
  {
    hide ArmedBy, DownFrom, RemembersSince;
    if st.deadSince.Some? {
      SinceMeansArmed(polls, st.deadSince);
    }
  }

  lemma {:induction false} RunRemembers(lim: Limits, polls: seq<Poll>)
    requires Ordered(polls)
    ensures Remembers(polls, Sent(lim, polls), Run(lim, polls))
  {
    if polls != [] {
      var n := |polls| - 1;
      assert polls[..n] + [polls[n]] == polls;
      RunRemembers(lim, polls[..n]);
      hide Step, Remembers, Ordered;
      StepRemembers(lim, polls[..n], Sent(lim, polls[..n]), Run(lim, polls[..n]), polls[n]);
    }
  }

  // ---------------------------------------------------------------- guarantees

  /** What a run calls for at its last poll: "alive" when a death was announced last and the cooldown is over; "dead"
      when an armed, unbroken outage has lasted deadAfter, no death is announced already and the cooldown is over. */
  ghost function Called(lim: Limits, polls: seq<Poll>, before: seq<Note>): (r: Option<Message>)
    requires polls != []
  {
    var p := polls[|polls| - 1];
    if p.alive && AliveOwed(before) && Cooled(lim, before, p.now) then Some(AliveMessage)
    else if DownLongEnough(lim, polls) && !AliveOwed(before) && Cooled(lim, before, p.now) then
      Some(DeadMessage(p.loggedOut))
    else None
  }

  /** The machine sends exactly what the run calls for. */
  lemma EmittedIsCalled(lim: Limits, polls: seq<Poll>)
    requires polls != [] && Ordered(polls)
    ensures Emitted(lim, polls) == Called(lim, polls, Sent(lim, polls[..|polls| - 1]))
  {
    var n := |polls| - 1;
    assert polls[..n] + [polls[n]] == polls;
    RunRemembers(lim, polls[..n]);
    hide Step, Remembers, Sent, DownLongEnough, AliveOwed, Cooled;
    StepRemembers(lim, polls[..n], Sent(lim, polls[..n]), Run(lim, polls[..n]), polls[n]);
  }

  lemma SentNext(lim: Limits, polls: seq<Poll>, n: nat)
    requires n < |polls| && Ordered(polls)
    ensures Sent(lim, polls[..n + 1]) ==
      After(Sent(lim, polls[..n]), polls[n].now, Called(lim, polls[..n + 1], Sent(lim, polls[..n])))
  {
    assert polls[..n + 1][..n] == polls[..n];
    EmittedIsCalled(lim, polls[..n + 1]);
    hide Emitted, Called;
  }

  predicate Alternates(sent: seq<Note>) {
    forall i :: 0 <= i < |sent| ==> (sent[i].msg.DeadMessage? <==> i % 2 == 0)
  }

  predicate Spaced(lim: Limits, sent: seq<Note>) {
    forall i :: 0 < i < |sent| ==> sent[i].at - sent[i - 1].at >= lim.minNotify
  }

  lemma CalledKeepsOrder(lim: Limits, polls: seq<Poll>, before: seq<Note>)
    requires polls != [] && Alternates(before) && Spaced(lim, before)
    ensures Alternates(After(before, polls[|polls| - 1].now, Called(lim, polls, before)))
    ensures Spaced(lim, After(before, polls[|polls| - 1].now, Called(lim, polls, before)))
  {
    hide DownLongEnough;
  }

  /** Notifications alternate, starting with a death, and lie at least minNotify apart. */
  lemma {:induction false} SentAlternatesSpaced(lim: Limits, polls: seq<Poll>)
    requires Ordered(polls)
    ensures Alternates(Sent(lim, polls)) && Spaced(lim, Sent(lim, polls))
  {
    if polls != [] {
      var n := |polls| - 1;
      SentAlternatesSpaced(lim, polls[..n]);
      SentNext(lim, polls, n);
      assert polls[..n + 1] == polls;
      hide Sent, Called, Alternates, Spaced, Ordered, After;
      CalledKeepsOrder(lim, polls, Sent(lim, polls[..n]));
    }
  }

  /** Before the first connection or logged-out report nothing is sent. */
  lemma SilentUntilArmed(lim: Limits, polls: seq<Poll>)
    requires Ordered(polls) && forall k :: 0 <= k < |polls| ==> !polls[k].alive && !polls[k].loggedOut
    ensures Sent(lim, polls) == []
  {
    RunRemembers(lim, polls);
    assert !ArmedBy(polls, |polls|);
  }

  /** A run of polls on which an owed alive notification may not be sent yet sends nothing. */
  lemma {:induction false} OwedWaits(lim: Limits, polls: seq<Poll>, i: nat, j: nat)
    requires i <= j <= |polls| && Ordered(polls)
    requires AliveOwed(Sent(lim, polls[..i]))
    requires var owed := Sent(lim, polls[..i]);
             forall k :: i <= k < j ==> !polls[k].alive || !Cooled(lim, owed, polls[k].now)
    ensures Sent(lim, polls[..j]) == Sent(lim, polls[..i])
  {
    if i < j {
      OwedWaits(lim, polls, i, j - 1);
      SentNext(lim, polls, j - 1);
      hide DownLongEnough, Sent, Cooled, AliveOwed, Ordered;
    }
  }

  /** The first alive poll after the cooldown sends the owed alive notification, however the platform flapped. */
  lemma OwedAliveIsSent(lim: Limits, polls: seq<Poll>, i: nat, j: nat)
    requires i <= j < |polls| && Ordered(polls)
    requires AliveOwed(Sent(lim, polls[..i]))
    requires var owed := Sent(lim, polls[..i]);
             && polls[j].alive && Cooled(lim, owed, polls[j].now)
             && forall k :: i <= k < j ==> !polls[k].alive || !Cooled(lim, owed, polls[k].now)
    ensures Sent(lim, polls[..j + 1]) == Sent(lim, polls[..i]) + [Note(polls[j].now, AliveMessage)]
  {
    OwedWaits(lim, polls, i, j);
    SentNext(lim, polls, j);
    hide DownLongEnough, Sent, Cooled, AliveOwed, Ordered;
  }

  lemma CalledWhileDown(lim: Limits, polls: seq<Poll>, before: seq<Note>)
    requires polls != [] && !polls[|polls| - 1].alive
    ensures var after := After(before, polls[|polls| - 1].now, Called(lim, polls, before));
            && (after == before || AliveOwed(after))
            && (AliveOwed(before) ==> AliveOwed(after))
            && (DownLongEnough(lim, polls) && Cooled(lim, before, polls[|polls| - 1].now) ==> AliveOwed(after))
  {
    hide DownLongEnough, Cooled;
  }

  lemma {:induction false} DownSendsOnlyDeath(lim: Limits, polls: seq<Poll>, i: nat, j: nat)
    requires i <= j <= |polls| && Ordered(polls)
    requires forall k :: i <= k < j ==> !polls[k].alive
    ensures Sent(lim, polls[..j]) == Sent(lim, polls[..i]) || AliveOwed(Sent(lim, polls[..j]))
  {
    if i < j {
      DownSendsOnlyDeath(lim, polls, i, j - 1);
      SentNext(lim, polls, j - 1);
      hide Called, After, AliveOwed, Sent, Ordered;
      CalledWhileDown(lim, polls[..j], Sent(lim, polls[..j - 1]));
    }
  }

  /** An outage that has lasted deadAfter is on record as a death once the cooldown of whatever was sent before it is
      over. */
  lemma OutageIsAnnounced(lim: Limits, polls: seq<Poll>, i: nat)
    requires Ordered(polls) && DownFrom(polls, i)
    requires polls[|polls| - 1].now - polls[i].now >= lim.deadAfter
    requires Cooled(lim, Sent(lim, polls[..i]), polls[|polls| - 1].now)
    ensures AliveOwed(Sent(lim, polls))
  {
    var n := |polls| - 1;
    assert DownLongEnough(lim, polls);
    DownSendsOnlyDeath(lim, polls, i, n);
    SentNext(lim, polls, n);
    assert polls[..n + 1] == polls;
    hide Called, After, AliveOwed, Sent, DownLongEnough, Cooled, Ordered;
    CalledWhileDown(lim, polls, Sent(lim, polls[..n]));
  }
}
