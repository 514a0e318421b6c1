/** What the free-game fan-out guarantees over every run of poller and bridge: answers mean what they say, an item
    reaches a thread at most once, and a marked item is not lost. */
module FanOutGuarantees {
  import opened Text
  import opened DedupeKey
  import opened NeonTables
  import opened NotificationQueue
  import opened DeliveryGuarantees
  import opened PendingDrain
  import opened QueueRows
  import opened FreeGames
  import opened FanOut

  // ---------------------------------------------------------------- what an answer is worth

  ghost predicate HandlersAsked(env: Env, y: System) {
    forall h :: h in y.queue.handlers ==> h in y.requests && y.queue.handlers[h].row == RowOf(env, y.requests[h])
  }

  /** A request answered with success had its key accepted. */
  ghost predicate AnswersTrue(env: Env, y: System) {
    forall h :: h in y.answers ==>
      h in y.requests && (Success(y.answers[h]) ==> RowOf(env, y.requests[h]).dedupeKey in y.queue.accepted)
  }

  lemma HandlerRowsStay(s: State, ev: Event)
    requires Enabled(s, ev)
    ensures var s' := Apply(s, ev);
      && (forall h :: h in s'.handlers && (ev.Arrive? ==> h != ev.h) ==>
          h in s.handlers && s'.handlers[h].row == s.handlers[h].row)
      && (ev.Arrive? ==> ev.h in s'.handlers && s'.handlers[ev.h].row == ev.row)
  {
    hide Inserted, InsertedId, PendingKey, Marked, Deleted, Bumped, BadThread, TrimSpace;
    if DrainEvent(ev) {
      hide Apply;
      DrainEffect(s, ev);
    } else if !HandlerEvent(ev) {
      hide Apply;
      StartStopTables(s, ev);
    }
  }

  /** A request is kept from its arrival on, under the id of its handler. */
  lemma RequestsAfter(env: Env, y: System, m: Move)
    requires CanMove(y, m)
    ensures var ev, y' := QueueStep(env, y, m), Moved(env, y, m);
      if ev.Some? && ev.value.Arrive?
      then var h := ev.value.h;
        h !in y.requests && h in y'.requests && y'.requests == y.requests[h := y'.requests[h]]
        && ev.value.row == RowOf(env, y'.requests[h])
      else y'.requests == y.requests
  {
    hide Apply, Enabled, RowOf, Scoped, TrimSpace, StepAnswer, InsertSeen;
  }

  lemma MoveKeepsAsked(env: Env, y: System, m: Move)
    requires HandlersAsked(env, y) && CanMove(y, m)
    ensures HandlersAsked(env, Moved(env, y, m))
  {
    hide Apply, Enabled, RowOf, Moved, CanMove, QueueStep;
    RequestsAfter(env, y, m);
    var ev := QueueStep(env, y, m);
    if ev.Some? {
      HandlerRowsStay(y.queue, ev.value);
    }
  }

  lemma BridgedAnswers(y: System, ev: Event)
    requires !ev.Arrive? && Enabled(y.queue, ev)
    ensures var y', a := Bridged(y, ev), StepAnswer(y.queue, ev);
      && y'.requests == y.requests && y'.poll == y.poll && y'.posts == y.posts
      && y'.marked == y.marked && y'.seen == y.seen
      && (if a.Some?
          then HandlerEvent(ev) && !ev.SavePlain? && ev.h in y.queue.handlers
            && y'.answers == y.answers[ev.h := a.value]
               && (Success(a.value) ==> y.queue.handlers[ev.h].row.dedupeKey in y'.queue.accepted)
          else y'.answers == y.answers)
  {
    hide Apply, Enabled;
    if StepAnswer(y.queue, ev).Some? {
      AnsweredIsAccepted(y.queue, ev);
    }
  }

  lemma MoveKeepsAnswers(env: Env, y: System, m: Move)
    requires HandlersAsked(env, y) && AnswersTrue(env, y) && CanMove(y, m) && QueueOk(y)
    ensures AnswersTrue(env, Moved(env, y, m))
  {
    hide QueueOk, Enabled, RowOf, Scoped, TrimSpace, Apply, Bridged, StepAnswer;
    MoveKeepsQueue(env, y, m);
    if m.Bridge? {
      BridgedAnswers(y, m.ev);
    }
  }

  // ---------------------------------------------------------------- what the poller knows

  predicate Asked(y: System, item: Item, thread: string) {
    Awaiting(y) && y.poll.value.at.h in y.requests && y.requests[y.poll.value.at.h] == PollerRequest(item, thread)
  }

  /** The poller's place is one of its loops', the threads before it had their keys accepted, and the request it waits
      for is its own. */
  ghost predicate PollTrue(env: Env, y: System) {
    y.poll.Some? ==>
      var p := y.poll.value;
      && p.threads != [] && p.i <= |p.items|
      && (forall i :: 0 <= i < |p.items| ==> TrimSpace(p.items[i].guid) != "")
      && (!p.at.Look? ==> WithinItem(p) && (p.at.Mark? ==> p.j == |p.threads|))
      && (!p.at.Look? ==> forall k :: 0 <= k < p.j ==> KeyOf(env, p.items[p.i].guid, p.threads[k]) in y.queue.accepted)
      && (p.at.Await? ==> Asked(y, p.items[p.i], p.threads[p.j]))
  }

  /** A call the poller counts as a success had its key accepted. */
  ghost predicate PostsTrue(env: Env, y: System) {
    forall p :: p in y.posts && p.ok ==> KeyOf(env, p.guid, p.thread) in y.queue.accepted
  }

  ghost predicate MarkedTrue(env: Env, y: System) {
    forall m, t :: m in y.marked && t in m.1 ==> KeyOf(env, m.0, t) in y.queue.accepted
  }

  lemma PollerRowKey(env: Env, item: Item, thread: string)
    ensures RowOf(env, PollerRequest(item, thread)).dedupeKey == KeyOf(env, item.guid, thread)
  {
    TrimFixed("");
  }

  /** A success heard is worth its key. */
  lemma HeardIsAccepted(env: Env, y: System)
    requires AnswersTrue(env, y) && PollTrue(env, y) && Awaiting(y) && y.poll.value.at.h in y.answers
    ensures var p := y.poll.value;
      Success(y.answers[p.at.h]) ==> KeyOf(env, p.items[p.i].guid, p.threads[p.j]) in y.queue.accepted
  {
    hide RowOf, KeyOf, TrimSpace;
    PollerRowKey(env, y.poll.value.items[y.poll.value.i], y.poll.value.threads[y.poll.value.j]);
  }

  ghost predicate PollerTrue(env: Env, y: System) {
    PollTrue(env, y) && PostsTrue(env, y) && MarkedTrue(env, y)
  }

  lemma PostedKeeps(env: Env, y: System, ok: bool)
    requires PollerTrue(env, y) && Positioned(y) && (PollAt(y, Call) || Awaiting(y))
    requires ok ==>
      KeyOf(env, y.poll.value.items[y.poll.value.i].guid, y.poll.value.threads[y.poll.value.j]) in y.queue.accepted
    ensures PollerTrue(env, Posted(y, ok))
  {
    hide KeyOf, TrimSpace;
  }

  lemma MarkedKeeps(env: Env, y: System, insertFails: bool)
    requires PollerTrue(env, y) && CanMove(y, Marks(insertFails))
    ensures PollerTrue(env, Moved(env, y, Marks(insertFails)))
  {
    hide KeyOf, TrimSpace, InsertSeen;
    var p := y.poll.value;
    forall t | t in p.threads ensures KeyOf(env, p.items[p.i].guid, t) in y.queue.accepted {
      var k :| 0 <= k < |p.threads| && p.threads[k] == t;
    }
  }

  lemma ArrivedKeeps(env: Env, y: System, h: nat, req: Request)
    requires PollerTrue(env, y) && h !in y.queue.handlers && h !in y.requests && TrimSpace(req.key) != ""
    ensures PollerTrue(env, Arrived(env, y, h, req))
    ensures var y' := Arrived(env, y, h, req);
      y'.poll == y.poll && y'.requests == y.requests[h := req] && y'.queue.accepted == y.queue.accepted
  {
    hide KeyOf, TrimSpace, RowOf;
  }

  lemma BridgedKeeps(env: Env, y: System, ev: Event)
    requires PollerTrue(env, y) && !ev.Arrive? && Enabled(y.queue, ev)
    requires y.queue.accepted <= Apply(y.queue, ev).accepted
    ensures PollerTrue(env, Bridged(y, ev))
  {
    hide KeyOf, TrimSpace, Apply, Enabled, Bridged;
    BridgedAnswers(y, ev);
    assert Bridged(y, ev).queue == Apply(y.queue, ev) by { BridgedQueue(y, ev); }
  }

  lemma BridgedQueue(y: System, ev: Event)
    requires !ev.Arrive? && Enabled(y.queue, ev)
    ensures Bridged(y, ev).queue == Apply(y.queue, ev)
  {
    hide Apply, Enabled;
  }

  lemma MoveKeepsPoller(env: Env, y: System, m: Move)
    requires QueueOk(y) && AnswersTrue(env, y) && PollerTrue(env, y) && CanMove(y, m)
    ensures PollerTrue(env, Moved(env, y, m))
  {
    hide QueueOk, AnswersTrue, Apply, Enabled, KeyOf, TrimSpace, Bridged, Posted, Arrived, PollTrue, PostsTrue,
      MarkedTrue;
    match m
    case Bridge(ev) =>
      MoveKeepsQueue(env, y, m);
      BridgedQueue(y, ev);
      BridgedKeeps(env, y, ev);
    case Ask(h, req) => ArrivedKeeps(env, y, h, req);
    case Calls(h) => CallsKeeps(env, y, h);
    case CallLost => PostedKeeps(env, y, false);
    case Hears =>
      HeardIsAccepted(env, y);
      PostedKeeps(env, y, Success(y.answers[y.poll.value.at.h]));
    case AnswerLost => PostedKeeps(env, y, false);
    case Marks(insertFails) => MarkedKeeps(env, y, insertFails);
    case _ => QuietKeeps(env, y, m);
  }

  lemma CallsKeeps(env: Env, y: System, h: nat)
    requires PollerTrue(env, y) && CanMove(y, Calls(h))
    ensures PollerTrue(env, Moved(env, y, Calls(h)))
  {
    hide KeyOf, TrimSpace, Arrived;
    var p := y.poll.value;
    ArrivedKeeps(env, y, h, PollerRequest(p.items[p.i], p.threads[p.j]));
  }

  lemma QuietKeeps(env: Env, y: System, m: Move)
    requires PollerTrue(env, y) && CanMove(y, m) && (m.StartPoll? || m.Looks? || m.StopPoll?)
    ensures PollerTrue(env, Moved(env, y, m))
  {
    hide KeyOf, TrimSpace, InsertSeen, PostsTrue, MarkedTrue, Apply, Enabled, Bridged, Posted, Arrived, Scoped;
    if m.Looks? {
      LooksKeeps(env, y, m.insertFails);
    } else {
      SamePromises(env, y, Moved(env, y, m));
    }
  }

  lemma LooksKeeps(env: Env, y: System, insertFails: bool)
    requires PollerTrue(env, y) && CanMove(y, Looks(insertFails))
    ensures PollerTrue(env, Moved(env, y, Looks(insertFails)))
  {
    hide KeyOf, TrimSpace, InsertSeen, PostsTrue, MarkedTrue, Apply, Enabled, Bridged, Posted, Arrived, Scoped;
    SamePromises(env, y, Moved(env, y, Looks(insertFails)));
  }

  lemma SamePromises(env: Env, y: System, y': System)
    requires PostsTrue(env, y) && MarkedTrue(env, y)
    ensures y'.posts == y.posts && y'.marked == y.marked && y'.queue == y.queue ==>
      PostsTrue(env, y') && MarkedTrue(env, y')
  {
    hide KeyOf;
  }

  // ---------------------------------------------------------------- what is sent

  function Keys(sent: seq<Row>): (r: seq<string>)
    ensures |r| == |sent|
    ensures forall i :: 0 <= i < |r| ==> r[i] == sent[i].dedupeKey
  {
    seq(|sent|, i requires 0 <= i < |sent| => sent[i].dedupeKey)
  }

  /** The rows sent are those the queue counts, and each is scoped. */
  ghost predicate SentTrue(y: System) {
    && y.queue.sends == multiset(Keys(y.sent))
    && forall i :: 0 <= i < |y.sent| ==> Scoped(y.sent[i])
  }

  /** How often this item was sent to this thread. */
  function SendsTo(sent: seq<Row>, guid: string, thread: string): (n: nat) {
    if sent == [] then 0
    else SendsTo(sent[..|sent| - 1], guid, thread) + (if IsFor(sent[|sent| - 1], guid, thread) then 1 else 0)
  }

  lemma QueueSends(s: State, ev: Event)
    requires Enabled(s, ev)
    ensures Apply(s, ev).sends ==
      if ev.DrainSends? && ev.ok then s.sends + multiset{s.drains[ev.d].rows[0].1.dedupeKey} else s.sends
  {
    hide BadThread, Deleted, Bumped, Inserted, InsertedId, PendingKey, TrimSpace;
    if HandlerEvent(ev) {
      hide Apply;
      HandlerEffect(s, ev);
    } else if ev.StartDrain? || ev.StopDrain? {
      hide Apply;
      StartStopTables(s, ev);
    }
  }

  /** The rows sent after a move, and the queue step behind a send. */
  lemma MovedSent(env: Env, y: System, m: Move)
    requires CanMove(y, m)
    ensures var ev, sent' := QueueStep(env, y, m), Moved(env, y, m).sent;
      if ev.Some? && ev.value.DrainSends? && ev.value.ok
      then m == Bridge(ev.value) && sent' == y.sent + [y.queue.drains[ev.value.d].rows[0].1]
      else sent' == y.sent
  {
    hide Apply, StepAnswer, Scoped, TrimSpace, RowOf;
  }

  lemma SentMore(sent: seq<Row>, row: Row)
    ensures multiset(Keys(sent + [row])) == multiset(Keys(sent)) + multiset{row.dedupeKey}
  {
    assert Keys(sent + [row]) == Keys(sent) + [row.dedupeKey];
  }

  lemma MoveKeepsSent(env: Env, y: System, m: Move)
    requires QueueOk(y) && SentTrue(y) && CanMove(y, m)
    ensures SentTrue(Moved(env, y, m))
  {
    hide Inv, Enabled, Apply, Scoped, CanMove, Moved, QueueStep, RowsScoped, Keys;
    MovedSent(env, y, m);
    var ev := QueueStep(env, y, m);
    if ev.Some? {
      QueueSends(y.queue, ev.value);
      if ev.value.DrainSends? && ev.value.ok {
        SendIsScoped(y, ev.value);
        SentMore(y.sent, y.queue.drains[ev.value.d].rows[0].1);
      }
    }
  }

  lemma SendIsScoped(y: System, ev: Event)
    requires RowsScoped(y.queue) && Enabled(y.queue, ev) && ev.DrainSends?
    ensures ev.d in y.queue.drains && y.queue.drains[ev.d].rows != [] && Scoped(y.queue.drains[ev.d].rows[0].1)
  {
    hide Scoped;
  }

  /** An item's sends to a thread are sends under its key. */
  lemma {:induction false} SendsAreKeyed(env: Env, sent: seq<Row>, guid: string, thread: string)
    requires env.lower("") == "" && TrimSpace(guid) != "" && forall i :: 0 <= i < |sent| ==> Scoped(sent[i])
    ensures SendsTo(sent, guid, thread) <= multiset(Keys(sent))[KeyOf(env, guid, thread)]
  {
    hide TrimSpace, Scoped, KeyOf, IsFor;
    if sent != [] {
      var front, last := sent[..|sent| - 1], sent[|sent| - 1];
      SendsAreKeyed(env, front, guid, thread);
      KeyIffFor(env, last, guid, thread);
      assert Keys(sent) == Keys(front) + [last.dedupeKey];
    }
  }

  // ---------------------------------------------------------------- over every run

  ghost predicate SystemOk(env: Env, y: System) {
    && QueueOk(y) && HandlersAsked(env, y) && AnswersTrue(env, y) && PollerTrue(env, y) && SentTrue(y)
  }

  lemma MoveKeeps(env: Env, y: System, m: Move)
    requires SystemOk(env, y) && CanMove(y, m)
    ensures SystemOk(env, Moved(env, y, m))
  {
    hide QueueOk, HandlersAsked, AnswersTrue, PollerTrue, SentTrue, CanMove, Moved;
    MoveKeepsQueue(env, y, m);
    MoveKeepsAsked(env, y, m);
    MoveKeepsAnswers(env, y, m);
    MoveKeepsPoller(env, y, m);
    MoveKeepsSent(env, y, m);
  }

  /** In every state of every run: the queue keeps its invariant, every row is scoped to where it goes, and an answer,
      a call counted as a success and a mark are each worth the keys they stand for. */
  lemma {:induction false} RunKeeps(env: Env, ys: seq<System>, moves: seq<Move>, n: nat)
    requires SystemRun(env, ys, moves) && n < |ys|
    ensures SystemOk(env, ys[n])
  {
    hide SystemOk, CanMove, Moved;
    if n == 0 {
      StartIsOk(env, ys[0]);
    } else {
      RunKeeps(env, ys, moves, n - 1);
      MoveKeeps(env, ys[n - 1], moves[n - 1]);
    }
  }

  lemma StartIsOk(env: Env, y: System)
    requires Starts(y)
    ensures SystemOk(env, y)
  {
    hide Scoped;
    InitialInv(y.queue);
  }

  lemma {:induction false} RunCoversSends(env: Env, ys: seq<System>, moves: seq<Move>, n: nat, k: string)
    requires SystemRun(env, ys, moves) && n < |ys| && k != ""
    requires forall i :: 0 <= i < |ys| ==> OneInFlight(ys[i].queue, k)
    ensures SendsCovered(ys[n].queue, k)
  {
    hide CanMove, Moved, OneInFlight, SendsCovered, Apply, Enabled, Initial, QueueStep;
    if n == 0 {
      InitialCovered(ys[0].queue, k);
    } else {
      RunCoversSends(env, ys, moves, n - 1, k);
      assert OneInFlight(ys[n].queue, k);
      var ev := QueueStep(env, ys[n - 1], moves[n - 1]);
      if ev.Some? {
        StepCovered(ys[n - 1].queue, ev.value, k);
      }
    }
  }

  /** Whatever polls, failed and lost calls, retries, restarts of polls, other clients and drains make up the run: an
      item is sent to a thread at most once, plus once for every send whose record failed, as long as its key is not
      in flight twice. */
  lemma FanOutAtMostOnce(env: Env, ys: seq<System>, moves: seq<Move>, n: nat, guid: string, thread: string)
    requires SystemRun(env, ys, moves) && n < |ys|
    requires env.lower("") == "" && TrimSpace(guid) != ""
    requires forall i :: 0 <= i < |ys| ==> OneInFlight(ys[i].queue, KeyOf(env, guid, thread))
    ensures SendsTo(ys[n].sent, guid, thread) <= 1 + ys[n].queue.unrecorded[KeyOf(env, guid, thread)]
  {
    hide TrimSpace, KeyOf, SystemRun, OneInFlight, QueueOk, HandlersAsked, AnswersTrue, PollerTrue;
    KeyOfParts(env, guid, thread);
    RunKeeps(env, ys, moves, n);
    RunCoversSends(env, ys, moves, n, KeyOf(env, guid, thread));
    SendsAreKeyed(env, ys[n].sent, guid, thread);
  }

  /** This move throws a key away that is not on record. */
  predicate LosesKey(env: Env, y: System, m: Move)
    requires CanMove(y, m)
  {
    QueueStep(env, y, m).Some? && UnrecordedDiscard(y.queue, QueueStep(env, y, m).value)
  }

  lemma {:induction false} RunLosesNothing(env: Env, ys: seq<System>, moves: seq<Move>, n: nat)
    requires SystemRun(env, ys, moves) && n < |ys|
    requires forall i :: 0 <= i < n ==> !LosesKey(env, ys[i], moves[i])
    ensures Lossless(ys[n].queue)
  {
    hide CanMove, Moved, Lossless, Apply, Enabled, Initial, QueueStep, UnrecordedDiscard, Inv;
    if n == 0 {
      InitialLossless(ys[0].queue);
    } else {
      RunLosesNothing(env, ys, moves, n - 1);
      RunKeeps(env, ys, moves, n - 1);
      assert !LosesKey(env, ys[n - 1], moves[n - 1]);
      var ev := QueueStep(env, ys[n - 1], moves[n - 1]);
      if ev.Some? {
        StepLossIff(ys[n - 1].queue, ev.value);
      }
    }
  }

  /** An item marked after its calls is safe: for each of its threads the notification is waiting in the queue or on
      record as dealt with, in every state reached without an unrecorded discard. */
  lemma MarkedIsRecorded(env: Env, ys: seq<System>, moves: seq<Move>, n: nat, guid: string, threads: seq<string>)
    requires SystemRun(env, ys, moves) && n < |ys|
    requires forall i :: 0 <= i < n ==> !LosesKey(env, ys[i], moves[i])
    requires (guid, threads) in ys[n].marked
    ensures forall t :: t in threads ==> Recorded(ys[n].queue.tables, KeyOf(env, guid, t))
  {
    hide SystemRun, LosesKey, KeyOf, QueueOk, HandlersAsked, AnswersTrue, PollTrue, PostsTrue, SentTrue, Recorded;
    RunKeeps(env, ys, moves, n);
    RunLosesNothing(env, ys, moves, n);
    forall t | t in threads ensures Recorded(ys[n].queue.tables, KeyOf(env, guid, t)) {
      var m := (guid, threads);
      assert m in ys[n].marked && t in m.1;
    }
  }

  /** The notification for this item and thread is in the queue. */
  ghost predicate Waits(t: Tables, guid: string, thread: string) {
    exists i :: i in t.pending && TrimSpace(t.pending[i].rawKey) == TrimSpace(guid)
      && Target(t.pending[i]) == Thread("messenger", TrimSpace(thread))
  }

  /** Every keyed row of the queue has its key and its target in these sets. */
  ghost predicate InUse(t: Tables, keys: iset<string>, dests: iset<Destination>) {
    forall i :: i in t.pending && t.pending[i].dedupeKey != "" ==>
      TrimSpace(t.pending[i].rawKey) in keys && Target(t.pending[i]) in dests
  }

  /** A pending key is its item's and thread's own, with keys and targets that are kept apart. */
  lemma PendingIsFor(env: Env, t: Tables, guid: string, thread: string, keys: iset<string>, dests: iset<Destination>)
    requires (forall i :: i in t.pending ==> Scoped(t.pending[i])) && env.lower("") == "" && TrimSpace(guid) != ""
    requires KeptApart(keys, dests) && InUse(t, keys, dests)
    requires TrimSpace(guid) in keys && Thread("messenger", TrimSpace(thread)) in dests
    requires PendingKey(t, KeyOf(env, guid, thread))
    ensures Waits(t, guid, thread)
  {
    hide TrimSpace, Scope, KeyOf, Target;
    KeyOfParts(env, guid, thread);
    var i :| i in t.pending && t.pending[i].dedupeKey == KeyOf(env, guid, thread);
    var row := t.pending[i];
    assert KeyAt(TrimSpace(row.rawKey), Target(row)) == KeyAt(TrimSpace(guid), Thread("messenger", TrimSpace(thread)));
  }

  lemma MarkedHasKey(env: Env, y: System, guid: string, threads: seq<string>, thread: string)
    requires SystemOk(env, y) && (guid, threads) in y.marked && thread in threads
    ensures TrimSpace(guid) != ""
  {
    hide HandlersAsked, AnswersTrue, PollTrue, PostsTrue, SentTrue, RowsScoped, TrimSpace;
    var m := (guid, threads);
    assert m in y.marked && thread in m.1;
  }

  /** With keys and targets that are kept apart, a marked item is on record as dealt with for each of its threads, or
      its own notification for that thread waits in the queue. */
  lemma MarkedIsWaiting(env: Env, ys: seq<System>, moves: seq<Move>, n: nat, guid: string, threads: seq<string>,
                        keys: iset<string>, dests: iset<Destination>)
    requires SystemRun(env, ys, moves) && n < |ys| && env.lower("") == ""
    requires forall i :: 0 <= i < n ==> !LosesKey(env, ys[i], moves[i])
    requires (guid, threads) in ys[n].marked
    requires KeptApart(keys, dests) && InUse(ys[n].queue.tables, keys, dests) && TrimSpace(guid) in keys
    requires forall t :: t in threads ==> Thread("messenger", TrimSpace(t)) in dests
    ensures forall t :: t in threads ==>
      KeyOf(env, guid, t) in ys[n].queue.tables.deliveries || Waits(ys[n].queue.tables, guid, t)
  {
    hide SystemRun, LosesKey, KeyOf, TrimSpace, HandlersAsked, AnswersTrue, PollerTrue, SentTrue, Inv, Scoped, Waits;
    hide InUse, KeptApart, PendingKey;
    RunKeeps(env, ys, moves, n);
    MarkedIsRecorded(env, ys, moves, n, guid, threads);
    var t := ys[n].queue.tables;
    forall thread | thread in threads
      ensures KeyOf(env, guid, thread) in t.deliveries || Waits(t, guid, thread)
    {
      MarkedHasKey(env, ys[n], guid, threads, thread);
      if KeyOf(env, guid, thread) !in t.deliveries {
        PendingIsFor(env, t, guid, thread, keys, dests);
      }
    }
  }

  // ---------------------------------------------------------------- what is sent is what was asked for

  /** The row has the request's text, with no title before it, and goes where the request names. */
  predicate Carries(env: Env, row: Row, req: Request) {
    && row.message == req.text && row.title == "" && row.rawKey == req.key
    && row.route == req.route && row.threadId == req.threadId
    && row.platform == (
         if TrimSpace(env.lower(req.platform)) == "" then "messenger" else TrimSpace(env.lower(req.platform)))
  }

  /** The row waited when the run began, came without a key, or is that of a request. */
  ghost predicate Accounted(env: Env, start: Tables, requests: map<nat, Request>, row: Row) {
    || row.dedupeKey == ""
    || (exists i :: i in start.pending && AsQueued(start.pending[i]) == row)
    || (exists h :: h in requests && Carries(env, row, requests[h]))
  }

  ghost predicate RowsAccounted(env: Env, start: Tables, y: System, rows: set<Row>) {
    && RowsFrom(y.queue, rows) && (forall row :: row in rows ==> Accounted(env, start, y.requests, row))
    && forall i :: 0 <= i < |y.sent| ==> AsQueued(y.sent[i]) in rows
  }

  lemma NewRowAccounted(env: Env, start: Tables, y: System, m: Move)
    requires CanMove(y, m) && QueueStep(env, y, m).Some?
    ensures forall row :: row in NewRows(QueueStep(env, y, m).value) ==>
      Accounted(env, start, Moved(env, y, m).requests, row)
  {
    hide Apply, TrimSpace, ScopedDedupeKey;
    var ev := QueueStep(env, y, m).value;
    if ev.Arrive? {
      RequestsAfter(env, y, m);
      hide Moved, CanMove, QueueStep;
      assert Carries(env, AsQueued(ev.row), Moved(env, y, m).requests[ev.h]);
    }
  }

  lemma SentAfter(env: Env, y: System, m: Move, rows: set<Row>)
    requires CanMove(y, m) && RowsFrom(y.queue, rows)
    ensures var y' := Moved(env, y, m);
      y'.sent == y.sent || exists row :: AsQueued(row) in rows && y'.sent == y.sent + [row]
  {
    hide Apply, AsQueued, RowOf, Scoped, TrimSpace, StepAnswer, InsertSeen;
    if m.Bridge? && m.ev.DrainSends? && m.ev.ok {
      var row := y.queue.drains[m.ev.d].rows[0].1;
      assert AsQueued(row) in rows && Moved(env, y, m).sent == y.sent + [row];
    }
  }

  lemma AccountedStays(env: Env, start: Tables, asked: map<nat, Request>, asked': map<nat, Request>, row: Row)
    requires Accounted(env, start, asked, row) && forall h :: h in asked ==> h in asked' && asked'[h] == asked[h]
    ensures Accounted(env, start, asked', row)
  {
    hide Carries, AsQueued;
  }

  lemma RowsFromMore(s: State, rows: set<Row>, more: set<Row>)
    requires RowsFrom(s, rows) && rows <= more
    ensures RowsFrom(s, more)
  {
    hide AsQueued;
  }

  lemma MoveKeepsAccounted(env: Env, start: Tables, y: System, m: Move, rows: set<Row>) returns (more: set<Row>)
    requires CanMove(y, m) && RowsAccounted(env, start, y, rows)
    ensures RowsAccounted(env, start, Moved(env, y, m), more)
  {
    hide AsQueued, Moved, CanMove, Apply, Enabled, Carries;
    var y', ev := Moved(env, y, m), QueueStep(env, y, m);
    more := rows;
    RequestsAfter(env, y, m);
    SentAfter(env, y, m, rows);
    forall row | row in rows ensures Accounted(env, start, y'.requests, row) {
      AccountedStays(env, start, y.requests, y'.requests, row);
    }
    hide Accounted, RowsFrom;
    if ev.Some? {
      NewRowAccounted(env, start, y, m);
      hide QueueStep;
      more := rows + NewRows(ev.value);
      RowsFromMore(y.queue, rows, more);
      StepFrom(y.queue, ev.value, more);
    }
  }

  lemma {:induction false} RunAccounted(env: Env, ys: seq<System>, moves: seq<Move>, n: nat) returns (rows: set<Row>)
    requires SystemRun(env, ys, moves) && n < |ys|
    ensures RowsAccounted(env, ys[0].queue.tables, ys[n], rows)
  {
    hide Moved, CanMove, Accounted;
    if n == 0 {
      rows := StartAccounted(env, ys[0]);
    } else {
      rows := RunAccounted(env, ys, moves, n - 1);
      rows := MoveKeepsAccounted(env, ys[0].queue.tables, ys[n - 1], moves[n - 1], rows);
    }
  }

  lemma StartAccounted(env: Env, y: System) returns (rows: set<Row>)
    requires Starts(y)
    ensures RowsAccounted(env, y.queue.tables, y, rows)
  {
    hide Scoped, Carries, TablesOk;
    rows := set i | i in y.queue.tables.pending :: AsQueued(y.queue.tables.pending[i]);
  }

  /** Over every run: a keyed row that is sent, or waits, waited when the run began or is that of a request, with the
      request's text, to the place the request names. */
  lemma SentIsAsked(env: Env, ys: seq<System>, moves: seq<Move>, n: nat)
    requires SystemRun(env, ys, moves) && n < |ys|
    ensures forall row :: row in ys[n].sent ==> Accounted(env, ys[0].queue.tables, ys[n].requests, AsQueued(row))
    ensures forall i :: i in ys[n].queue.tables.pending ==>
      Accounted(env, ys[0].queue.tables, ys[n].requests, AsQueued(ys[n].queue.tables.pending[i]))
  {
    hide SystemRun, Accounted, DrainsFrom;
    var rows := RunAccounted(env, ys, moves, n);
  }

  /** Over every run: a call of the poller asks for the message of the item it is at, to be sent to the thread it is at,
      under the item's guid. */
  lemma PollerAsks(env: Env, ys: seq<System>, moves: seq<Move>, n: nat, h: nat)
    requires SystemRun(env, ys, moves) && n < |moves| && moves[n] == Calls(h)
    ensures ys[n].poll.Some? && WithinItem(ys[n].poll.value) && ys[n].poll.value.at == Call
    ensures h !in ys[n].requests && h in ys[n + 1].requests
    ensures var p, req := ys[n].poll.value, ys[n + 1].requests[h];
      && req.key == p.items[p.i].guid && req.text == p.items[p.i].text && req.threadId == p.threads[p.j]
      && req.route == "" && req.platform == ""
  {
    assert CanMove(ys[n], moves[n]) && ys[n + 1] == Moved(env, ys[n], moves[n]);
  }
}
