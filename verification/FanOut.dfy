/** The free-game fan-out end to end: the poller (internal/notify/freegames.go) and the bridge with its queue
    (internal/bridge/notifications.go, pending.go) as one system whose steps interleave. */
module FanOut {
  import opened Text
  import opened Options
  import opened DedupeKey
  import opened NeonTables
  import opened NotificationQueue
  import opened PendingDrain
  import opened QueueRows
  import opened FreeGames

  /** strings.ToLower and normalizeGameTitle */
  datatype Env = Env(lower: string -> string, norm: string -> string)

  // ---------------------------------------------------------------- requests and their rows

  /** A keyed notification as its client posts it. */
  datatype Request = Request(key: string, route: string, platform: string, threadId: string, text: string)

  /** The row the handler queues for a request. */
  function RowOf(env: Env, req: Request): (row: Row) {
    var p := TrimSpace(env.lower(req.platform));
    Row(if p == "" then "messenger" else p, req.threadId, req.route, "", req.text,
        ScopedDedupeKey(env.lower, req.key, TrimSpace(req.route), req.platform, req.threadId), "", "", 0, req.key)
  }

  /** Where a row is meant to go. */
  function Target(row: Row): (d: Destination) {
    if TrimSpace(row.route) != "" then Route(TrimSpace(row.route)) else Thread(row.platform, TrimSpace(row.threadId))
  }

  /** The row's key is its producer's key scoped to where it goes. */
  predicate Scoped(row: Row) {
    row.dedupeKey == if TrimSpace(row.rawKey) == "" then "" else TrimSpace(row.rawKey) + "|" + Scope(Target(row))
  }

  lemma RowOfScoped(env: Env, req: Request)
    ensures Scoped(RowOf(env, req))
    ensures TrimSpace(req.key) != "" ==> RowOf(env, req).dedupeKey != ""
  {
    hide TrimSpace, Scope;
    if TrimSpace(req.key) != "" {
      ScopedKeyParts(env.lower, req.key, TrimSpace(req.route), req.platform, req.threadId);
    }
  }

  /** The scoped key the bridge gives a call of the poller: no route, platform left to default. */
  function KeyOf(env: Env, guid: string, thread: string): (r: string) {
    ScopedDedupeKey(env.lower, guid, "", "", thread)
  }

  /** postWebhook for one item and thread */
  function PollerRequest(item: Item, thread: string): (req: Request) {
    Request(item.guid, "", "", thread, item.text)
  }

  /** The row is about this item and goes to this thread of Messenger. */
  predicate IsFor(row: Row, guid: string, thread: string) {
    && row.route == "" && row.platform == "messenger"
    && TrimSpace(row.threadId) == TrimSpace(thread) && TrimSpace(row.rawKey) == TrimSpace(guid)
  }

  lemma KeyOfParts(env: Env, guid: string, thread: string)
    requires env.lower("") == "" && TrimSpace(guid) != ""
    ensures KeyOf(env, guid, thread) == TrimSpace(guid) + "|" + Scope(Thread("messenger", TrimSpace(thread)))
    ensures KeyOf(env, guid, thread) != ""
  {
    hide ScopedDedupeKey, Scope;
    TrimFixed("");
    ScopedKeyParts(env.lower, guid, "", "", thread);
  }

  /** Rows for an item and a thread carry its key, and with keys free of bars no other row does. */
  lemma KeyIffFor(env: Env, row: Row, guid: string, thread: string)
    requires Scoped(row) && env.lower("") == "" && TrimSpace(guid) != ""
    ensures IsFor(row, guid, thread) ==> row.dedupeKey == KeyOf(env, guid, thread)
    ensures row.dedupeKey == KeyOf(env, guid, thread) && PlainPlatform(Target(row))
      && '|' !in TrimSpace(row.rawKey) && '|' !in TrimSpace(guid)
      ==> TrimSpace(row.rawKey) == TrimSpace(guid) && Target(row) == Thread("messenger", TrimSpace(thread))
  {
    TrimFixed("");
    hide TrimSpace, Scope, KeyOf;
    KeyOfParts(env, guid, thread);
    var d := Thread("messenger", TrimSpace(thread));
    if row.dedupeKey == KeyOf(env, guid, thread) && PlainPlatform(Target(row))
       && '|' !in TrimSpace(row.rawKey) && '|' !in TrimSpace(guid) {
      assert "|" == ['|'] && ':' !in "messenger";
      FirstSeparator(TrimSpace(row.rawKey), Scope(Target(row)), TrimSpace(guid), Scope(d), '|');
      ScopeInjective(Target(row), d);
    }
  }

  // ---------------------------------------------------------------- the system

  /** Where the poller stands with item i: looking it up, about to call for thread j, waiting for the answer of
      request h, or about to mark it seen. */
  datatype At = Look | Call | Await(h: nat) | Mark

  datatype Poll = Poll(items: seq<Item>, threads: seq<string>, known: set<string>, titles: Option<set<string>>,
                       i: nat, j: nat, at: At)

  /** `requests`, `answers`, `sent` and `marked` are bookkeeping: the requests that arrived and their answers, the rows
      sent, and the items marked after their calls, each with the threads called. */
  datatype System = System(queue: State, requests: map<nat, Request>, answers: map<nat, Answer>, poll: Option<Poll>,
                           seen: map<string, string>, posts: seq<Post>, sent: seq<Row>,
                           marked: set<(string, seq<string>)>)

  datatype Move =
    | Bridge(ev: Event)
    | Ask(h: nat, req: Request)
    | StartPoll(items: seq<Item>, threads: seq<string>, titlesFail: bool)
    | Looks(insertFails: bool)
    | Calls(h: nat)
    | CallLost
    | Hears
    | AnswerLost
    | Marks(insertFails: bool)
    | StopPoll

  predicate PollAt(y: System, at: At) {
    y.poll.Some? && y.poll.value.at == at
  }

  predicate Awaiting(y: System) {
    y.poll.Some? && y.poll.value.at.Await?
  }

  predicate WithinItem(p: Poll) {
    p.i < |p.items| && p.j <= |p.threads| && (p.at.Call? || p.at.Await? ==> p.j < |p.threads|)
  }

  /** The parts of the poller's loops that its position refers to. */
  predicate Positioned(y: System) {
    y.poll.Some? && !y.poll.value.at.Look? ==> WithinItem(y.poll.value)
  }

  predicate CanMove(y: System, m: Move) {
    && Positioned(y)
    && match m
       case Bridge(ev) => !ev.Arrive? && Enabled(y.queue, ev) && (ev.SavePlain? ==> Scoped(ev.row))
       case Ask(h, req) => h !in y.requests && h !in y.queue.handlers && TrimSpace(req.key) != ""
       case StartPoll(items, threads, _) =>
         y.poll.None? && threads != [] && forall i :: 0 <= i < |items| ==> TrimSpace(items[i].guid) != ""
       case Looks(_) => PollAt(y, Look) && y.poll.value.i < |y.poll.value.items|
       case Calls(h) => PollAt(y, Call) && h !in y.requests && h !in y.queue.handlers
                        && TrimSpace(y.poll.value.items[y.poll.value.i].guid) != ""
       case CallLost => PollAt(y, Call)
       case Hears => Awaiting(y) && y.poll.value.at.h in y.answers
       case AnswerLost => Awaiting(y)
       case Marks(_) => PollAt(y, Mark)
       case StopPoll => y.poll.Some?
  }

  function Arrived(env: Env, y: System, h: nat, req: Request): System
    requires h !in y.queue.handlers && TrimSpace(req.key) != ""
  {
    RowOfScoped(env, req);
    y.(queue := Apply(y.queue, Arrive(h, RowOf(env, req))), requests := y.requests[h := req])
  }

  /** A step of the bridge, with what it answers and what it sends. */
  function Bridged(y: System, ev: Event): System
    requires !ev.Arrive? && Enabled(y.queue, ev)
  {
    y.(queue := Apply(y.queue, ev),
       answers := if StepAnswer(y.queue, ev).Some? then y.answers[ev.h := StepAnswer(y.queue, ev).value] else y.answers,
       sent := if ev.DrainSends? && ev.ok then y.sent + [y.queue.drains[ev.d].rows[0].1] else y.sent)
  }

  function NextItem(p: Poll): Poll {
    p.(i := p.i + 1, j := 0, at := Look)
  }

  /** The outcome of the call for thread j of item i. */
  function Posted(y: System, ok: bool): System
    requires y.poll.Some? && Positioned(y) && (PollAt(y, Call) || Awaiting(y))
  {
    var p := y.poll.value;
    y.(posts := y.posts + [Post(p.items[p.i].guid, p.threads[p.j], ok)],
       poll := Some(if ok then p.(j := p.j + 1, at := if p.j + 1 == |p.threads| then Mark else Call) else NextItem(p)))
  }

  function Moved(env: Env, y: System, m: Move): (y': System)
    requires CanMove(y, m)
  {
    match m
    case Bridge(ev) => Bridged(y, ev)
    case Ask(h, req) => Arrived(env, y, h, req)
    case StartPoll(items, threads, titlesFail) =>
      var titles := if titlesFail then None else Some(set g | g in y.seen :: env.norm(y.seen[g]));
      y.(poll := Some(Poll(items, threads, y.seen.Keys, titles, 0, 0, Look)))
    case Looks(insertFails) =>
      var p := y.poll.value;
      var item := p.items[p.i];
      if item.guid in p.known then y.(poll := Some(NextItem(p)))
      else if p.titles.Some? && env.norm(item.title) in p.titles.value then
        y.(seen := if insertFails then y.seen else InsertSeen(y.seen, item), poll := Some(NextItem(p)))
      else y.(poll := Some(p.(j := 0, at := if p.threads == [] then Mark else Call)))
    case Calls(h) =>
      var p := y.poll.value;
      Arrived(env, y, h, PollerRequest(p.items[p.i], p.threads[p.j])).(poll := Some(p.(at := Await(h))))
    case CallLost => Posted(y, false)
    case Hears => Posted(y, Success(y.answers[y.poll.value.at.h]))
    case AnswerLost => Posted(y, false)
    case Marks(insertFails) =>
      var p := y.poll.value;
      var item := p.items[p.i];
      if insertFails then y.(poll := Some(NextItem(p)))
      else
        var titles := if p.titles.Some? then Some(p.titles.value + {env.norm(item.title)}) else None;
        y.(seen := InsertSeen(y.seen, item), marked := y.marked + {(item.guid, p.threads)},
           poll := Some(NextItem(p).(titles := titles)))
    case StopPoll => y.(poll := None)
  }

  /** A run starts with whatever the tables hold; the rows in them were queued by the same handler. */
  ghost predicate Starts(y: System) {
    && Initial(y.queue) && (forall i :: i in y.queue.tables.pending ==> Scoped(y.queue.tables.pending[i]))
    && y.requests == map[] && y.answers == map[] && y.poll == None
    && y.posts == [] && y.sent == [] && y.marked == {}
  }

  ghost predicate SystemRun(env: Env, ys: seq<System>, moves: seq<Move>) {
    && |ys| == |moves| + 1
    && Starts(ys[0])
    && forall i :: 0 <= i < |moves| ==> CanMove(ys[i], moves[i]) && ys[i + 1] == Moved(env, ys[i], moves[i])
  }

  // ---------------------------------------------------------------- the queue inside the system

  /** The step of the queue a move contains. */
  function QueueStep(env: Env, y: System, m: Move): (ev: Option<Event>)
    requires CanMove(y, m)
    ensures ev.Some? ==> Enabled(y.queue, ev.value)
    ensures Moved(env, y, m).queue == if ev.Some? then Apply(y.queue, ev.value) else y.queue
  {
    match m
    case Bridge(ev) => Some(ev)
    case Ask(h, req) => RowOfScoped(env, req); Some(Arrive(h, RowOf(env, req)))
    case Calls(h) =>
      var req := PollerRequest(y.poll.value.items[y.poll.value.i], y.poll.value.threads[y.poll.value.j]);
      RowOfScoped(env, req);
      Some(Arrive(h, RowOf(env, req)))
    case _ => None
  }

  lemma AcceptedGrows(s: State, ev: Event)
    requires Enabled(s, ev)
    ensures s.accepted <= Apply(s, ev).accepted
  {
    hide Apply;
    if HandlerEvent(ev) {
      HandlerEffect(s, ev);
    } else if DrainEvent(ev) {
      DrainEffect(s, ev);
    } else {
      StartStopTables(s, ev);
    }
  }

  lemma StartStopTables(s: State, ev: Event)
    requires Enabled(s, ev) && (ev.StartDrain? || ev.StopDrain?)
    ensures var s' := Apply(s, ev);
      s'.tables == s.tables && s'.accepted == s.accepted && s'.handlers == s.handlers && s'.sends == s.sends
  {
  }

  // ---------------------------------------------------------------- every row is scoped to where it goes

  ghost predicate RowsScoped(s: State) {
    && (forall i :: i in s.tables.pending ==> Scoped(s.tables.pending[i]))
    && (forall h :: h in s.handlers ==> Scoped(s.handlers[h].row))
    && (forall d, i :: d in s.drains && 0 <= i < |s.drains[d].rows| ==> Scoped(s.drains[d].rows[i].1))
  }

  /** All rows around. */
  ghost function AllRows(s: State): (rows: set<Row>)
    ensures RowsFrom(s, rows)
  {
    (set i | i in s.tables.pending :: AsQueued(s.tables.pending[i]))
    + (set h | h in s.handlers :: AsQueued(s.handlers[h].row))
    + (set d, i | d in s.drains && 0 <= i < |s.drains[d].rows| :: AsQueued(s.drains[d].rows[i].1))
  }

  lemma AttemptsKeepScope(row: Row)
    ensures Scoped(AsQueued(row)) <==> Scoped(row)
  {
    hide TrimSpace, Scope;
  }

  lemma RowsScopedIff(s: State, rows: set<Row>)
    requires RowsFrom(s, rows) && forall row :: row in rows ==> Scoped(row)
    ensures RowsScoped(s)
  {
    hide Scoped, AsQueued;
    forall i | i in s.tables.pending ensures Scoped(s.tables.pending[i]) {
      AttemptsKeepScope(s.tables.pending[i]);
    }
    forall h | h in s.handlers ensures Scoped(s.handlers[h].row) {
      AttemptsKeepScope(s.handlers[h].row);
    }
    forall d, i | d in s.drains && 0 <= i < |s.drains[d].rows| ensures Scoped(s.drains[d].rows[i].1) {
      AttemptsKeepScope(s.drains[d].rows[i].1);
    }
  }

  lemma AllRowsScoped(s: State)
    requires RowsScoped(s)
    ensures forall row :: row in AllRows(s) ==> Scoped(row)
  {
    hide Scoped, AsQueued;
    forall row | row in AllRows(s) ensures Scoped(row) {
      if i :| i in s.tables.pending && row == AsQueued(s.tables.pending[i]) {
        AttemptsKeepScope(s.tables.pending[i]);
      } else if h :| h in s.handlers && row == AsQueued(s.handlers[h].row) {
        AttemptsKeepScope(s.handlers[h].row);
      } else {
        var d, i :| d in s.drains && 0 <= i < |s.drains[d].rows| && row == AsQueued(s.drains[d].rows[i].1);
        AttemptsKeepScope(s.drains[d].rows[i].1);
      }
    }
  }

  lemma QueueStepScoped(s: State, ev: Event)
    requires Enabled(s, ev) && RowsScoped(s)
    requires ev.Arrive? || ev.SavePlain? ==> Scoped(ev.row)
    ensures RowsScoped(Apply(s, ev))
  {
    hide Scoped, Apply, Enabled, RowsScoped;
    AllRowsScoped(s);
    var rows := AllRows(s) + NewRows(ev);
    if ev.Arrive? || ev.SavePlain? {
      AttemptsKeepScope(ev.row);
    }
    StepFrom(s, ev, rows);
    RowsScopedIff(Apply(s, ev), rows);
  }

  /** What holds of the queue in every state of the system. */
  ghost predicate QueueOk(y: System) {
    Inv(y.queue) && RowsScoped(y.queue)
  }

  lemma MoveKeepsQueue(env: Env, y: System, m: Move)
    requires QueueOk(y) && CanMove(y, m)
    ensures QueueOk(Moved(env, y, m))
    ensures y.queue.accepted <= Moved(env, y, m).queue.accepted
  {
    var ev := QueueStep(env, y, m);
    if ev.Some? {
      NewRowScoped(env, y, m);
      hide Moved, CanMove, QueueStep, Inv, RowsScoped, Enabled, Apply, Scoped;
      StepKeeps(y.queue, ev.value);
      QueueStepScoped(y.queue, ev.value);
      AcceptedGrows(y.queue, ev.value);
    }
  }

  lemma NewRowScoped(env: Env, y: System, m: Move)
    requires CanMove(y, m) && QueueStep(env, y, m).Some?
    ensures var ev := QueueStep(env, y, m).value; ev.Arrive? || ev.SavePlain? ==> Scoped(ev.row)
  {
    hide Scoped, Apply, Moved, TrimSpace, RowOf;
    if m.Ask? {
      RowOfScoped(env, m.req);
    } else if m.Calls? {
      RowOfScoped(env, PollerRequest(y.poll.value.items[y.poll.value.i], y.poll.value.threads[y.poll.value.j]));
    }
  }
}
