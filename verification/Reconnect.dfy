/** Auto-reconnect of the Messenger client (internal/messenger/messenger.go): socket events, keepalive ticks, timers,
    running attempts and cookie uploads, interleaved at their mutex sections. */
module Reconnect {
  import opened Options

  /** The two guarded fields: `connected` under connMu, `reconnScheduled` under reconnMu. */
  datatype Flags = Flags(connected: bool, scheduled: bool)

  /** The critical section of armReconnect: whether this call schedules a timer. */
  predicate MayArm(f: Flags) {
    !f.scheduled && !f.connected
  }

  class Client {
    var connected: bool
    var reconnScheduled: bool

    ghost function Value(): (r: Flags)
      reads this
    {
      Flags(connected, reconnScheduled)
    }

    constructor ()
      ensures Value() == Flags(false, false)
    {
      connected, reconnScheduled := false, false;
    }

    method IsConnected() returns (r: bool)
      ensures r == Value().connected
    {
      r := connected;
    }

    method SetConnected(v: bool)
      modifies this`connected
      ensures Value() == old(Value()).(connected := v)
    {
      connected := v;
    }

    /** armReconnect up to the AfterFunc, which the caller runs when `arm` is set. */
    method ArmReconnect() returns (arm: bool)
      modifies this`reconnScheduled
      ensures arm == MayArm(old(Value()))
      ensures Value() == if arm then old(Value()).(scheduled := true) else old(Value())
    {
      var up := IsConnected();
      if reconnScheduled || up {
        return false;
      }
      reconnScheduled := true;
      return true;
    }

    /** The start of attemptReconnect: clear the flag, then stop if the socket is up. */
    method BeginAttempt() returns (goOn: bool)
      modifies this`reconnScheduled
      ensures Value() == old(Value()).(scheduled := false)
      ensures goOn == !old(Value()).connected
    {
      reconnScheduled := false;
      var up := IsConnected();
      return !up;
    }

    /** The socket events of makeEventHandler. `s` is the system around the client, in which nobody else moves. */
    method HandleEvent(ev: Event, ghost s: System) returns (arm: bool)
      requires ev.Connected? || ev.TransientDisconnect? || ev.PermanentError?
      requires s.flags == Value() && Enabled(s, ev)
      modifies this
      ensures Value() == Handled(s, ev).flags
      ensures arm <==> ev.PermanentError? && ev.t in Handled(s, ev).tasks
    {
      arm := false;
      match ev
      case Connected => SetConnected(true);
      case TransientDisconnect => SetConnected(false);
      case PermanentError(t) =>
        SetConnected(false);
        arm := ArmReconnect();
    }
  }

  // ---------------------------------------------------------------- tasks

  /** Where a reconnect, or a cookie upload, stands. A reconnect goes round: asking to arm, flag set, timer pending,
      timer fired, flag cleared, waiting for reloadMu, holding it, reloading, waiting for the socket, asking again. */
  datatype Pc =
    | Arming | Scheduling | TimerPending | Fired | Checking | AwaitingReload | Entered | Reloading | AwaitingSocket
    | UploadAwaiting | UploadEntered | Uploading

  /** `owed`: a permanent error, or a keepalive tick that saw the socket down, has not been followed by a connected
      socket yet. */
  datatype System = System(flags: Flags, reloadMu: Option<nat>, tasks: map<nat, Pc>, owed: bool)

  datatype Event =
    | Connected                     // ConnectedEvent, ReconnectedEvent
    | TransientDisconnect
    | PermanentError(t: nat)
    | KeepaliveTick(t: nat)
    | Upload(t: nat)
    | Task(t: nat, ok: bool)        // the task's next atomic section; `ok` is the outcome of a reload

  function Moved(s: System, t: nat, pc: Pc): System {
    s.(tasks := s.tasks[t := pc])
  }

  function Ended(s: System, t: nat): System {
    s.(tasks := s.tasks - {t})
  }

  function SetUp(s: System, up: bool): System {
    s.(flags := s.flags.(connected := up), owed := s.owed && !up)
  }

  /** reloadMu is free for this task to take. */
  predicate Enabled(s: System, ev: Event) {
    match ev
    case Connected => true
    case TransientDisconnect => true
    case PermanentError(t) => t !in s.tasks
    case KeepaliveTick(t) => t !in s.tasks
    case Upload(t) => t !in s.tasks
    case Task(t, _) => t in s.tasks && (s.tasks[t] in {AwaitingReload, UploadAwaiting} ==> s.reloadMu.None?)
  }

  function TaskStep(s: System, t: nat, ok: bool): System
    requires t in s.tasks
  {
    match s.tasks[t]
    case Arming =>
      if MayArm(s.flags) then Moved(s.(flags := s.flags.(scheduled := true)), t, Scheduling) else Ended(s, t)
    case Scheduling => Moved(s, t, TimerPending)
    case TimerPending => Moved(s, t, Fired)
    case Fired => Moved(s.(flags := s.flags.(scheduled := false)), t, Checking)
    case Checking => if s.flags.connected then Ended(s, t) else Moved(s, t, AwaitingReload)
    case AwaitingReload => Moved(s.(reloadMu := Some(t)), t, Entered)
    case Entered => Moved(SetUp(s, false), t, Reloading)
    case Reloading => Moved(s.(reloadMu := None), t, if ok then AwaitingSocket else Arming)
    case AwaitingSocket => if s.flags.connected then Ended(s, t) else Moved(s, t, Arming)
    case UploadAwaiting => Moved(s.(reloadMu := Some(t)), t, UploadEntered)
    case UploadEntered => Moved(SetUp(s, false), t, Uploading)
    case Uploading => Ended(s.(reloadMu := None), t)
  }

  function Step(s: System, ev: Event): System
    requires Enabled(s, ev)
  {
    match ev
    case Connected => SetUp(s, true)
    case TransientDisconnect => SetUp(s, false)
    case PermanentError(t) => Moved(SetUp(s, false).(owed := true), t, Arming)
    case KeepaliveTick(t) => if s.flags.connected then s else Moved(s.(owed := true), t, Arming)
    case Upload(t) => Moved(s, t, UploadAwaiting)
    case Task(t, ok) => TaskStep(s, t, ok)
  }

  /** An event handled to the end: a permanent error goes on to ask for a reconnect. */
  function Handled(s: System, ev: Event): System
    requires Enabled(s, ev)
  {
    if ev.PermanentError? then Step(Step(s, ev), Task(ev.t, true)) else Step(s, ev)
  }

  const START := System(Flags(false, false), None, map[], false)

  ghost predicate Runs(states: seq<System>, events: seq<Event>) {
    && |states| == |events| + 1
    && states[0] == START
    && forall i :: 0 <= i < |events| ==> Enabled(states[i], events[i]) && states[i + 1] == Step(states[i], events[i])
  }

  // ---------------------------------------------------------------- what every run keeps

  /** From setting the flag to clearing it. */
  predicate HoldsFlag(pc: Pc) {
    pc == Scheduling || pc == TimerPending || pc == Fired
  }

  predicate Upkeep(pc: Pc) {
    pc != UploadAwaiting && pc != UploadEntered && pc != Uploading
  }

  /** Between taking reloadMu and giving it back. */
  predicate HoldsReload(pc: Pc) {
    pc == Entered || pc == Reloading || pc == UploadEntered || pc == Uploading
  }

  function FlagHolders(s: System): (r: set<nat>) {
    set t | t in s.tasks && HoldsFlag(s.tasks[t])
  }

  /** The flag is set exactly while one task stands between setting and clearing it, and no two ever do. */
  ghost predicate FlagOk(s: System) {
    && (s.flags.scheduled <==> FlagHolders(s) != {})
    && forall t, u :: t in FlagHolders(s) && u in FlagHolders(s) ==> t == u
  }

  ghost predicate LockOk(s: System) {
    forall t :: s.reloadMu == Some(t) <==> t in s.tasks && HoldsReload(s.tasks[t])
  }

  /** A reconnect is scheduled, being armed or running. */
  ghost predicate Attended(s: System) {
    exists t :: t in s.tasks && Upkeep(s.tasks[t])
  }

  ghost predicate OwedOk(s: System) {
    && (s.flags.connected ==> !s.owed)
    && (s.owed ==> Attended(s))
  }

  ghost predicate Inv(s: System) {
    FlagOk(s) && LockOk(s) && OwedOk(s)
  }

  ghost predicate OthersUnmoved(s: System, s': System, t: nat) {
    forall u :: u != t ==> (u in s.tasks <==> u in s'.tasks) && (u in s.tasks ==> s'.tasks[u] == s.tasks[u])
  }

  lemma FlagHoldersMove(s: System, s': System, t: nat)
    requires OthersUnmoved(s, s', t)
    ensures FlagHolders(s') ==
      if t in s'.tasks && HoldsFlag(s'.tasks[t]) then FlagHolders(s) + {t} else FlagHolders(s) - {t}
    ensures t in FlagHolders(s) <==> t in s.tasks && HoldsFlag(s.tasks[t])
  {
    hide HoldsFlag;
  }

  lemma StepMovesOneTask(s: System, t: nat, ok: bool)
    requires t in s.tasks
    ensures OthersUnmoved(s, TaskStep(s, t, ok), t)
  {
  }

  lemma StepMovesOne(s: System, ev: Event)
    requires Enabled(s, ev) && !ev.Connected? && !ev.TransientDisconnect?
    ensures OthersUnmoved(s, Step(s, ev), ev.t)
  {
    if ev.Task? {
      StepMovesOneTask(s, ev.t, ev.ok);
      hide OthersUnmoved, TaskStep;
    } else {
      hide TaskStep;
    }
  }

  /** A step sets the flag as its task comes to hold it, and clears it as its task lets go. */
  lemma FlagFollowsTask(s: System, t: nat, ok: bool)
    requires t in s.tasks
    ensures var s', was := TaskStep(s, t, ok), HoldsFlag(s.tasks[t]);
      var now := t in s'.tasks && HoldsFlag(s'.tasks[t]);
      && (was == now ==> s'.flags.scheduled == s.flags.scheduled)
      && (was && !now ==> !s'.flags.scheduled)
      && (!was && now ==> !s.flags.scheduled && s'.flags.scheduled)
  {
  }

  lemma TaskKeepsFlag(s: System, t: nat, ok: bool)
    requires t in s.tasks && FlagOk(s)
    ensures FlagOk(TaskStep(s, t, ok))
  {
    hide FlagHolders, OthersUnmoved, TaskStep, HoldsFlag;
    StepMovesOneTask(s, t, ok);
    FlagFollowsTask(s, t, ok);
    FlagHoldersMove(s, TaskStep(s, t, ok), t);
  }

  lemma StepKeepsFlag(s: System, ev: Event)
    requires Enabled(s, ev) && FlagOk(s)
    ensures FlagOk(Step(s, ev))
  {
    if ev.Task? {
      TaskKeepsFlag(s, ev.t, ev.ok);
    } else if ev.Connected? || ev.TransientDisconnect? {
      assert FlagHolders(Step(s, ev)) == FlagHolders(s);
    } else {
      StepMovesOne(s, ev);
      hide FlagHolders, OthersUnmoved, TaskStep;
      FlagHoldersMove(s, Step(s, ev), ev.t);
    }
  }

  lemma StepKeepsLock(s: System, ev: Event)
    requires Enabled(s, ev) && LockOk(s)
    ensures LockOk(Step(s, ev))
  {
    if !ev.Connected? && !ev.TransientDisconnect? {
      StepMovesOne(s, ev);
    }
  }

  lemma StepKeepsOwed(s: System, ev: Event)
    requires Enabled(s, ev) && FlagOk(s) && OwedOk(s)
    ensures OwedOk(Step(s, ev))
  {
    var s' := Step(s, ev);
    if s'.owed {
      if s.owed {
        var t :| t in s.tasks && Upkeep(s.tasks[t]);
        if ev.Task? && ev.t == t && t !in s'.tasks {
          // only an arm request that found the flag set ends while the socket is owed
          var u :| u in FlagHolders(s);
          assert u in s'.tasks && Upkeep(s'.tasks[u]);
        } else {
          assert t in s'.tasks && Upkeep(s'.tasks[t]);
        }
      } else {
        assert ev.t in s'.tasks && Upkeep(s'.tasks[ev.t]);
      }
    }
  }

  lemma StepKeepsInv(s: System, ev: Event)
    requires Enabled(s, ev) && Inv(s)
    ensures Inv(Step(s, ev))
  {
    StepKeepsFlag(s, ev);
    StepKeepsLock(s, ev);
    StepKeepsOwed(s, ev);
  }

  lemma {:induction false} RunKeepsInv(states: seq<System>, events: seq<Event>, i: nat)
    requires Runs(states, events) && i < |states|
    ensures Inv(states[i])
  {
    if i > 0 {
      RunKeepsInv(states, events, i - 1);
      StepKeepsInv(states[i - 1], events[i - 1]);
    }
  }

  /** At most one reconnect timer is pending, in every state of every run. */
  lemma OneTimer(states: seq<System>, events: seq<Event>, i: nat, t: nat, u: nat)
    requires Runs(states, events) && i < |states|
    requires t in states[i].tasks && states[i].tasks[t] == TimerPending
    requires u in states[i].tasks && states[i].tasks[u] == TimerPending
    ensures t == u && states[i].flags.scheduled
  {
    RunKeepsInv(states, events, i);
    assert t in FlagHolders(states[i]) && u in FlagHolders(states[i]);
  }

  /** A permanent error, or a keepalive tick that finds the socket down. */
  predicate AsksFor(s: System, ev: Event) {
    ev.PermanentError? || (ev.KeepaliveTick? && !s.flags.connected)
  }

  lemma {:induction false} StaysOwed(states: seq<System>, events: seq<Event>, i: nat, j: nat)
    requires Runs(states, events) && i < j < |states|
    requires AsksFor(states[i], events[i])
    requires forall k :: i < k < j ==> !events[k].Connected?
    ensures states[j].owed
  {
    if i + 1 < j {
      StaysOwed(states, events, i, j - 1);
      assert states[j] == Step(states[j - 1], events[j - 1]);
    }
  }

  /** Never gives up: from a permanent error until the next connected socket a reconnect is scheduled, being armed or
      running, whatever disconnects, ticks, timers, reloads and uploads come between. */
  lemma NeverGivesUp(states: seq<System>, events: seq<Event>, i: nat, j: nat)
    requires Runs(states, events) && i < j < |states|
    requires AsksFor(states[i], events[i])
    requires forall k :: i < k < j ==> !events[k].Connected?
    ensures Attended(states[j]) && !states[j].flags.connected
  {
    StaysOwed(states, events, i, j);
    RunKeepsInv(states, events, j);
  }

  // ---------------------------------------------------------------- progress

  /** While one is owed, some task's next section is enabled: nobody waits for reloadMu in vain. */
  lemma SomeTaskCanStep(s: System) returns (t: nat)
    requires Inv(s) && s.owed
    ensures forall ok :: Enabled(s, Task(t, ok))
  {
    var u :| u in s.tasks && Upkeep(s.tasks[u]);
    t := u;
    if s.reloadMu.Some? {
      t := s.reloadMu.value;
    }
  }

  predicate StartsReload(s: System, ev: Event) {
    ev.Task? && ev.t in s.tasks && s.tasks[ev.t] in {AwaitingReload, UploadAwaiting}
  }

  /** How far a task is from its next reload. */
  function Rank(pc: Pc): (r: nat) {
    match pc
    case Entered => 10
    case Reloading => 9
    case AwaitingSocket => 8
    case Arming => 7
    case Scheduling => 6
    case TimerPending => 5
    case Fired => 4
    case Checking => 3
    case UploadEntered => 3
    case Uploading => 2
    case AwaitingReload => 1
    case UploadAwaiting => 1
  }

  function RankAt(tasks: map<nat, Pc>, t: nat): (r: nat) {
    if t in tasks then Rank(tasks[t]) else 0
  }

  /** Over the tasks numbered below `n`. */
  function TotalRank(tasks: map<nat, Pc>, n: nat): (r: nat) {
    if n == 0 then 0 else TotalRank(tasks, n - 1) + RankAt(tasks, n - 1)
  }

  lemma {:induction false} TotalRankMove(s: System, s': System, t: nat, n: nat)
    requires OthersUnmoved(s, s', t)
    ensures TotalRank(s'.tasks, n) ==
      TotalRank(s.tasks, n) + if t < n then RankAt(s'.tasks, t) - RankAt(s.tasks, t) else 0
  {
    hide Rank;
    if n > 0 {
      TotalRankMove(s, s', t, n - 1);
    }
  }

  lemma RankFalls(s: System, ev: Event, n: nat)
    requires Enabled(s, ev) && ev.Task? && !StartsReload(s, ev)
    requires forall t :: t in s.tasks ==> t < n
    ensures TotalRank(Step(s, ev).tasks, n) < TotalRank(s.tasks, n)
    ensures forall t :: t in Step(s, ev).tasks ==> t < n
  {
    StepMovesOne(s, ev);
    hide OthersUnmoved;
    TotalRankMove(s, Step(s, ev), ev.t, n);
  }

  ghost predicate TaskRun(states: seq<System>, events: seq<Event>) {
    && |states| == |events| + 1
    && forall i :: 0 <= i < |events| ==>
      events[i].Task? && Enabled(states[i], events[i]) && states[i + 1] == Step(states[i], events[i])
  }

  /** Left to themselves the tasks take no more steps than their total rank before one of them starts a reload. */
  lemma {:induction false} ReloadComes(states: seq<System>, events: seq<Event>, n: nat)
    requires TaskRun(states, events)
    requires forall t :: t in states[0].tasks ==> t < n
    requires |events| > TotalRank(states[0].tasks, n)
    ensures exists i :: 0 <= i < |events| && StartsReload(states[i], events[i])
    decreases |events|
  {
    hide Step, Enabled, StartsReload, TotalRank;
    if !StartsReload(states[0], events[0]) {
      RankFalls(states[0], events[0], n);
      ReloadComes(states[1..], events[1..], n);
      var i :| 0 <= i < |events[1..]| && StartsReload(states[1..][i], events[1..][i]);
      assert StartsReload(states[i + 1], events[i + 1]);
    }
  }

  /** A failed cookie upload leaves a socket down with no reconnect in sight; the next keepalive tick sees to it. */
  lemma FailedUploadIsUnattended()
    ensures exists states: seq<System>, events: seq<Event> ::
      && Runs(states, events)
      && var s := states[|events|];
      && !s.flags.connected && !Attended(s)
      && Enabled(s, KeepaliveTick(0)) && Attended(Step(s, KeepaliveTick(0)))
  {
    var s1 := Step(START, Connected);
    var s2 := Step(s1, Upload(0));
    var s3 := Step(s2, Task(0, false));
    var s4 := Step(s3, Task(0, false));
    var s5 := Step(s4, Task(0, false));
    var states := [START, s1, s2, s3, s4, s5];
    var events := [Connected, Upload(0), Task(0, false), Task(0, false), Task(0, false)];
    assert Runs(states, events);
    assert s5.tasks == map[];
    var s6 := Step(s5, KeepaliveTick(0));
    assert 0 in s6.tasks && Upkeep(s6.tasks[0]);
  }
}
