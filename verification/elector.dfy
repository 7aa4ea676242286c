/** Leader election over session-bound advisory locks
    (internal/scheduler/elector.go): any number of instances, each with its
    attempt, its monitor goroutine and a session that may die at any step. */
module Election {
  import opened Readings

  /** Where attempt stands, deferred calls included. In LockQuery and Unlocking
      it is using its connection. */
  datatype Main =
    | Out
    | LockQuery
    | Won
    | Announced
    | Leading
    | StoppingMonitor
    | MonitorStopped
    | LeadCancelled
    | Unlocking
    | Releasing

  /** Where the monitor goroutine stands. In Pinging it is using the connection;
      Done means its channel is closed. */
  datatype Monitor = NotStarted | Watching | Pinging | Clearing | Cancelling | Done

  /** `leadDone`: the context lead runs under is cancelled. */
  datatype Instance = Instance(main: Main, monitor: Monitor, session: nat, flag: bool, leadDone: bool, ctxDone: bool)

  const IDLE := Instance(Out, NotStarted, 0, false, false, false)

  /** `holder` is the session that holds the advisory lock. */
  datatype State = State(instances: map<nat, Instance>, alive: set<nat>, holder: Option<nat>)

  function Initial(ids: set<nat>): State {
    State(map i | i in ids :: IDLE, {}, None)
  }

  datatype Step =
    | Connect(session: nat)
    | SessionDies(session: nat)
    | CtxDone(id: nat)
    | Begin(id: nat, session: nat)
    | LockAnswers(id: nat)
    | LockFails(id: nat)
    | Announce(id: nat)
    | StartMonitor(id: nat)
    | LeadEnds(id: nat)
    | JoinMonitor(id: nat)
    | CancelLead(id: nat)
    | ClearFlag(id: nat)
    | UnlockAnswers(id: nat)
    | UnlockFails(id: nat)
    | ReleaseConnection(id: nat)
    | WatchTick(id: nat)
    | PingAnswers(id: nat)
    | PingFails(id: nat)
    | SeesDone(id: nat)
    | MonitorClears(id: nat)
    | MonitorCancels(id: nat)

  predicate At(s: State, id: nat, main: Main) {
    id in s.instances && s.instances[id].main == main
  }

  predicate Watches(s: State, id: nat, monitor: Monitor) {
    id in s.instances && s.instances[id].monitor == monitor
  }

  predicate InUse(s: State, session: nat) {
    exists i :: i in s.instances && !s.instances[i].main.Out? && s.instances[i].session == session
  }

  predicate Enabled(s: State, step: Step) {
    match step
    case Connect(session) => session !in s.alive && !InUse(s, session)
    case SessionDies(session) => session in s.alive
    case CtxDone(id) => id in s.instances
    case Begin(id, session) => At(s, id, Out) && !InUse(s, session)
    case LockAnswers(id) => At(s, id, LockQuery) && s.instances[id].session in s.alive
    case LockFails(id) => At(s, id, LockQuery)
    case Announce(id) => At(s, id, Won)
    case StartMonitor(id) => At(s, id, Announced)
    case LeadEnds(id) => At(s, id, Leading)
    case JoinMonitor(id) => At(s, id, StoppingMonitor) && s.instances[id].monitor.Done?
    case CancelLead(id) => At(s, id, MonitorStopped)
    case ClearFlag(id) => At(s, id, LeadCancelled)
    case UnlockAnswers(id) => At(s, id, Unlocking) && s.instances[id].session in s.alive
    case UnlockFails(id) => At(s, id, Unlocking)
    case ReleaseConnection(id) => At(s, id, Releasing)
    case WatchTick(id) => Watches(s, id, Watching)
    case PingAnswers(id) => Watches(s, id, Pinging) && s.instances[id].session in s.alive
    case PingFails(id) => Watches(s, id, Pinging)
    case SeesDone(id) => Watches(s, id, Watching) && (s.instances[id].ctxDone || s.instances[id].main.StoppingMonitor?)
    case MonitorClears(id) => Watches(s, id, Clearing)
    case MonitorCancels(id) => Watches(s, id, Cancelling)
  }

  function Put(s: State, id: nat, inst: Instance): State {
    s.(instances := s.instances[id := inst])
  }

  /** A session that ends gives up its lock. */
  function Kill(s: State, session: nat): State {
    s.(alive := s.alive - {session}, holder := if s.holder == Some(session) then None else s.holder)
  }

  function DoSession(s: State, step: Step): State
    requires step.Connect? || step.SessionDies?
  {
    match step
    case Connect(session) => s.(alive := s.alive + {session})
    case SessionDies(session) => Kill(s, session)
  }

  /** A lock or unlock query that fails leaves a dead session behind. */
  function DoMain(s: State, step: Step): State
    requires Enabled(s, step) && !step.Connect? && !step.SessionDies?
  {
    var id := step.id;
    var inst := s.instances[id];
    match step
    case CtxDone(_) => Put(s, id, inst.(ctxDone := true))
    case Begin(_, session) => Put(s, id, inst.(main := LockQuery, monitor := NotStarted, session := session))
    case LockAnswers(_) =>
      if s.holder == None || s.holder == Some(inst.session)
      then Put(s.(holder := Some(inst.session)), id, inst.(main := Won))
      else Put(s, id, inst.(main := Out))
    case LockFails(_) => Put(Kill(s, inst.session), id, inst.(main := Out))
    case Announce(_) => Put(s, id, inst.(main := Announced, flag := true, leadDone := false))
    case StartMonitor(_) => Put(s, id, inst.(main := Leading, monitor := Watching))
    case LeadEnds(_) => Put(s, id, inst.(main := StoppingMonitor))
    case JoinMonitor(_) => Put(s, id, inst.(main := MonitorStopped))
    case CancelLead(_) => Put(s, id, inst.(main := LeadCancelled, leadDone := true))
    case ClearFlag(_) => Put(s, id, inst.(main := Unlocking, flag := false))
    case UnlockAnswers(_) =>
      Put(s.(holder := if s.holder == Some(inst.session) then None else s.holder), id, inst.(main := Releasing))
    case UnlockFails(_) => Put(Kill(s, inst.session), id, inst.(main := Releasing))
    case ReleaseConnection(_) => Put(s, id, inst.(main := Out))
    case WatchTick(_) => Put(s, id, inst.(monitor := Pinging))
    case PingAnswers(_) => Put(s, id, inst.(monitor := Watching))
    case PingFails(_) => Put(s, id, inst.(monitor := Clearing))
    case SeesDone(_) => Put(s, id, inst.(monitor := Clearing))
    case MonitorClears(_) => Put(s, id, inst.(monitor := Cancelling, flag := false))
    case MonitorCancels(_) => Put(s, id, inst.(monitor := Done, leadDone := true))
  }

  function Apply(s: State, step: Step): State
    requires Enabled(s, step)
  {
    if step.Connect? || step.SessionDies? then DoSession(s, step) else DoMain(s, step)
  }

  function Run(s: State, steps: seq<Step>): Option<State> {
    if steps == [] then Some(s)
    else
      var mid := Run(s, steps[..|steps| - 1]);
      if mid.Some? && Enabled(mid.value, steps[|steps| - 1])
      then Some(Apply(mid.value, steps[|steps| - 1])) else None
  }

  // ----- What one instance keeps

  predicate MainUsesConnection(inst: Instance) {
    inst.main.LockQuery? || inst.main.Unlocking?
  }

  predicate MonitorUsesConnection(inst: Instance) {
    inst.monitor.Pinging?
  }

  /** Between winning the lock and giving it back. */
  predicate HoldsPhase(main: Main) {
    main.Won? || main.Announced? || main.Leading? || main.StoppingMonitor? || main.MonitorStopped? || main.LeadCancelled?
    || main.Unlocking?
  }

  /** The order of flag, cancellation and connection use within one instance. */
  ghost predicate InstanceOk(inst: Instance) {
    && (inst.flag ==> inst.main.Announced? || inst.main.Leading? || inst.main.StoppingMonitor?)
    && (inst.flag ==> !inst.leadDone && !inst.monitor.Cancelling? && !inst.monitor.Done?)
    && (inst.main.Leading? || inst.main.StoppingMonitor? ==> !inst.monitor.NotStarted?)
    && (!inst.main.Leading? && !inst.main.StoppingMonitor? ==> inst.monitor.NotStarted? || inst.monitor.Done?)
    && (inst.main.LockQuery? || inst.main.Won? || inst.main.Announced? ==> inst.monitor.NotStarted?)
  }

  ghost predicate InstancesOk(s: State) {
    forall i :: i in s.instances ==> InstanceOk(s.instances[i])
  }

  lemma StepKeepsInstances(s: State, step: Step)
    requires InstancesOk(s) && Enabled(s, step)
    ensures InstancesOk(Apply(s, step))
  {
  }

  // ----- What the lock keeps

  predicate Borrowing(s: State, i: nat) {
    i in s.instances && !s.instances[i].main.Out?
  }

  /** No two instances use one session. */
  ghost predicate SessionsUnique(s: State) {
    forall i, j :: Borrowing(s, i) && Borrowing(s, j) && s.instances[i].session == s.instances[j].session ==> i == j
  }

  /** An instance in its holding phase with a live session holds the lock. */
  ghost predicate HoldersHold(s: State) {
    forall i :: i in s.instances && HoldsPhase(s.instances[i].main) && s.instances[i].session in s.alive ==>
      s.holder == Some(s.instances[i].session)
  }

  ghost predicate HeldBy(s: State, session: nat, i: nat) {
    i in s.instances && HoldsPhase(s.instances[i].main) && s.instances[i].session == session
  }

  /** The lock is held by a live session of an instance in its holding phase. */
  ghost predicate HolderIsHolding(s: State) {
    s.holder.Some? ==> s.holder.value in s.alive && exists i: nat :: HeldBy(s, s.holder.value, i)
  }

  ghost predicate LockOk(s: State) {
    SessionsUnique(s) && HoldersHold(s) && HolderIsHolding(s)
  }

  /** The instance a step is about. */
  function ActorOf(step: Step): Option<nat> {
    if step.Connect? || step.SessionDies? then None else Some(step.id)
  }

  lemma OthersUntouched(s: State, step: Step, i: nat)
    requires Enabled(s, step) && ActorOf(step) != Some(i)
    ensures i in Apply(s, step).instances <==> i in s.instances
    ensures i in s.instances ==> Apply(s, step).instances[i] == s.instances[i]
  {
  }

  /** Only beginning an attempt borrows a session, and a free one. */
  lemma BorrowedAlready(s: State, step: Step, i: nat)
    requires Enabled(s, step) && Borrowing(Apply(s, step), i)
    ensures if step.Begin? && i == step.id then Apply(s, step).instances[i].session == step.session && !InUse(s, step.session)
      else Borrowing(s, i) && Apply(s, step).instances[i].session == s.instances[i].session
  {
    if ActorOf(step) != Some(i) {
      OthersUntouched(s, step, i);
    }
  }

  lemma StepKeepsSessionsUnique(s: State, step: Step)
    requires SessionsUnique(s) && Enabled(s, step)
    ensures SessionsUnique(Apply(s, step))
  {
    var t := Apply(s, step);
    forall i, j | Borrowing(t, i) && Borrowing(t, j) && t.instances[i].session == t.instances[j].session ensures i == j {
      BorrowedAlready(s, step, i);
      BorrowedAlready(s, step, j);
    }
  }

  lemma StepKeepsHoldersHold(s: State, step: Step)
    requires LockOk(s) && Enabled(s, step)
    ensures HoldersHold(Apply(s, step))
  {
    var t := Apply(s, step);
    forall i | i in t.instances && HoldsPhase(t.instances[i].main) && t.instances[i].session in t.alive
      ensures t.holder == Some(t.instances[i].session)
    {
      if ActorOf(step) != Some(i) {
        OthersUntouched(s, step, i);
        OtherHolderStays(s, step, i);
      }
    }
  }

  lemma OtherHolderStays(s: State, step: Step, i: nat)
    requires LockOk(s) && Enabled(s, step) && ActorOf(step) != Some(i) && i in s.instances
    requires HoldsPhase(s.instances[i].main) && s.instances[i].session in s.alive && s.instances[i].session in Apply(s, step).alive
    ensures Apply(s, step).holder == s.holder == Some(s.instances[i].session)
  {
    hide Run;
    assert Borrowing(s, i);
    if ActorOf(step).Some? && !s.instances[step.id].main.Out? {
      assert Borrowing(s, step.id);
    }
  }

  lemma StepKeepsHolderIsHolding(s: State, step: Step)
    requires LockOk(s) && Enabled(s, step)
    ensures HolderIsHolding(Apply(s, step))
  {
    var t := Apply(s, step);
    if step.LockAnswers? && s.holder == None {
      assert HeldBy(t, t.holder.value, step.id);
    } else if t.holder.Some? {
      var i: nat :| HeldBy(s, s.holder.value, i);
      if ActorOf(step) != Some(i) {
        OthersUntouched(s, step, i);
      }
      assert HeldBy(t, t.holder.value, i);
    }
  }

  lemma StepKeepsLock(s: State, step: Step)
    requires LockOk(s) && Enabled(s, step)
    ensures LockOk(Apply(s, step))
  {
    StepKeepsSessionsUnique(s, step);
    StepKeepsHoldersHold(s, step);
    StepKeepsHolderIsHolding(s, step);
  }

  lemma {:induction false} EveryRunIsOk(ids: set<nat>, steps: seq<Step>)
    requires Run(Initial(ids), steps).Some?
    ensures InstancesOk(Run(Initial(ids), steps).value) && LockOk(Run(Initial(ids), steps).value)
  {
    if steps != [] {
      EveryRunIsOk(ids, steps[..|steps| - 1]);
      StepKeepsInstances(Run(Initial(ids), steps[..|steps| - 1]).value, steps[|steps| - 1]);
      StepKeepsLock(Run(Initial(ids), steps[..|steps| - 1]).value, steps[|steps| - 1]);
    }
  }

  // ----- The promises

  /** At most one instance both raises its flag and has a live session. */
  lemma AtMostOneLiveLeader(ids: set<nat>, steps: seq<Step>, i: nat, j: nat)
    requires Run(Initial(ids), steps).Some?
    requires var s := Run(Initial(ids), steps).value;
      && i in s.instances && s.instances[i].flag && s.instances[i].session in s.alive
      && j in s.instances && s.instances[j].flag && s.instances[j].session in s.alive
    ensures i == j
  {
    hide Run;
    EveryRunIsOk(ids, steps);
    var s := Run(Initial(ids), steps).value;
    assert InstanceOk(s.instances[i]) && InstanceOk(s.instances[j]);
  }

  /** Within every instance, at every point of every run: the flag is down
      before the lead context is cancelled, the connection is never used from
      both sides, and an attempt that is over left its flag down. */
  lemma OneInstanceInOrder(ids: set<nat>, steps: seq<Step>, i: nat)
    requires Run(Initial(ids), steps).Some? && i in Run(Initial(ids), steps).value.instances
    ensures var inst := Run(Initial(ids), steps).value.instances[i];
      && (inst.leadDone ==> !inst.flag)
      && !(MainUsesConnection(inst) && MonitorUsesConnection(inst))
      && (inst.main.Out? ==> !inst.flag && !MonitorUsesConnection(inst))
  {
    hide Run;
    EveryRunIsOk(ids, steps);
    assert InstanceOk(Run(Initial(ids), steps).value.instances[i]);
  }

  /** When an attempt returns, by whichever path, its session does not hold the lock. */
  lemma ReturningLeavesNoLock(ids: set<nat>, steps: seq<Step>, step: Step, i: nat)
    requires Run(Initial(ids), steps).Some? && Enabled(Run(Initial(ids), steps).value, step)
    requires var s := Run(Initial(ids), steps).value;
      i in s.instances && !s.instances[i].main.Out? && At(Apply(s, step), i, Out)
    ensures var s := Run(Initial(ids), steps).value;
      Apply(s, step).holder != Some(s.instances[i].session) && !Apply(s, step).instances[i].flag
  {
    EveryRunIsOk(ids, steps);
    var s := Run(Initial(ids), steps).value;
    StepKeepsInstances(s, step);
    assert InstanceOk(Apply(s, step).instances[i]);
    if s.holder == Some(s.instances[i].session) {
      HolderIsTheBorrower(s, i);
    }
  }

  lemma HolderIsTheBorrower(s: State, i: nat)
    requires LockOk(s) && Borrowing(s, i) && s.holder == Some(s.instances[i].session)
    ensures HoldsPhase(s.instances[i].main)
  {
    var k: nat :| HeldBy(s, s.holder.value, k);
    assert Borrowing(s, k);
  }

  // ----- What is not promised

  /** A leader whose session died keeps its flag up until its monitor notices;
      in between another instance can win and raise its own. */
  const HANDOVER: seq<Step> := [
    Connect(1), Begin(1, 1), LockAnswers(1), Announce(1), SessionDies(1),
    Connect(2), Begin(2, 2), LockAnswers(2), Announce(2)
  ]

  lemma Extend(s0: State, steps: seq<Step>, s: State, step: Step)
    requires Run(s0, steps) == Some(s) && Enabled(s, step)
    ensures Run(s0, steps + [step]) == Some(Apply(s, step))
  {
    assert (steps + [step])[..|steps|] == steps;
  }

  function Pair(a: Instance, b: Instance, alive: set<nat>, holder: Option<nat>): State {
    State(map[1 := a, 2 := b], alive, holder)
  }

  function Stage(main: Main, session: nat): Instance {
    Instance(main, NotStarted, session, main.Announced?, false, false)
  }

  /** One step from a known pair to a known pair. */
  lemma Reach(k: nat, s: State, t: State)
    requires k < |HANDOVER| && Run(Initial({1, 2}), HANDOVER[..k]) == Some(s)
    requires Enabled(s, HANDOVER[k]) && Apply(s, HANDOVER[k]) == t
    ensures Run(Initial({1, 2}), HANDOVER[..k + 1]) == Some(t)
  {
    Extend(Initial({1, 2}), HANDOVER[..k], s, HANDOVER[k]);
    assert HANDOVER[..k] + [HANDOVER[k]] == HANDOVER[..k + 1];
  }

  lemma FirstAsks()
    ensures Run(Initial({1, 2}), HANDOVER[..2]) == Some(Pair(Stage(LockQuery, 1), IDLE, {1}, None))
  {
    assert HANDOVER[..0] == [] && Initial({1, 2}) == Pair(IDLE, IDLE, {}, None);
    Reach(0, Pair(IDLE, IDLE, {}, None), Pair(IDLE, IDLE, {1}, None));
    Reach(1, Pair(IDLE, IDLE, {1}, None), Pair(Stage(LockQuery, 1), IDLE, {1}, None));
  }

  lemma FirstLocks()
    ensures Run(Initial({1, 2}), HANDOVER[..3]) == Some(Pair(Stage(Won, 1), IDLE, {1}, Some(1)))
  {
    hide Run;
    FirstAsks();
    Reach(2, Pair(Stage(LockQuery, 1), IDLE, {1}, None), Pair(Stage(Won, 1), IDLE, {1}, Some(1)));
  }

  lemma FirstLeads()
    ensures Run(Initial({1, 2}), HANDOVER[..4]) == Some(Pair(Stage(Announced, 1), IDLE, {1}, Some(1)))
  {
    hide Run;
    FirstLocks();
    Reach(3, Pair(Stage(Won, 1), IDLE, {1}, Some(1)), Pair(Stage(Announced, 1), IDLE, {1}, Some(1)));
  }

  lemma FirstDies()
    ensures Run(Initial({1, 2}), HANDOVER[..6]) == Some(Pair(Stage(Announced, 1), IDLE, {2}, None))
  {
    hide Run;
    FirstLeads();
    assert Kill(Pair(Stage(Announced, 1), IDLE, {1}, Some(1)), 1).alive == {};
    Reach(4, Pair(Stage(Announced, 1), IDLE, {1}, Some(1)), Pair(Stage(Announced, 1), IDLE, {}, None));
    Reach(5, Pair(Stage(Announced, 1), IDLE, {}, None), Pair(Stage(Announced, 1), IDLE, {2}, None));
  }

  lemma SecondAsks()
    ensures Run(Initial({1, 2}), HANDOVER[..7]) == Some(Pair(Stage(Announced, 1), Stage(LockQuery, 2), {2}, None))
  {
    FirstDies();
    var first := Stage(Announced, 1);
    Reach(6, Pair(first, IDLE, {2}, None), Pair(first, Stage(LockQuery, 2), {2}, None));
  }

  lemma SecondWins()
    ensures Run(Initial({1, 2}), HANDOVER) == Some(Pair(Stage(Announced, 1), Stage(Announced, 2), {2}, Some(2)))
  {
    hide Run;
    SecondAsks();
    var first := Stage(Announced, 1);
    Reach(7, Pair(first, Stage(LockQuery, 2), {2}, None), Pair(first, Stage(Won, 2), {2}, Some(2)));
    Reach(8, Pair(first, Stage(Won, 2), {2}, Some(2)), Pair(first, Stage(Announced, 2), {2}, Some(2)));
    assert HANDOVER[..9] == HANDOVER;
  }

  lemma ADeadLeaderCanOverlap()
    ensures var t := Run(Initial({1, 2}), HANDOVER);
      && t.Some? && t.value.instances.Keys == {1, 2} && t.value.instances[1].flag && t.value.instances[2].flag
      && t.value.instances[1].session !in t.value.alive
  {
    hide Run;
    SecondWins();
  }
}

/** How long such an overlap can last: the monitor's ticker and pings on a clock
    (internal/scheduler/elector.go). */
module LeaderWatch {
  import opened Readings

  const MAX_WATCH_INTERVAL: int := 2 * SECOND

  /** The monitor's interval: the retry setting, clamped. */
  function WatchInterval(retry: int): (interval: int)
    ensures 0 < interval <= MAX_WATCH_INTERVAL
    ensures interval == if 0 < retry <= 2 * SECOND then retry else 2 * SECOND
  {
    if retry <= 0 || retry > MAX_WATCH_INTERVAL then MAX_WATCH_INTERVAL else retry
  }

  /** How one ping ended and how long it took. */
  datatype Ping = Ping(ok: bool, took: int)

  /** Tick k of a ticker. */
  function Tick(start: int, interval: int, k: nat): int {
    if k == 0 then start else Tick(start, interval, k - 1) + interval
  }

  /** Ping timeouts fire on time, and a ping that starts once the session is
      dead fails. */
  ghost predicate PingsOnTime(pings: nat -> Ping, start: int, interval: int, death: int) {
    forall k: nat :: 0 <= pings(k).took <= interval && (Tick(start, interval, k) >= death ==> !pings(k).ok)
  }

  /** Ping k is the first that fails. */
  ghost predicate FirstFailure(pings: nat -> Ping, k: nat) {
    k > 0 && !pings(k).ok && forall j: nat | 0 < j < k :: pings(j).ok
  }

  /** The monitor loop: it returns when it cancels the lead context, having cleared the
      flag first, and it does so only when its context has ended or once the first
      failing ping is back. `ctxDone` is when its context ends, if it does. */
  method Monitor(start: int, retry: int, pings: nat -> Ping, ctxDone: Option<int>, death: int)
    returns (clearedAt: int, cancelledAt: int)
    requires PingsOnTime(pings, start, WatchInterval(retry), death)
    ensures start <= clearedAt <= cancelledAt
    ensures cancelledAt <= Max(start, death) + 2 * WatchInterval(retry)
    ensures cancelledAt <= Max(start, death) + 4 * SECOND
    ensures ctxDone.Some? ==> cancelledAt <= Max(start, ctxDone.value) + WatchInterval(retry)
    ensures (ctxDone.Some? && ctxDone.value <= clearedAt)
      || exists k: nat :: FirstFailure(pings, k) && clearedAt == Tick(start, WatchInterval(retry), k) + pings(k).took
  {
    var interval := WatchInterval(retry);
    var tick, k, now := start, 0, start;
    while true
      invariant tick == Tick(start, interval, k) && start <= tick <= Max(start, death)
      invariant tick <= now <= tick + interval
      invariant k == 0 ==> now == start == tick
      invariant ctxDone.Some? && k > 0 ==> tick < ctxDone.value
      invariant forall j: nat | 0 < j <= k :: pings(j).ok
      decreases Max(start, death) - tick
    {
      if ctxDone.Some? && ctxDone.value <= tick + interval {
        clearedAt := Max(now, ctxDone.value);
        cancelledAt := clearedAt;
        return;
      }
      k, tick := k + 1, tick + interval;
      var ping := pings(k);
      now := tick + ping.took;
      if !ping.ok {
        assert FirstFailure(pings, k);
        clearedAt := now;
        cancelledAt := clearedAt;
        return;
      }
    }
  }
}

/** The same election on a clock: tickers tick and pings time out when they are due. */
module ElectionClock {
  import opened Readings
  import opened Election
  import opened LeaderWatch

  /** `due`: when the instance's next tick comes or its ping times out; `raised`: when
      it last raised its flag; `died`: when a session last ended. */
  datatype Timed = Timed(now: int, interval: int, state: State, due: map<nat, int>, raised: map<nat, int>, died: map<nat, int>)

  function Start(ids: set<nat>, retry: int, now: int): Timed {
    Timed(now, WatchInterval(retry), Initial(ids), map[], map[], map[])
  }

  /** Time passes, or an instance or a session takes a step. */
  datatype TimedStep = Pass(nanoseconds: nat) | Do(step: Step)

  /** A monitor is started as its flag goes up, acts when its tick or its timeout is
      due, and clears and cancels at once. */
  predicate MayWait(t: Timed, id: nat, d: nat)
    requires id in t.state.instances
  {
    var inst := t.state.instances[id];
    && (inst.main.Announced? || inst.monitor.Clearing? || inst.monitor.Cancelling? ==> d == 0)
    && (inst.monitor.Watching? || inst.monitor.Pinging? ==> id in t.due && t.now + d <= t.due[id])
  }

  ghost predicate CanTake(t: Timed, step: TimedStep) {
    match step
    case Pass(d) => forall id :: id in t.state.instances ==> MayWait(t, id, d)
    case Do(e) => Enabled(t.state, e) && (e.WatchTick? ==> e.id in t.due && t.now == t.due[e.id])
  }

  function Take(t: Timed, step: TimedStep): Timed
    requires step.Do? ==> Enabled(t.state, step.step)
  {
    match step
    case Pass(d) => t.(now := t.now + d)
    case Do(e) =>
      var s := Apply(t.state, e);
      t.(state := s,
         due := if e.StartMonitor? || e.WatchTick? then t.due[e.id := t.now + t.interval] else t.due,
         raised := if e.Announce? then t.raised[e.id := t.now] else t.raised,
         died := t.died + map x | x in t.state.alive - s.alive :: t.now)
  }

  ghost function TimedRun(t: Timed, steps: seq<TimedStep>): Option<Timed> {
    if steps == [] then Some(t)
    else
      var mid := TimedRun(t, steps[..|steps| - 1]);
      if mid.Some? && CanTake(mid.value, steps[|steps| - 1]) then Some(Take(mid.value, steps[|steps| - 1])) else None
  }

  // ----- Timed runs are runs of the election

  function Untimed(steps: seq<TimedStep>): seq<Step> {
    if steps == [] then []
    else
      var front, last := Untimed(steps[..|steps| - 1]), steps[|steps| - 1];
      if last.Do? then front + [last.step] else front
  }

  lemma {:induction false} TimedRunsAreRuns(ids: set<nat>, retry: int, now: int, steps: seq<TimedStep>)
    requires TimedRun(Start(ids, retry, now), steps).Some?
    ensures Run(Initial(ids), Untimed(steps)) == Some(TimedRun(Start(ids, retry, now), steps).value.state)
  {
    hide Enabled, Apply;
    if steps != [] {
      var front, last := steps[..|steps| - 1], steps[|steps| - 1];
      TimedRunsAreRuns(ids, retry, now, front);
      if last.Do? {
        Election.Extend(Initial(ids), Untimed(front), TimedRun(Start(ids, retry, now), front).value.state, last.step);
      }
    }
  }

  // ----- How long a dead leader keeps its flag

  /** When a raised flag lost its session, or was raised without one. */
  function DeadFrom(t: Timed, id: nat): int
    requires id in t.state.instances && id in t.raised && t.state.instances[id].session in t.died
  {
    Max(t.raised[id], t.died[t.state.instances[id].session])
  }

  /** A session that held the lock ended at a known instant. */
  ghost predicate DeathKnown(t: Timed, id: nat)
    requires id in t.state.instances
  {
    var inst := t.state.instances[id];
    HoldsPhase(inst.main) && inst.session !in t.state.alive ==> inst.session in t.died && t.died[inst.session] <= t.now
  }

  /** A raised flag's monitor is due within an interval; once the session is dead its
      next ping is the last. */
  ghost predicate FlagTimed(t: Timed, id: nat)
    requires id in t.state.instances && DeathKnown(t, id)
  {
    var inst := t.state.instances[id];
    inst.flag ==>
      && InstanceOk(inst) && id in t.raised && t.raised[id] <= t.now
      && var dead := inst.session !in t.state.alive;
      && (inst.main.Announced? ==> t.raised[id] == t.now)
      && (inst.monitor.Watching? ==>
           id in t.due && t.now <= t.due[id] <= (if dead then DeadFrom(t, id) else t.now) + t.interval)
      && (inst.monitor.Pinging? ==>
           id in t.due && t.now <= t.due[id] <= (if dead then DeadFrom(t, id) + t.interval else t.now) + t.interval)
      && (inst.monitor.Clearing? && dead ==> t.now <= DeadFrom(t, id) + 2 * t.interval)
  }

  ghost predicate TimedOk(t: Timed) {
    && 0 < t.interval <= MAX_WATCH_INTERVAL && InstancesOk(t.state) && LockOk(t.state)
    && forall id :: id in t.state.instances ==> DeathKnown(t, id) && FlagTimed(t, id)
  }

  lemma PassKeepsTimed(t: Timed, d: nat)
    requires TimedOk(t) && CanTake(t, Pass(d))
    ensures TimedOk(Take(t, Pass(d)))
  {
    hide LockOk;
    var u := Take(t, Pass(d));
    forall id | id in u.state.instances ensures DeathKnown(u, id) && FlagTimed(u, id) {
      assert DeathKnown(t, id) && FlagTimed(t, id) && MayWait(t, id, d);
    }
  }

  /** A step of someone else, or a session's end, as instance id sees it. */
  lemma OthersKeepTimed(t: Timed, e: Step, id: nat)
    requires TimedOk(t) && CanTake(t, Do(e)) && ActorOf(e) != Some(id) && id in t.state.instances
    ensures var u := Take(t, Do(e)); id in u.state.instances && DeathKnown(u, id) && FlagTimed(u, id)
  {
    hide InUse;
    var u := Take(t, Do(e));
    OthersUntouched(t.state, e, id);
    assert DeathKnown(t, id) && FlagTimed(t, id);
    if HoldsPhase(t.state.instances[id].main) {
      SessionStaysDead(t.state, e, id);
    }
    hide Apply, Enabled, LockOk;
    assert u.state.instances[id] == t.state.instances[id];
  }

  lemma SessionStaysDead(s: State, e: Step, id: nat)
    requires LockOk(s) && Enabled(s, e) && id in s.instances && HoldsPhase(s.instances[id].main)
    ensures s.instances[id].session !in s.alive ==> s.instances[id].session !in Apply(s, e).alive
  {
    assert Borrowing(s, id);
  }

  predicate IsMonitorStep(e: Step) {
    e.WatchTick? || e.PingAnswers? || e.PingFails? || e.SeesDone? || e.MonitorClears? || e.MonitorCancels?
  }

  lemma MonitorKeepsTimed(t: Timed, e: Step)
    requires TimedOk(t) && CanTake(t, Do(e)) && IsMonitorStep(e)
    ensures var u := Take(t, Do(e)); e.id in u.state.instances && DeathKnown(u, e.id) && FlagTimed(u, e.id)
  {
    hide LockOk, InUse, Kill;
    assert DeathKnown(t, e.id) && FlagTimed(t, e.id);
    StepKeepsInstances(t.state, e);
  }

  lemma MainKeepsDeath(t: Timed, e: Step)
    requires TimedOk(t) && CanTake(t, Do(e)) && !IsMonitorStep(e) && ActorOf(e).Some?
    ensures var u := Take(t, Do(e)); e.id in u.state.instances && DeathKnown(u, e.id)
  {
    hide LockOk, InUse, InstancesOk, FlagTimed;
    assert DeathKnown(t, e.id);
  }

  lemma MainKeepsTimed(t: Timed, e: Step)
    requires TimedOk(t) && CanTake(t, Do(e)) && !IsMonitorStep(e) && ActorOf(e).Some?
    ensures var u := Take(t, Do(e)); e.id in u.state.instances && DeathKnown(u, e.id) && FlagTimed(u, e.id)
  {
    hide LockOk, InUse, InstancesOk;
    MainKeepsDeath(t, e);
    assert DeathKnown(t, e.id) && FlagTimed(t, e.id);
    StepKeepsInstances(t.state, e);
    assert InstanceOk(Apply(t.state, e).instances[e.id]) by {
      InstanceOfAll(Apply(t.state, e), e.id);
    }
    hide DeathKnown;
  }

  lemma InstanceOfAll(s: State, id: nat)
    requires InstancesOk(s) && id in s.instances
    ensures InstanceOk(s.instances[id])
  {
  }

  lemma DoKeepsTimed(t: Timed, e: Step)
    requires TimedOk(t) && CanTake(t, Do(e))
    ensures TimedOk(Take(t, Do(e)))
  {
    var u := Take(t, Do(e));
    StepKeepsInstances(t.state, e);
    StepKeepsLock(t.state, e);
    forall id | id in u.state.instances ensures DeathKnown(u, id) && FlagTimed(u, id) {
      if ActorOf(e) == Some(id) {
        if IsMonitorStep(e) {
          MonitorKeepsTimed(t, e);
        } else {
          MainKeepsTimed(t, e);
        }
      } else {
        OthersUntouched(t.state, e, id);
        OthersKeepTimed(t, e, id);
      }
    }
  }

  lemma {:induction false} TimedRunsAreOk(ids: set<nat>, retry: int, now: int, steps: seq<TimedStep>)
    requires TimedRun(Start(ids, retry, now), steps).Some?
    ensures var t := TimedRun(Start(ids, retry, now), steps).value; TimedOk(t) && t.interval == WatchInterval(retry)
  {
    hide TimedOk, CanTake;
    if steps != [] {
      var front, last := steps[..|steps| - 1], steps[|steps| - 1];
      TimedRunsAreOk(ids, retry, now, front);
      var mid := TimedRun(Start(ids, retry, now), front).value;
      match last
      case Pass(d) => PassKeepsTimed(mid, d);
      case Do(e) => DoKeepsTimed(mid, e);
    } else {
      StartIsOk(ids, retry, now);
    }
  }

  lemma StartIsOk(ids: set<nat>, retry: int, now: int)
    ensures TimedOk(Start(ids, retry, now))
  {
  }

  /** In every reachable state, a flag that is up without a live session has been so
      for two watch intervals, four seconds, at most. */
  lemma DeadLeadersStepDown(ids: set<nat>, retry: int, now: int, steps: seq<TimedStep>, i: nat)
    requires TimedRun(Start(ids, retry, now), steps).Some?
    requires var s := TimedRun(Start(ids, retry, now), steps).value.state;
      i in s.instances && s.instances[i].flag && s.instances[i].session !in s.alive
    ensures var t := TimedRun(Start(ids, retry, now), steps).value;
      && i in t.raised && t.state.instances[i].session in t.died
      && t.now <= DeadFrom(t, i) + 2 * WatchInterval(retry) && t.now <= DeadFrom(t, i) + 4 * SECOND
  {
    hide TimedRun, LockOk;
    TimedRunsAreOk(ids, retry, now, steps);
    var t := TimedRun(Start(ids, retry, now), steps).value;
    assert DeathKnown(t, i) && FlagTimed(t, i);
  }

  /** Two flags are up together for at most that long: one of the two has lost its
      session. */
  lemma OverlapsAreShort(ids: set<nat>, retry: int, now: int, steps: seq<TimedStep>, i: nat, j: nat)
    requires TimedRun(Start(ids, retry, now), steps).Some? && i != j
    requires var s := TimedRun(Start(ids, retry, now), steps).value.state;
      i in s.instances && s.instances[i].flag && j in s.instances && s.instances[j].flag
    ensures var t := TimedRun(Start(ids, retry, now), steps).value;
      exists x :: x in {i, j} && t.state.instances[x].session !in t.state.alive
        && x in t.raised && t.state.instances[x].session in t.died && t.now <= DeadFrom(t, x) + 4 * SECOND
  {
    hide TimedRun, Run;
    var s := TimedRun(Start(ids, retry, now), steps).value.state;
    TimedRunsAreRuns(ids, retry, now, steps);
    if s.instances[i].session in s.alive {
      if s.instances[j].session in s.alive {
        AtMostOneLiveLeader(ids, Untimed(steps), i, j);
      }
      DeadLeadersStepDown(ids, retry, now, steps, j);
    } else {
      DeadLeadersStepDown(ids, retry, now, steps, i);
    }
  }
}
