/** The refresh task and its deliberately colliding id
    (internal/job/consumption.go, internal/worker/wiring.go). */
module RefreshTask {
  import opened Readings

  function HourFloor(t: int): int {
    t - t % HOUR
  }

  function HourCeil(t: int): int {
    if HourFloor(t) == t then t else HourFloor(t) + HOUR
  }

  function MinuteFloor(t: int): int {
    t - t % MINUTE
  }

  /** The id as the triple its text is made of: hour bounds and minute slot. */
  datatype TaskId = TaskId(from: int, to: int, slot: int)

  function ConsumptionRefreshTaskID(from: int, to: int, now: int): TaskId {
    TaskId(HourFloor(from), HourCeil(to), MinuteFloor(now))
  }

  /** The hour buckets a task with this id refreshes. */
  function Buckets(id: TaskId): Window {
    Window(id.from, id.to)
  }

  /** `company` 0 is the nil UUID. */
  datatype Payload = Payload(company: nat, from: int, to: int)

  datatype PayloadError = NoCompany | NoBounds | BoundsOutOfOrder | NoClock

  datatype Result<T, E> = Ok(value: T) | Err(error: E)

  datatype Task = Task(id: TaskId, processIn: nat)

  const PROCESS_IN: nat := 60_000_000_000

  function NewConsumptionRefreshTask(p: Payload, now: int): Result<Task, PayloadError> {
    if p.company == 0 then Err(NoCompany)
    else if p.from == 0 || p.to == 0 then Err(NoBounds)
    else if p.from >= p.to then Err(BoundsOutOfOrder)
    else if now == 0 then Err(NoClock)
    else Ok(Task(ConsumptionRefreshTaskID(p.from, p.to, now), PROCESS_IN))
  }

  /** A payload is taken exactly when it names a company and its bounds are known and in
      order and the clock is set; the first that is missing is the error. The task waits
      one minute. */
  lemma TaskOrError(p: Payload, now: int)
    ensures var r := NewConsumptionRefreshTask(p, now);
      && (r.Ok? <==> p.company != 0 && p.from != 0 && p.to != 0 && p.from < p.to && now != 0)
      && (r.Ok? ==> r.value.processIn == MINUTE && r.value.id == TaskId(HourFloor(p.from), HourCeil(p.to), MinuteFloor(now)))
      && (r == Err(NoCompany) <==> p.company == 0)
      && (r == Err(NoBounds) <==> p.company != 0 && (p.from == 0 || p.to == 0))
      && (r == Err(BoundsOutOfOrder) <==> p.company != 0 && p.from != 0 && p.to != 0 && p.to <= p.from)
  {
  }

  lemma HourBounds(t: int)
    ensures HourFloor(t) <= t < HourFloor(t) + HOUR
    ensures HourCeil(t) - HOUR < t <= HourCeil(t)
    ensures HourFloor(t) % HOUR == 0 && HourCeil(t) % HOUR == 0
  {
    var q := t / HOUR;
    assert t == q * HOUR + t % HOUR;
    assert HourFloor(t) == q * HOUR;
    assert (q + 1) * HOUR == q * HOUR + HOUR;
  }

  lemma SlotBounds(t: int)
    ensures MinuteFloor(t) <= t < MinuteFloor(t) + MINUTE
  {
  }

  /** Whichever payload an id was built from, its buckets cover the windows of
      every payload with that id. */
  lemma IdBucketsCover(p: Payload, now: int, q: Payload, later: int, t: int)
    requires NewConsumptionRefreshTask(p, now).Ok? && NewConsumptionRefreshTask(q, later).Ok?
    requires NewConsumptionRefreshTask(p, now).value.id == NewConsumptionRefreshTask(q, later).value.id
    requires In(t, Window(q.from, q.to))
    ensures In(t, Buckets(NewConsumptionRefreshTask(p, now).value.id))
    ensures -MINUTE < later - now < MINUTE
  {
    HourBounds(q.from);
    HourBounds(q.to);
    SlotBounds(now);
    SlotBounds(later);
  }
}

/** Any number of runs storing rows and asking for refreshes, and a broker
    starting the tasks, interleaved on one clock. The machine takes the delay
    as a parameter; the source's is one minute. */
module RefreshDebounce {
  import opened Readings
  import opened RefreshTask

  /** A task whose id is taken; a retried task waits again, having started before. */
  datatype Slot = Waiting(readyAt: int) | Active | Archived

  /** A row and the instant it was stored. */
  datatype Stored = Stored(ts: int, at: int)

  datatype Started = Started(id: TaskId, at: int)

  /** An enqueue attempt: its payload and its own clock reading. */
  datatype Attempt = Attempt(payload: Payload, readAt: int)

  datatype State = State(now: int, rows: seq<Stored>, tasks: map<TaskId, Slot>, starts: seq<Started>,
                         attempts: map<nat, Attempt>, reported: seq<Attempt>)

  function Initial(now: int): State {
    State(now, [], map[], [], map[], [])
  }

  datatype Step =
    | Tick(nanoseconds: nat)
    | StoreRow(ts: int)
    | ReadClock(attempt: nat, payload: Payload)
    | Submit(attempt: nat)
    | BrokerError(attempt: nat)
    | Start(id: TaskId)
    | Retry(id: TaskId, backoff: nat)
    | Complete(id: TaskId)
    | Archive(id: TaskId)

  function IdOf(a: Attempt): TaskId {
    ConsumptionRefreshTaskID(a.payload.from, a.payload.to, a.readAt)
  }

  predicate Enabled(s: State, step: Step) {
    match step
    case Tick(_) => true
    case StoreRow(_) => true
    case ReadClock(a, p) => a !in s.attempts && NewConsumptionRefreshTask(p, s.now).Ok?
    case Submit(a) => a in s.attempts
    case BrokerError(a) => a in s.attempts
    case Start(id) => id in s.tasks && s.tasks[id].Waiting? && s.tasks[id].readyAt <= s.now
    case Retry(id, _) => id in s.tasks && s.tasks[id].Active?
    case Complete(id) => id in s.tasks && s.tasks[id].Active?
    case Archive(id) => id in s.tasks && s.tasks[id].Active?
  }

  /** The broker takes a task unless its id is taken; the conflict is an answer
      like any other here. */
  function Accept(tasks: map<TaskId, Slot>, id: TaskId, readyAt: int): map<TaskId, Slot> {
    if id in tasks then tasks else tasks[id := Waiting(readyAt)]
  }

  function Apply(s: State, step: Step, delay: nat): State
    requires Enabled(s, step)
  {
    match step
    case Tick(n) => s.(now := s.now + n)
    case StoreRow(ts) => s.(rows := s.rows + [Stored(ts, s.now)])
    case ReadClock(a, p) => s.(attempts := s.attempts[a := Attempt(p, s.now)])
    case Submit(a) =>
      s.(tasks := Accept(s.tasks, IdOf(s.attempts[a]), s.now + delay), reported := s.reported + [s.attempts[a]],
         attempts := s.attempts - {a})
    case BrokerError(a) => s.(attempts := s.attempts - {a})
    case Start(id) => s.(tasks := s.tasks[id := Active], starts := s.starts + [Started(id, s.now)])
    case Retry(id, backoff) => s.(tasks := s.tasks[id := Waiting(s.now + backoff)])
    case Complete(id) => s.(tasks := s.tasks - {id})
    case Archive(id) => s.(tasks := s.tasks[id := Archived])
  }

  function Run(s: State, steps: seq<Step>, delay: nat): Option<State> {
    if steps == [] then Some(s)
    else
      var mid := Run(s, steps[..|steps| - 1], delay);
      if mid.Some? && Enabled(mid.value, steps[|steps| - 1])
      then Some(Apply(mid.value, steps[|steps| - 1], delay)) else None
  }

  // ----- The enqueuer

  datatype EnqueueError = Invalid(error: PayloadError) | IdConflict | Unavailable

  class Broker {
    var tasks: map<TaskId, Slot>

    method Enqueue(task: Task, now: int, fails: bool) returns (r: Result<(), EnqueueError>)
      modifies this
      ensures r == if fails then Err(Unavailable) else if task.id in old(tasks) then Err(IdConflict) else Ok(())
      ensures tasks == if r.Ok? then old(tasks)[task.id := Waiting(now + task.processIn)] else old(tasks)
    {
      if fails {
        return Err(Unavailable);
      }
      if task.id in tasks {
        return Err(IdConflict);
      }
      tasks := tasks[task.id := Waiting(now + task.processIn)];
      return Ok(());
    }
  }

  /** A success means the id is taken afterwards, by this task or an earlier one. */
  method EnqueueConsumptionRefresh(broker: Broker, p: Payload, readAt: int, now: int, fails: bool)
    returns (r: Result<(), EnqueueError>)
    modifies broker
    ensures r.Ok? <==> NewConsumptionRefreshTask(p, readAt).Ok? && !fails
    ensures broker.tasks == if r.Ok? then Accept(old(broker.tasks), IdOf(Attempt(p, readAt)), now + PROCESS_IN) else old(broker.tasks)
    ensures r.Ok? ==> IdOf(Attempt(p, readAt)) in broker.tasks
  {
    var task := NewConsumptionRefreshTask(p, readAt);
    if task.Err? {
      return Err(Invalid(task.error));
    }
    r := broker.Enqueue(task.value, now, fails);
    if r == Err(IdConflict) {
      return Ok(());
    }
  }

  // ----- Nothing is lost

  /** The id is of a task that has not started yet, and cannot before `at` has
      passed, or of one that started after it. */
  ghost predicate StartsAfter(s: State, id: TaskId, at: int) {
    || (id in s.tasks && s.tasks[id].Waiting? && at < s.tasks[id].readyAt)
    || exists k :: 0 <= k < |s.starts| && s.starts[k].id == id && s.starts[k].at > at
  }

  /** A stored row the attempt's window covers and its run had stored before. */
  predicate Owed(row: Stored, a: Attempt) {
    In(row.ts, Window(a.payload.from, a.payload.to)) && row.at <= a.readAt
  }

  /** The row lies in the hour buckets of a refresh that starts after it was stored. */
  ghost predicate Refreshed(s: State, row: Stored) {
    exists id :: In(row.ts, Buckets(id)) && StartsAfter(s, id, row.at)
  }

  ghost predicate NothingLost(s: State) {
    forall i, j :: 0 <= i < |s.rows| && 0 <= j < |s.reported| && Owed(s.rows[i], s.reported[j]) ==>
      Refreshed(s, s.rows[i])
  }

  /** No task starts inside its own minute slot. */
  ghost predicate LateStarts(s: State) {
    && (forall id :: id in s.tasks && s.tasks[id].Waiting? ==> s.tasks[id].readyAt >= id.slot + MINUTE)
    && (forall id :: id in s.tasks && !s.tasks[id].Waiting? ==> StartsAfter(s, id, id.slot + MINUTE - 1))
    && (forall a :: a in s.attempts ==> s.attempts[a].readAt <= s.now)
    && (forall k :: 0 <= k < |s.starts| ==> s.starts[k].at <= s.now)
  }

  /** Every successful attempt's task has not started or started late. */
  ghost predicate ReportsKept(s: State) {
    forall j :: 0 <= j < |s.reported| ==>
      StartsAfter(s, IdOf(s.reported[j]), IdOf(s.reported[j]).slot + MINUTE - 1)
  }

  lemma StartsAfterKept(s: State, step: Step, delay: nat, id: TaskId, at: int)
    requires Enabled(s, step) && LateStarts(s) && StartsAfter(s, id, at) && at <= id.slot + MINUTE - 1
    ensures StartsAfter(Apply(s, step, delay), id, at)
  {
    var t := Apply(s, step, delay);
    if k :| 0 <= k < |s.starts| && s.starts[k].id == id && s.starts[k].at > at {
      assert t.starts[k] == s.starts[k];
    } else if step == Start(id) {
      assert t.starts[|s.starts|] == Started(id, s.now);
    }
  }

  lemma StepKeepsLateStarts(s: State, step: Step, delay: nat)
    requires Enabled(s, step) && LateStarts(s) && delay >= MINUTE
    ensures LateStarts(Apply(s, step, delay))
  {
    var t := Apply(s, step, delay);
    forall id | id in t.tasks && !t.tasks[id].Waiting?
      ensures StartsAfter(t, id, id.slot + MINUTE - 1)
    {
      if step == Start(id) {
        assert t.starts[|s.starts|] == Started(id, s.now);
      } else {
        StartsAfterKept(s, step, delay, id, id.slot + MINUTE - 1);
      }
    }
    if step.Submit? {
      SlotBounds(s.attempts[step.attempt].readAt);
    }
  }

  lemma StepKeepsReports(s: State, step: Step, delay: nat)
    requires Enabled(s, step) && LateStarts(s) && ReportsKept(s) && delay >= MINUTE
    ensures ReportsKept(Apply(s, step, delay))
  {
    var t := Apply(s, step, delay);
    forall j | 0 <= j < |t.reported|
      ensures StartsAfter(t, IdOf(t.reported[j]), IdOf(t.reported[j]).slot + MINUTE - 1)
    {
      var id := IdOf(t.reported[j]);
      if j < |s.reported| {
        StartsAfterKept(s, step, delay, id, id.slot + MINUTE - 1);
      } else {
        StepKeepsLateStarts(s, step, delay);
        assert id in t.tasks;
      }
    }
  }

  lemma {:induction false} RunsStartLate(now: int, steps: seq<Step>, delay: nat)
    requires Run(Initial(now), steps, delay).Some? && delay >= MINUTE
    ensures var t := Run(Initial(now), steps, delay).value; LateStarts(t) && ReportsKept(t)
  {
    if steps != [] {
      var front := steps[..|steps| - 1];
      RunsStartLate(now, front, delay);
      StepKeepsLateStarts(Run(Initial(now), front, delay).value, steps[|steps| - 1], delay);
      StepKeepsReports(Run(Initial(now), front, delay).value, steps[|steps| - 1], delay);
    }
  }

  /** The debounce loses nothing, whatever the interleaving. */
  lemma NoRowLosesItsRefresh(now: int, steps: seq<Step>)
    requires Run(Initial(now), steps, PROCESS_IN).Some?
    ensures NothingLost(Run(Initial(now), steps, PROCESS_IN).value)
  {
    DelayOfAMinuteLosesNothing(now, steps, PROCESS_IN);
  }

  lemma DelayOfAMinuteLosesNothing(now: int, steps: seq<Step>, delay: nat)
    requires Run(Initial(now), steps, delay).Some? && delay >= MINUTE
    ensures NothingLost(Run(Initial(now), steps, delay).value)
  {
    RunsStartLate(now, steps, delay);
    var t := Run(Initial(now), steps, delay).value;
    forall i, j | 0 <= i < |t.rows| && 0 <= j < |t.reported| && Owed(t.rows[i], t.reported[j])
      ensures Refreshed(t, t.rows[i])
    {
      var a := t.reported[j];
      HourBounds(a.payload.from);
      HourBounds(a.payload.to);
      SlotBounds(a.readAt);
      assert In(t.rows[i].ts, Buckets(IdOf(a)));
    }
  }

  // ----- Why one minute: any shorter delay loses a row

  /** A task enqueued at the start of its slot starts after a short delay; a row
      stored then, in the same slot, is swallowed by the id conflict. */
  function LosingSteps(delay: nat, p: Payload): seq<Step> {
    var id := ConsumptionRefreshTaskID(p.from, p.to, MINUTE);
    [ReadClock(0, p), Submit(0), Tick(delay), Start(id), StoreRow(p.from), ReadClock(1, p), Submit(1)]
  }

  lemma Extend(s0: State, steps: seq<Step>, s: State, step: Step, delay: nat)
    requires Run(s0, steps, delay) == Some(s) && Enabled(s, step)
    ensures Run(s0, steps + [step], delay) == Some(Apply(s, step, delay))
  {
    assert (steps + [step])[..|steps|] == steps;
  }

  /** After the first task started. */
  function EarlyStart(delay: nat, p: Payload): State {
    var id := ConsumptionRefreshTaskID(p.from, p.to, MINUTE);
    State(MINUTE + delay, [], map[id := Active], [Started(id, MINUTE + delay)], map[], [Attempt(p, MINUTE)])
  }

  lemma EarlyStartRuns(delay: nat, p: Payload)
    requires p.company != 0 && 0 < p.from < p.to
    ensures Run(Initial(MINUTE), LosingSteps(delay, p)[..4], delay) == Some(EarlyStart(delay, p))
  {
    var id := ConsumptionRefreshTaskID(p.from, p.to, MINUTE);
    var steps := LosingSteps(delay, p);
    var s1 := Initial(MINUTE).(attempts := map[0 := Attempt(p, MINUTE)]);
    var s2 := s1.(attempts := map[], tasks := map[id := Waiting(MINUTE + delay)], reported := [Attempt(p, MINUTE)]);
    var s3 := s2.(now := MINUTE + delay);
    Extend(Initial(MINUTE), [], Initial(MINUTE), steps[0], delay);
    assert [] + [steps[0]] == steps[..1];
    Extend(Initial(MINUTE), steps[..1], s1, steps[1], delay);
    assert s1.attempts - {0} == map[];
    assert Apply(s1, steps[1], delay) == s2 && steps[..1] + [steps[1]] == steps[..2];
    Extend(Initial(MINUTE), steps[..2], s2, steps[2], delay);
    assert steps[..2] + [steps[2]] == steps[..3];
    Extend(Initial(MINUTE), steps[..3], s3, steps[3], delay);
    assert steps[..3] + [steps[3]] == steps[..4];
    assert Apply(s3, steps[3], delay) == EarlyStart(delay, p) by {
      assert s3.tasks[id := Active] == map[id := Active];
      assert [] + [Started(id, MINUTE + delay)] == [Started(id, MINUTE + delay)];
    }
  }

  lemma ShorterDelayLosesARow(delay: nat, p: Payload)
    requires delay < MINUTE && p.company != 0 && 0 < p.from < p.to
    ensures Run(Initial(MINUTE), LosingSteps(delay, p), delay).Some?
    ensures !NothingLost(Run(Initial(MINUTE), LosingSteps(delay, p), delay).value)
  {
    EarlyStartRuns(delay, p);
    SameSlot(delay);
    var steps, s4 := LosingSteps(delay, p), EarlyStart(delay, p);
    var row, second := Stored(p.from, MINUTE + delay), Attempt(p, MINUTE + delay);
    var s5 := s4.(rows := [row]);
    var s6 := s5.(attempts := map[1 := second]);
    Extend(Initial(MINUTE), steps[..4], s4, steps[4], delay);
    assert steps[..4] + [steps[4]] == steps[..5];
    assert Apply(s4, steps[4], delay) == s5 by {
      assert [] + [row] == [row];
    }
    Extend(Initial(MINUTE), steps[..5], s5, steps[5], delay);
    assert steps[..5] + [steps[5]] == steps[..6];
    assert Apply(s5, steps[5], delay) == s6;
    Extend(Initial(MINUTE), steps[..6], s6, steps[6], delay);
    assert steps[..6] + [steps[6]] == steps;
    var s7 := Apply(s6, steps[6], delay);
    assert s7.tasks == s4.tasks && s7.reported == s4.reported + [second];
    assert Owed(s7.rows[0], s7.reported[1]);
    assert !Refreshed(s7, row);
  }

  lemma SameSlot(delay: nat)
    requires delay < MINUTE
    ensures MinuteFloor(MINUTE) == MINUTE && MinuteFloor(MINUTE + delay) == MINUTE
  {
  }
}
