/** Enqueuing under a fixed id, replacing a finished task that still holds it
    (internal/job/requeue.go). */
module Requeue {
  /** A task waits, runs, or is finished and kept. */
  datatype Task = Waiting | Running | Finished

  /** QueueCritical, QueueDefault and QueueLow, in the order they are searched. */
  const QUEUES: nat := 3

  type Slots = map<nat, Task>

  predicate UnfinishedIn(slots: Slots, queue: nat) {
    queue in slots && !slots[queue].Finished?
  }

  // ----- One call alone

  datatype Answer = Enqueued | Conflict | Refused

  /** The broker calls of one request that fail. */
  datatype Faults = Faults(enqueue: bool, look: bool, delete: bool, again: bool)

  /** The broker's tasks under one id, by queue; `home` is the queue this id's
      task type is routed to. */
  class Broker {
    const home: nat
    var slots: Slots

    predicate Valid()
      reads this
    {
      home < QUEUES && slots.Keys <= {home}
    }

    method Enqueue(fails: bool) returns (answer: Answer)
      requires Valid()
      modifies this
      ensures Valid()
      ensures answer == if fails then Refused else if home in old(slots) then Conflict else Enqueued
      ensures slots == if answer.Enqueued? then map[home := Waiting] else old(slots)
    {
      if fails {
        return Refused;
      }
      if home in slots {
        return Conflict;
      }
      slots := map[home := Waiting];
      return Enqueued;
    }

    /** A running task cannot be deleted; a missing one is no error here. */
    method Delete(queue: nat, fails: bool) returns (ok: bool)
      requires Valid()
      modifies this
      ensures Valid()
      ensures ok <==> !fails && !(queue in old(slots) && old(slots)[queue].Running?)
      ensures slots == if ok then old(slots) - {queue} else old(slots)
    {
      if fails || (queue in slots && slots[queue].Running?) {
        return false;
      }
      slots := slots - {queue};
      return true;
    }
  }

  /** A finished task holds the id, and the request goes on to look at it. */
  predicate Replaces(slots: Slots, home: nat, inspector: bool, faults: Faults) {
    home in slots && slots[home].Finished? && inspector && !faults.enqueue && !faults.look
  }

  /** A nil return means an unfinished task holds the id, unless a finished one keeps
      it because there is no inspector or the look at it failed; a task in progress
      is left alone. */
  method EnqueueReplacingFinished(broker: Broker, inspector: bool, faults: Faults) returns (ok: bool)
    requires broker.Valid()
    modifies broker
    ensures broker.Valid()
    ensures var stale := old(Replaces(broker.slots, broker.home, inspector, faults));
      ok <==> !faults.enqueue && (stale ==> !faults.delete && !faults.again)
    ensures ok && (old(broker.home in broker.slots) ==> inspector && !faults.look) ==> UnfinishedIn(broker.slots, broker.home)
    ensures old(UnfinishedIn(broker.slots, broker.home)) ==> broker.slots == old(broker.slots)
    ensures old(broker.home in broker.slots) && !faults.enqueue && (!inspector || faults.look) ==>
      ok && broker.slots == old(broker.slots)
    ensures broker.slots ==
      if old(Replaces(broker.slots, broker.home, inspector, faults)) && !faults.delete then
        (if faults.again then map[] else map[broker.home := Waiting])
      else if old(broker.home !in broker.slots) && !faults.enqueue then map[broker.home := Waiting]
      else old(broker.slots)
  {
    var answer := broker.Enqueue(faults.enqueue);
    if !answer.Conflict? {
      return answer.Enqueued?;
    }
    if !inspector {
      return true;
    }
    for queue := 0 to QUEUES
      invariant broker.slots == old(broker.slots) && (queue > broker.home ==> faults.look)
    {
      if queue !in broker.slots || faults.look {
        continue;
      }
      if !broker.slots[queue].Finished? {
        return true;
      }
      ok := broker.Delete(queue, faults.delete);
      if !ok {
        return;
      }
      answer := broker.Enqueue(faults.again);
      return !answer.Refused?;
    }
    return true;
  }
}

/** Any number of calls for one id, workers running its tasks and the broker
    forgetting finished ones, interleaved step by step. */
module RequeueRace {
  import opened Readings
  import opened Requeue

  /** `Scanning(k)`: the first k queues were searched in vain. */
  datatype Pc = Start | Scanning(k: nat) | FoundFinished | Reenqueueing | Nil | Failed

  /** `began` and `conflicted`: the step counts when the call began and when its
      first enqueue found the id taken; `lapsed`: when it looked into the home
      queue, a finished task had been forgotten since that conflict and none was
      there; `blind`: its look into the home queue failed. */
  datatype Call = Call(pc: Pc, inspector: bool, began: nat, conflicted: nat, lapsed: bool, blind: bool)

  /** `aliveAt`: the last step after which an unfinished task existed;
      `lapsedAt`: the last step at which a kept finished task was forgotten;
      `abandonedAt`: the last at which a call deleted one and could not enqueue. */
  datatype State = State(home: nat, slots: Slots, calls: map<nat, Call>, now: nat, aliveAt: int, lapsedAt: int,
                         abandonedAt: int)

  function Initial(home: nat): State {
    State(home, map[], map[], 0, -1, -1, -1)
  }

  datatype Step =
    | Begin(id: nat, inspector: bool)
    | FirstEnqueue(id: nat)
    | Look(id: nat)
    | LookFails(id: nat)
    | CallFails(id: nat)
    | Delete(id: nat)
    | Reenqueue(id: nat)
    | StartTask
    | RetryTask
    | FinishTask
    | DropTask
    | ForgetFinished

  predicate At(s: State, id: nat, pc: Pc) {
    id in s.calls && s.calls[id].pc == pc
  }

  predicate Enabled(s: State, step: Step) {
    match step
    case Begin(id, _) => id !in s.calls
    case FirstEnqueue(id) => At(s, id, Start)
    case Look(id) => id in s.calls && s.calls[id].pc.Scanning? && s.calls[id].inspector
    case LookFails(id) => id in s.calls && s.calls[id].pc.Scanning? && s.calls[id].inspector && s.calls[id].pc.k < QUEUES
    case CallFails(id) => At(s, id, Start) || At(s, id, FoundFinished) || At(s, id, Reenqueueing)
    case Delete(id) => At(s, id, FoundFinished)
    case Reenqueue(id) => At(s, id, Reenqueueing)
    case StartTask => s.home in s.slots && s.slots[s.home].Waiting?
    case RetryTask => s.home in s.slots && s.slots[s.home].Running?
    case FinishTask => s.home in s.slots && s.slots[s.home].Running?
    case DropTask => s.home in s.slots && s.slots[s.home].Running?
    case ForgetFinished => s.home in s.slots && s.slots[s.home].Finished?
  }

  function Move(s: State, id: nat, pc: Pc): State
    requires id in s.calls
  {
    s.(calls := s.calls[id := s.calls[id].(pc := pc)])
  }

  function NoteLapse(s: State, id: nat): State
    requires id in s.calls
  {
    s.(calls := s.calls[id := s.calls[id].(lapsed := LapsedSince(s, s.calls[id].conflicted))])
  }

  function DoLook(s: State, id: nat): State
    requires Enabled(s, Look(id))
  {
    var k := s.calls[id].pc.k;
    if k >= QUEUES then Move(s, id, Nil)
    else if k !in s.slots then
      Move(if k == s.home then NoteLapse(s, id) else s, id, Scanning(k + 1))
    else if s.slots[k].Finished? then Move(s, id, FoundFinished)
    else Move(s, id, Nil)
  }

  /** A failing look is passed over like an empty queue. */
  function DoLookBlindly(s: State, id: nat): State
    requires Enabled(s, LookFails(id))
  {
    var k := s.calls[id].pc.k;
    Move(if k == s.home then s.(calls := s.calls[id := s.calls[id].(blind := true)]) else s, id, Scanning(k + 1))
  }

  /** The change a step makes, before the counters. */
  function Act(s: State, step: Step): State
    requires Enabled(s, step)
  {
    match step
    case Begin(id, inspector) => s.(calls := s.calls[id := Call(Start, inspector, s.now, s.now, false, false)])
    case FirstEnqueue(id) =>
      if s.home !in s.slots then Move(s.(slots := s.slots[s.home := Waiting]), id, Nil)
      else
        Move(s.(calls := s.calls[id := s.calls[id].(conflicted := s.now)]), id,
             if s.calls[id].inspector then Scanning(0) else Nil)
    case Look(id) => DoLook(s, id)
    case LookFails(id) => DoLookBlindly(s, id)
    case CallFails(id) => Move(if s.calls[id].pc.Reenqueueing? then s.(abandonedAt := s.now) else s, id, Failed)
    case Delete(id) =>
      if s.home in s.slots && s.slots[s.home].Running? then Move(s, id, Failed)
      else Move(s.(slots := s.slots - {s.home}), id, Reenqueueing)
    case Reenqueue(id) =>
      if s.home !in s.slots then Move(s.(slots := s.slots[s.home := Waiting]), id, Nil) else Move(s, id, Nil)
    case StartTask => s.(slots := s.slots[s.home := Running])
    case RetryTask => s.(slots := s.slots[s.home := Waiting])
    case FinishTask => s.(slots := s.slots[s.home := Finished])
    case DropTask => s.(slots := s.slots - {s.home})
    case ForgetFinished => s.(slots := s.slots - {s.home}, lapsedAt := s.now)
  }

  function Apply(s: State, step: Step): State
    requires Enabled(s, step)
  {
    var t := Act(s, step);
    t.(now := s.now + 1, aliveAt := if UnfinishedIn(t.slots, t.home) then s.now + 1 else s.aliveAt)
  }

  function Run(s: State, steps: seq<Step>): Option<State> {
    if steps == [] then Some(s)
    else
      var mid := Run(s, steps[..|steps| - 1]);
      if mid.Some? && Enabled(mid.value, steps[|steps| - 1])
      then Some(Apply(mid.value, steps[|steps| - 1])) else None
  }

  // ----- What every run keeps

  /** An unfinished task existed at or after the instant. */
  predicate AliveSince(s: State, began: nat) {
    s.aliveAt >= began
  }

  /** A finished task was forgotten after the instant. */
  predicate LapsedSince(s: State, instant: nat) {
    s.lapsedAt > instant
  }

  /** A call gave up between deleting and enqueuing after the instant. */
  predicate AbandonedSince(s: State, instant: nat) {
    s.abandonedAt > instant
  }

  /** Another call has deleted the finished task and will enqueue the next one. */
  ghost predicate OwedByAnother(s: State, id: nat) {
    s.home !in s.slots && exists d :: d != id && At(s, d, Reenqueueing)
  }

  ghost predicate Answered(s: State, id: nat)
    requires id in s.calls
  {
    AliveSince(s, s.calls[id].began) || OwedByAnother(s, id)
  }

  ghost predicate CallOk(s: State, id: nat)
    requires id in s.calls
  {
    var c := s.calls[id];
    match c.pc
    case Scanning(k) =>
      && c.conflicted < s.now
      && (Answered(s, id) || AbandonedSince(s, c.conflicted)
          || (if k <= s.home then LapsedSince(s, c.conflicted) || s.home in s.slots else c.lapsed || c.blind))
    case Reenqueueing => AliveSince(s, c.began) || s.home !in s.slots
    case _ => true
  }

  /** Only the home queue holds a task, and the counters say so. */
  ghost predicate SlotsOk(s: State) {
    && s.home < QUEUES && s.slots.Keys <= {s.home}
    && (UnfinishedIn(s.slots, s.home) ==> s.aliveAt == s.now)
    && s.aliveAt <= s.now && s.lapsedAt < s.now + 1 && s.abandonedAt < s.now + 1
    && forall id :: id in s.calls ==> s.calls[id].began <= s.calls[id].conflicted <= s.now
  }

  ghost predicate CallsOk(s: State) {
    forall id :: id in s.calls ==> CallOk(s, id)
  }

  lemma StepKeepsSlots(s: State, step: Step)
    requires SlotsOk(s) && Enabled(s, step)
    ensures SlotsOk(Apply(s, step))
  {
  }

  /** Whoever owes an enqueue still does, has enqueued, or gave up. */
  lemma OwedStays(s: State, step: Step, id: nat)
    requires SlotsOk(s) && Enabled(s, step) && OwedByAnother(s, id)
    ensures var t := Apply(s, step);
      OwedByAnother(t, id) || UnfinishedIn(t.slots, t.home) || t.abandonedAt == s.now
  {
    var d :| d != id && At(s, d, Reenqueueing);
    if step != CallFails(d) && step != Reenqueue(d) {
      assert At(Apply(s, step), d, Reenqueueing);
    }
  }

  lemma OwnStepKeepsCall(s: State, step: Step, id: nat)
    requires SlotsOk(s) && CallsOk(s) && Enabled(s, step) && id in Apply(s, step).calls
    requires id !in s.calls || Apply(s, step).calls[id] != s.calls[id]
    ensures CallOk(Apply(s, step), id)
  {
    hide OwedByAnother;
    if id in s.calls && OwedByAnother(s, id) {
      OwedStays(s, step, id);
    }
  }

  lemma OtherStepKeepsCall(s: State, step: Step, id: nat)
    requires SlotsOk(s) && CallsOk(s) && Enabled(s, step)
    requires id in s.calls && id in Apply(s, step).calls && Apply(s, step).calls[id] == s.calls[id]
    ensures CallOk(Apply(s, step), id)
  {
    if OwedByAnother(s, id) {
      OwedStays(s, step, id);
    }
    if step.Delete? && step.id != id && Apply(s, step).home !in Apply(s, step).slots {
      assert At(Apply(s, step), step.id, Reenqueueing);
    }
    assert CallOk(s, id);
  }

  lemma StepKeepsCall(s: State, step: Step, id: nat)
    requires SlotsOk(s) && CallsOk(s) && Enabled(s, step) && id in Apply(s, step).calls
    ensures CallOk(Apply(s, step), id)
  {
    hide CallOk, Apply, Enabled;
    if id in s.calls && Apply(s, step).calls[id] == s.calls[id] {
      OtherStepKeepsCall(s, step, id);
    } else {
      OwnStepKeepsCall(s, step, id);
    }
  }

  lemma {:induction false} EveryRunIsOk(home: nat, steps: seq<Step>)
    requires home < QUEUES && Run(Initial(home), steps).Some?
    ensures SlotsOk(Run(Initial(home), steps).value) && CallsOk(Run(Initial(home), steps).value)
  {
    if steps != [] {
      var front, last := steps[..|steps| - 1], steps[|steps| - 1];
      EveryRunIsOk(home, front);
      var mid := Run(Initial(home), front).value;
      StepKeepsSlots(mid, last);
      forall id | id in Apply(mid, last).calls ensures CallOk(Apply(mid, last), id) {
        StepKeepsCall(mid, last, id);
      }
    }
  }

  lemma CountersStep(s: State, step: Step)
    requires Enabled(s, step) && s.aliveAt <= s.now
    ensures var t := Apply(s, step);
      t.home == s.home && t.now == s.now + 1 && t.aliveAt <= t.now && (t.aliveAt == t.now <==> UnfinishedIn(t.slots, t.home))
  {
  }

  lemma {:induction false} CountersFollow(home: nat, steps: seq<Step>)
    requires Run(Initial(home), steps).Some?
    ensures var s := Run(Initial(home), steps).value;
      s.home == home && s.now == |steps| && s.aliveAt <= s.now && (s.aliveAt == s.now <==> UnfinishedIn(s.slots, home))
  {
    hide Apply, Enabled;
    if steps != [] {
      CountersFollow(home, steps[..|steps| - 1]);
      CountersStep(Run(Initial(home), steps[..|steps| - 1]).value, steps[|steps| - 1]);
    }
  }

  /** Between the call's conflict and its look into the home queue the finished task
      was forgotten, or that look failed, or since the conflict a call gave up
      between deleting the task and enqueuing it again. */
  predicate LostSight(s: State, id: nat)
    requires id in s.calls
  {
    s.calls[id].lapsed || s.calls[id].blind || AbandonedSince(s, s.calls[id].conflicted)
  }

  /** Whatever the interleaving and whatever fails, the id never holds two tasks. A
      call with an inspector that returns nil has its answer unless its search went
      past every queue and it lost sight of the finished task in one of the three
      ways. */
  lemma NilMeansAnswered(home: nat, steps: seq<Step>, step: Step, id: nat)
    requires home < QUEUES && Run(Initial(home), steps).Some? && Enabled(Run(Initial(home), steps).value, step)
    requires var s := Run(Initial(home), steps).value;
      id in s.calls && s.calls[id].inspector && !s.calls[id].pc.Nil? && At(Apply(s, step), id, Nil)
    ensures var s := Run(Initial(home), steps).value;
      var t := Apply(s, step);
      && t.slots.Keys <= {home}
      && (!Answered(t, id) ==>
            step == Look(id) && s.calls[id].pc.Scanning? && s.calls[id].pc.k >= QUEUES && LostSight(t, id))
  {
    hide Run;
    EveryRunIsOk(home, steps);
    var s := Run(Initial(home), steps).value;
    CountersFollow(home, steps);
    StepKeepsSlots(s, step);
    assert CallOk(s, id);
    if OwedByAnother(s, id) && (step.Look? || step.LookFails?) {
      var d :| d != id && At(s, d, Reenqueueing);
      assert At(Apply(s, step), d, Reenqueueing);
    }
  }

  // ----- Exactly when it is not answered

  /** The enqueue finds the id free and puts a new task under it. */
  predicate Puts(s: State, step: Step) {
    (step.FirstEnqueue? || step.Reenqueue?) && s.home !in s.slots
  }

  /** One of the steps from number `from` on put a task under the id. */
  predicate EnqueuedSince(home: nat, steps: seq<Step>, from: nat)
    requires Run(Initial(home), steps).Some?
  {
    from < |steps|
    && (EnqueuedSince(home, steps[..|steps| - 1], from)
        || Puts(Run(Initial(home), steps[..|steps| - 1]).value, steps[|steps| - 1]))
  }

  lemma {:induction false} PrefixRuns(home: nat, steps: seq<Step>, n: nat)
    requires n <= |steps| && Run(Initial(home), steps).Some?
    ensures Run(Initial(home), steps[..n]).Some?
  {
    if n < |steps| {
      PrefixRuns(home, steps[..|steps| - 1], n);
      assert steps[..|steps| - 1][..n] == steps[..n];
    } else {
      assert steps[..n] == steps;
    }
  }

  /** The tasks under the id after the first n steps. */
  function SlotsAt(home: nat, steps: seq<Step>, n: nat): Slots
    requires n <= |steps| && Run(Initial(home), steps).Some?
  {
    PrefixRuns(home, steps, n);
    Run(Initial(home), steps[..n]).value.slots
  }

  lemma OnlyEnqueuesPut(s: State, step: Step)
    requires Enabled(s, step) && UnfinishedIn(Apply(s, step).slots, s.home)
    ensures UnfinishedIn(s.slots, s.home) || Puts(s, step)
  {
  }

  /** A task was unfinished since an instant exactly when one was then or an enqueue
      has put one since; and a task held now was held then or put since. */
  lemma {:induction false} AliveIff(home: nat, steps: seq<Step>, from: nat)
    requires from <= |steps| && Run(Initial(home), steps).Some?
    ensures var s := Run(Initial(home), steps).value;
      && (AliveSince(s, from) <==> UnfinishedIn(SlotsAt(home, steps, from), home) || EnqueuedSince(home, steps, from))
      && (home in s.slots ==> home in SlotsAt(home, steps, from) || EnqueuedSince(home, steps, from))
  {
    CountersFollow(home, steps);
    if from == |steps| {
      assert steps[..from] == steps;
    } else {
      var front, last := steps[..|steps| - 1], steps[|steps| - 1];
      AliveIff(home, front, from);
      CountersFollow(home, front);
      assert front[..from] == steps[..from];
      var mid := Run(Initial(home), front).value;
      if UnfinishedIn(Apply(mid, last).slots, home) {
        OnlyEnqueuesPut(mid, last);
      }
    }
  }

  /** The call got past its first enqueue: the id was taken when it began, or some
      step since put a task under it. */
  predicate TakenSince(home: nat, steps: seq<Step>, from: nat)
    requires from <= |steps| && Run(Initial(home), steps).Some?
  {
    home in SlotsAt(home, steps, from) || EnqueuedSince(home, steps, from)
  }

  /** A call gets past its first enqueue with a task under the id or by putting one. */
  lemma PastStart(s: State, step: Step, id: nat)
    requires Enabled(s, step) && id in Apply(s, step).calls
    ensures var c := Apply(s, step).calls[id];
      if id !in s.calls then c.pc.Start? && c.began == s.now
      else
        && c.began == s.calls[id].began
        && (c.pc.Start? || c.pc.Failed? || s.home in s.slots || Puts(s, step)
            || !(s.calls[id].pc.Start? || s.calls[id].pc.Failed?))
  {
  }

  lemma {:induction false} PastTheFirstEnqueue(home: nat, steps: seq<Step>, id: nat)
    requires home < QUEUES && Run(Initial(home), steps).Some? && id in Run(Initial(home), steps).value.calls
    ensures var c := Run(Initial(home), steps).value.calls[id];
      c.began <= |steps| && (c.pc.Start? || c.pc.Failed? || TakenSince(home, steps, c.began))
  {
    hide Apply, Enabled, Puts, SlotsAt;
    if steps != [] {
      var front, last := steps[..|steps| - 1], steps[|steps| - 1];
      var mid := Run(Initial(home), front).value;
      CountersFollow(home, front);
      PastStart(mid, last, id);
      if id in mid.calls {
        PastTheFirstEnqueue(home, front, id);
        var from := mid.calls[id].began;
        AliveIff(home, front, from);
        FrontSlots(home, steps, from);
      }
    }
  }

  lemma FrontSlots(home: nat, steps: seq<Step>, n: nat)
    requires steps != [] && n < |steps| && Run(Initial(home), steps).Some?
    ensures SlotsAt(home, steps[..|steps| - 1], n) == SlotsAt(home, steps, n)
  {
    assert steps[..|steps| - 1][..n] == steps[..n];
  }

  /** The exact condition, in steps and for every call that returns nil, with an
      inspector or without: it is left unanswered if and only if a finished task held
      the id when it began, no step since then put a task under it, and no other call
      is about to. */
  lemma NilIsUnansweredIff(home: nat, steps: seq<Step>, id: nat)
    requires home < QUEUES && Run(Initial(home), steps).Some? && At(Run(Initial(home), steps).value, id, Nil)
    ensures var s := Run(Initial(home), steps).value;
      var from := s.calls[id].began;
      && from <= |steps|
      && (!Answered(s, id) <==>
           && home in SlotsAt(home, steps, from) && SlotsAt(home, steps, from)[home].Finished?
           && !EnqueuedSince(home, steps, from)
           && !OwedByAnother(s, id))
  {
    hide Run, EnqueuedSince, OwedByAnother;
    PastTheFirstEnqueue(home, steps, id);
    AliveIff(home, steps, Run(Initial(home), steps).value.calls[id].began);
  }

  // ----- The exception is real

  /** A finished task is forgotten between the conflict and the search. */
  function Swallowed(home: nat): seq<Step> {
    [Begin(0, true), FirstEnqueue(0), StartTask, FinishTask, Begin(1, true), FirstEnqueue(1), ForgetFinished,
     Look(1), Look(1), Look(1), Look(1)]
  }

  lemma Extend(s0: State, steps: seq<Step>, s: State, step: Step)
    requires Run(s0, steps) == Some(s) && Enabled(s, step)
    ensures Run(s0, steps + [step]) == Some(Apply(s, step))
  {
    assert (steps + [step])[..|steps|] == steps;
  }

  lemma Reach(home: nat, k: nat, s: State, t: State)
    requires k < |Swallowed(home)| && Run(Initial(home), Swallowed(home)[..k]) == Some(s)
    requires Enabled(s, Swallowed(home)[k]) && Apply(s, Swallowed(home)[k]) == t
    ensures Run(Initial(home), Swallowed(home)[..k + 1]) == Some(t)
  {
    hide Run;
    Extend(Initial(home), Swallowed(home)[..k], s, Swallowed(home)[k]);
    assert Swallowed(home)[..k] + [Swallowed(home)[k]] == Swallowed(home)[..k + 1];
  }

  function First(pc: Pc): Call {
    Call(pc, true, 0, 0, false, false)
  }

  /** It looks into the home queue as its look number `home`. */
  function Second(pc: Pc, home: nat): Call {
    Call(pc, true, 4, if pc.Start? then 4 else 5, pc.Nil? || (pc.Scanning? && pc.k > home), false)
  }

  lemma FirstTaskQueued(home: nat)
    ensures Run(Initial(home), Swallowed(home)[..2])
      == Some(State(home, map[home := Waiting], map[0 := First(Nil)], 2, 2, -1, -1))
  {
    var s0 := Initial(home);
    assert Swallowed(home)[..0] == [];
    var s1 := State(home, map[], map[0 := First(Start)], 1, -1, -1, -1);
    Reach(home, 0, s0, s1);
    var s2 := State(home, map[home := Waiting], map[0 := First(Nil)], 2, 2, -1, -1);
    assert s1.calls[0 := First(Nil)] == s2.calls;
    Reach(home, 1, s1, s2);
  }

  lemma FirstTaskRuns(home: nat)
    ensures Run(Initial(home), Swallowed(home)[..3])
      == Some(State(home, map[home := Running], map[0 := First(Nil)], 3, 3, -1, -1))
  {
    hide Run;
    FirstTaskQueued(home);
    var s2 := State(home, map[home := Waiting], map[0 := First(Nil)], 2, 2, -1, -1);
    var s3 := State(home, map[home := Running], map[0 := First(Nil)], 3, 3, -1, -1);
    assert s2.slots[home := Running] == s3.slots;
    Reach(home, 2, s2, s3);
  }

  lemma FirstTaskFinishes(home: nat)
    ensures Run(Initial(home), Swallowed(home)[..4])
      == Some(State(home, map[home := Finished], map[0 := First(Nil)], 4, 3, -1, -1))
  {
    hide Run;
    FirstTaskRuns(home);
    var s3 := State(home, map[home := Running], map[0 := First(Nil)], 3, 3, -1, -1);
    assert s3.slots[home := Finished] == map[home := Finished];
    Reach(home, 3, s3, State(home, map[home := Finished], map[0 := First(Nil)], 4, 3, -1, -1));
  }

  function Searching(home: nat, k: nat, now: nat): State {
    State(home, map[], map[0 := First(Nil), 1 := Second(Scanning(k), home)], now, 3, 6, -1)
  }

  lemma SecondCallBegins(home: nat)
    ensures Run(Initial(home), Swallowed(home)[..5])
      == Some(State(home, map[home := Finished], map[0 := First(Nil), 1 := Second(Start, home)], 5, 3, -1, -1))
  {
    hide Run;
    FirstTaskFinishes(home);
    var s4 := State(home, map[home := Finished], map[0 := First(Nil)], 4, 3, -1, -1);
    var s5 := s4.(calls := map[0 := First(Nil), 1 := Second(Start, home)], now := 5);
    assert s4.calls[1 := Second(Start, home)] == s5.calls;
    Reach(home, 4, s4, s5);
  }

  function ConflictSeen(home: nat): State {
    State(home, map[home := Finished], map[0 := First(Nil), 1 := Second(Scanning(0), home)], 6, 3, -1, -1)
  }

  lemma SecondCallConflicts(home: nat)
    ensures Run(Initial(home), Swallowed(home)[..6]) == Some(ConflictSeen(home))
  {
    hide Run;
    SecondCallBegins(home);
    var s5 := State(home, map[home := Finished], map[0 := First(Nil), 1 := Second(Start, home)], 5, 3, -1, -1);
    var s6 := ConflictSeen(home);
    assert s5.calls[1 := Second(Scanning(0), home)] == s6.calls;
    Reach(home, 5, s5, s6);
  }

  lemma TaskIsForgotten(home: nat)
    ensures Run(Initial(home), Swallowed(home)[..7]) == Some(Searching(home, 0, 7))
  {
    hide Run;
    SecondCallConflicts(home);
    var s6 := ConflictSeen(home);
    assert s6.slots - {home} == map[];
    Reach(home, 6, s6, Searching(home, 0, 7));
  }

  lemma LookPast(home: nat, k: nat)
    requires k < 3 && home < QUEUES && Run(Initial(home), Swallowed(home)[..7 + k]) == Some(Searching(home, k, 7 + k))
    ensures Run(Initial(home), Swallowed(home)[..8 + k]) == Some(Searching(home, k + 1, 8 + k))
  {
    hide Run;
    var s := Searching(home, k, 7 + k);
    assert s.calls[1 := Second(Scanning(k + 1), home)] == Searching(home, k + 1, 8 + k).calls;
    Reach(home, 7 + k, s, Searching(home, k + 1, 8 + k));
  }

  lemma SearchesInVain(home: nat)
    requires home < QUEUES
    ensures Run(Initial(home), Swallowed(home)[..10]) == Some(Searching(home, 3, 10))
  {
    hide Run;
    TaskIsForgotten(home);
    LookPast(home, 0);
    LookPast(home, 1);
    LookPast(home, 2);
  }

  /** The call returns nil although nothing was queued for it. */
  lemma ForgottenTaskSwallowsARequest(home: nat)
    requires home < QUEUES
    ensures var t := Run(Initial(home), Swallowed(home));
      t.Some? && At(t.value, 1, Nil) && t.value.slots == map[] && !Answered(t.value, 1) && t.value.calls[1].lapsed
  {
    hide Run;
    SearchesInVain(home);
    var s := Searching(home, 3, 10);
    var t := s.(calls := s.calls[1 := Second(Nil, home)], now := 11);
    Reach(home, 10, s, t);
    assert Swallowed(home)[..11] == Swallowed(home);
  }

  /** So is the second way: every look fails, and the call returns nil although the
      finished task still holds the id. */
  lemma FailingLooksSwallowARequest(home: nat)
    requires home < QUEUES
    ensures var t := Run(Initial(home), Swallowed(home)[..6] + BLIND);
      t.Some? && At(t.value, 1, Nil) && t.value.slots == map[home := Finished] && !Answered(t.value, 1) && t.value.calls[1].blind
  {
    hide Run;
    SecondCallConflicts(home);
    LooksFail(home, Swallowed(home)[..6]);
  }

  lemma LooksFail(home: nat, steps: seq<Step>)
    requires home < QUEUES && Run(Initial(home), steps) == Some(Blind(home, 0))
    ensures Run(Initial(home), steps + BLIND) == Some(Apply(Blind(home, 3), Look(1)))
  {
    hide Run;
    assert steps + BLIND[..0] == steps;
    LooksBlindly(home, steps, 0);
    LooksBlindly(home, steps, 1);
    LooksBlindly(home, steps, 2);
    Extend(Initial(home), steps + BLIND[..3], Blind(home, 3), BLIND[3]);
    assert steps + BLIND[..3] + [BLIND[3]] == steps + BLIND;
  }

  const BLIND: seq<Step> := [LookFails(1), LookFails(1), LookFails(1), Look(1)]

  function Blind(home: nat, k: nat): State {
    State(home, map[home := Finished], map[0 := First(Nil), 1 := Call(Scanning(k), true, 4, 5, false, k > home)], 6 + k, 3, -1, -1)
  }

  lemma BlindStep(home: nat, k: nat)
    requires k < 3 && home < QUEUES
    ensures Enabled(Blind(home, k), LookFails(1)) && Apply(Blind(home, k), LookFails(1)) == Blind(home, k + 1)
  {
    assert DoLookBlindly(Blind(home, k), 1).calls == Blind(home, k + 1).calls;
  }

  lemma LooksBlindly(home: nat, steps: seq<Step>, k: nat)
    requires k < 3 && home < QUEUES && Run(Initial(home), steps + BLIND[..k]) == Some(Blind(home, k))
    ensures Run(Initial(home), steps + BLIND[..k + 1]) == Some(Blind(home, k + 1))
  {
    hide Run, Enabled, Apply;
    BlindStep(home, k);
    Extend(Initial(home), steps + BLIND[..k], Blind(home, k), LookFails(1));
    assert steps + BLIND[..k] + [LookFails(1)] == steps + BLIND[..k + 1];
  }

  // ----- A call gives up between deleting the task and enqueuing it again

  function Looks(id: nat, count: nat): seq<Step> {
    seq(count, _ => Look(id))
  }

  /** Call 1 finds the finished task, deletes it and fails; call 2 conflicted before
      the deletion and searches after it. */
  function Abandoning(home: nat): seq<Step> {
    Swallowed(home)[..6] + [Begin(2, true), FirstEnqueue(2)] + Looks(1, home + 1) + [Delete(1), CallFails(1)]
  }

  function Pair(home: nat, slots: Slots, one: Pc, two: Pc, now: nat, abandonedAt: int): State {
    State(home, slots,
          map[0 := First(Nil), 1 := Call(one, true, 4, 5, false, false),
              2 := Call(two, true, 6, if two.Start? then 6 else 7, false, false)],
          now, 3, -1, abandonedAt)
  }

  lemma BothConflict(home: nat)
    requires home < QUEUES
    ensures Run(Initial(home), Swallowed(home)[..6] + [Begin(2, true), FirstEnqueue(2)])
      == Some(Pair(home, map[home := Finished], Scanning(0), Scanning(0), 8, -1))
  {
    hide Run;
    SecondCallConflicts(home);
    var steps, s := Swallowed(home)[..6], ConflictSeen(home);
    var u := Pair(home, map[home := Finished], Scanning(0), Start, 7, -1);
    assert Apply(s, Begin(2, true)).calls == u.calls;
    Extend(Initial(home), steps, s, Begin(2, true));
    assert Apply(u, FirstEnqueue(2)).calls == Pair(home, u.slots, Scanning(0), Scanning(0), 8, -1).calls;
    Extend(Initial(home), steps + [Begin(2, true)], u, FirstEnqueue(2));
    assert steps + [Begin(2, true)] + [FirstEnqueue(2)] == steps + [Begin(2, true), FirstEnqueue(2)];
  }

  lemma {:induction false} LooksUpTo(home: nat, steps: seq<Step>, k: nat)
    requires k <= home < QUEUES
    requires Run(Initial(home), steps) == Some(Pair(home, map[home := Finished], Scanning(0), Scanning(0), 8, -1))
    ensures Run(Initial(home), steps + Looks(1, k))
      == Some(Pair(home, map[home := Finished], Scanning(k), Scanning(0), 8 + k, -1))
  {
    hide Run;
    if k == 0 {
      assert steps + Looks(1, 0) == steps;
    } else {
      LooksUpTo(home, steps, k - 1);
      var s := Pair(home, map[home := Finished], Scanning(k - 1), Scanning(0), 7 + k, -1);
      assert Apply(s, Look(1)).calls == Pair(home, s.slots, Scanning(k), Scanning(0), 8 + k, -1).calls;
      Extend(Initial(home), steps + Looks(1, k - 1), s, Look(1));
      assert steps + Looks(1, k - 1) + [Look(1)] == steps + Looks(1, k);
    }
  }

  lemma FirstCallGivesUp(home: nat)
    requires home < QUEUES
    ensures Run(Initial(home), Abandoning(home)) == Some(Pair(home, map[], Failed, Scanning(0), 11 + home, 10 + home))
  {
    hide Run;
    BothConflict(home);
    var steps := Swallowed(home)[..6] + [Begin(2, true), FirstEnqueue(2)];
    LooksUpTo(home, steps, home);
    var s := Pair(home, map[home := Finished], Scanning(home), Scanning(0), 8 + home, -1);
    var u := Pair(home, map[home := Finished], FoundFinished, Scanning(0), 9 + home, -1);
    assert Apply(s, Look(1)).calls == u.calls;
    Extend(Initial(home), steps + Looks(1, home), s, Look(1));
    assert steps + Looks(1, home) + [Look(1)] == steps + Looks(1, home + 1);
    DeletesAndFails(home, steps + Looks(1, home + 1));
    assert Abandoning(home) == steps + Looks(1, home + 1) + [Delete(1), CallFails(1)];
  }

  lemma DeletesAndFails(home: nat, steps: seq<Step>)
    requires Run(Initial(home), steps) == Some(Pair(home, map[home := Finished], FoundFinished, Scanning(0), 9 + home, -1))
    ensures Run(Initial(home), steps + [Delete(1), CallFails(1)])
      == Some(Pair(home, map[], Failed, Scanning(0), 11 + home, 10 + home))
  {
    hide Run;
    var u := Pair(home, map[home := Finished], FoundFinished, Scanning(0), 9 + home, -1);
    var v := Pair(home, map[], Reenqueueing, Scanning(0), 10 + home, -1);
    assert u.slots - {home} == map[];
    assert Apply(u, Delete(1)).calls == v.calls;
    Extend(Initial(home), steps, u, Delete(1));
    assert Apply(v, CallFails(1)).calls == Pair(home, map[], Failed, Scanning(0), 11 + home, 10 + home).calls;
    Extend(Initial(home), steps + [Delete(1)], v, CallFails(1));
    assert steps + [Delete(1)] + [CallFails(1)] == steps + [Delete(1), CallFails(1)];
  }

  lemma {:induction false} SecondSearches(home: nat, steps: seq<Step>, k: nat)
    requires k <= QUEUES && home < QUEUES
    requires Run(Initial(home), steps) == Some(Pair(home, map[], Failed, Scanning(0), 11 + home, 10 + home))
    ensures Run(Initial(home), steps + Looks(2, k))
      == Some(Pair(home, map[], Failed, Scanning(k), 11 + home + k, 10 + home))
  {
    hide Run;
    if k == 0 {
      assert steps + Looks(2, 0) == steps;
    } else {
      SecondSearches(home, steps, k - 1);
      var s := Pair(home, map[], Failed, Scanning(k - 1), 10 + home + k, 10 + home);
      assert Apply(s, Look(2)).calls == Pair(home, map[], Failed, Scanning(k), 11 + home + k, 10 + home).calls;
      Extend(Initial(home), steps + Looks(2, k - 1), s, Look(2));
      assert steps + Looks(2, k - 1) + [Look(2)] == steps + Looks(2, k);
    }
  }

  /** And the third: the finished task is gone, nothing was queued in its place, and
      the second call returns nil. */
  lemma AbandonedTaskSwallowsARequest(home: nat)
    requires home < QUEUES
    ensures var t := Run(Initial(home), Abandoning(home) + Looks(2, QUEUES + 1));
      t.Some? && At(t.value, 1, Failed) && At(t.value, 2, Nil) && t.value.slots == map[] && !Answered(t.value, 2)
      && AbandonedSince(t.value, t.value.calls[2].conflicted) && !t.value.calls[2].lapsed && !t.value.calls[2].blind
  {
    hide Run;
    FirstCallGivesUp(home);
    SecondSearches(home, Abandoning(home), QUEUES);
    var s := Pair(home, map[], Failed, Scanning(QUEUES), 14 + home, 10 + home);
    var t := Pair(home, map[], Failed, Nil, 15 + home, 10 + home);
    assert Apply(s, Look(2)).calls == t.calls;
    Extend(Initial(home), Abandoning(home) + Looks(2, QUEUES), s, Look(2));
    assert Abandoning(home) + Looks(2, QUEUES) + [Look(2)] == Abandoning(home) + Looks(2, QUEUES + 1);
  }
}
