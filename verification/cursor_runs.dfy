/** The window a fetch run asks for and the trail it leaves on the cursor
    (internal/ingest/fetch.go): what one run does to the shared state, event by
    event. */
module RunLog {
  import opened Readings

  /** What reading the cursor row answered. A row can exist without a last
      timestamp; a failing read is neither found nor not found. */
  datatype CursorRead = Row(lastTs: Option<int>) | NotFound | ReadFailed

  /** `advances`: this run may move the live cursor at all. */
  datatype Resolved = Resolved(window: Window, advances: bool)

  function ResolveFetchWindow(read: CursorRead, explicit: Option<Window>, now: int, lookback: int): Option<Resolved> {
    match explicit
    case Some(w) =>
      (match read
       case Row(Some(lastTs)) => Some(Resolved(w, !(lastTs < w.from)))
       case Row(None) => Some(Resolved(w, false))
       case NotFound => Some(Resolved(w, false))
       case ReadFailed => None)
    case None =>
      (match read
       case Row(Some(lastTs)) => Some(Resolved(Window(lastTs, now), true))
       case Row(None) => Some(Resolved(Window(now - lookback, now), true))
       case NotFound => Some(Resolved(Window(now - lookback, now), true))
       case ReadFailed => None)
  }

  /** Only a cursor-driven run may start before the cursor exists and still
      move it; an advancing explicit window never starts past the cursor. */
  lemma AdvancingRunsStartAtOrBeforeTheCursor(read: CursorRead, explicit: Option<Window>, now: int, lookback: int)
    ensures var r := ResolveFetchWindow(read, explicit, now, lookback);
      r.Some? && r.value.advances ==>
        if read.Row? && read.lastTs.Some? then r.value.window.from <= read.lastTs.value
        else explicit.None? && r.value.window.from == now - lookback
  {
  }

  /** `Served(lo, hi, rows)`: page [lo, hi) accepted these rows, they are stored
      and every hook succeeded. `Recorded(ts)`: the cursor was told ts. */
  datatype Event = Served(lo: int, hi: int, rows: seq<Reading>) | Recorded(ts: int)

  /** How far a run's served pages reach, and its last served page. */
  datatype Progress = Progress(from: int, frontier: int, last: Window, advances: bool)

  function Started(from: int, advances: bool): Progress {
    Progress(from, from, Window(from, from), advances)
  }

  /** A page starts inside what the run already served; a recorded timestamp
      lies in the last served page. */
  predicate CanDo(p: Progress, e: Event) {
    match e
    case Served(lo, hi, _) => p.from <= lo <= p.frontier
    case Recorded(ts) => p.advances && In(ts, p.last)
  }

  function Do(p: Progress, e: Event): Progress {
    match e
    case Served(lo, hi, _) => p.(frontier := Max(p.frontier, hi), last := Window(lo, hi))
    case Recorded(ts) => p
  }

  function Replay(p: Progress, log: seq<Event>): (r: Progress)
    ensures r.from == p.from && r.advances == p.advances
  {
    if log == [] then p else Do(Replay(p, log[..|log| - 1]), log[|log| - 1])
  }

  /** The discipline every run keeps. */
  predicate Disciplined(p: Progress, log: seq<Event>) {
    log == [] ||
    (Disciplined(p, log[..|log| - 1]) && CanDo(Replay(p, log[..|log| - 1]), log[|log| - 1]))
  }

  lemma DisciplinedExtends(p: Progress, log: seq<Event>, e: Event)
    ensures Disciplined(p, log + [e]) <==> Disciplined(p, log) && CanDo(Replay(p, log), e)
    ensures Replay(p, log + [e]) == Do(Replay(p, log), e)
  {
    assert (log + [e])[..|log + [e]| - 1] == log;
  }

  /** The batches of the pages a log served, empty pages aside. */
  function BatchesOf(log: seq<Event>): seq<seq<Reading>> {
    if log == [] then []
    else
      var before := BatchesOf(log[..|log| - 1]);
      match log[|log| - 1]
      case Served(_, _, rows) => if rows == [] then before else before + [rows]
      case Recorded(_) => before
  }

  lemma BatchesExtend(log: seq<Event>, e: Event)
    ensures BatchesOf(log + [e]) == if e.Recorded? || e.rows == [] then BatchesOf(log) else BatchesOf(log) + [e.rows]
  {
    assert (log + [e])[..|log|] == log;
  }

  /** They are the rows of the log's non-empty pages. */
  lemma {:induction false} BatchesAreServedRows(log: seq<Event>, batch: seq<Reading>)
    ensures batch in BatchesOf(log) <==> batch != [] && exists i :: 0 <= i < |log| && log[i].Served? && log[i].rows == batch
  {
    if log != [] {
      var front, last := log[..|log| - 1], log[|log| - 1];
      BatchesAreServedRows(front, batch);
      if i :| 0 <= i < |log| && log[i].Served? && log[i].rows == batch {
        assert i < |front| ==> front[i] == log[i];
      }
      if i :| 0 <= i < |front| && front[i].Served? && front[i].rows == batch {
        assert log[i] == front[i];
      }
      assert last.Served? && last.rows == batch ==> log[|log| - 1].Served?;
    }
  }

  /** The high-water mark the cursor repository stores. */
  function Greatest(cursor: Option<int>, ts: int): Option<int> {
    match cursor
    case None => Some(ts)
    case Some(c) => Some(Max(c, ts))
  }

  function CursorAfter(cursor: Option<int>, log: seq<Event>): Option<int> {
    if log == [] then cursor
    else
      var before := CursorAfter(cursor, log[..|log| - 1]);
      match log[|log| - 1]
      case Served(_, _, _) => before
      case Recorded(ts) => Greatest(before, ts)
  }
}

/** Any number of runs of one analyzer and kind, interleaved event by event and
    each stopping wherever it fails. */
module CursorRuns {
  import opened Readings
  import opened RunLog

  /** Where a run stands with its page's accepted rows. */
  datatype Batch = NoBatch | Inserted(rows: seq<Reading>) | Hooked(rows: seq<Reading>)

  /** `cursorless`: the run resolved its window before any cursor existed. */
  datatype Live = Live(progress: Progress, cursorless: bool, batch: Batch)

  /** A served page and the rows it accepted. */
  datatype Page = Page(window: Window, rows: seq<Reading>)

  /** `origin` is the window start of the run that created the cursor; `stored` and
      `hooked` are the batches the database took and those whose hooks succeeded. */
  datatype State = State(cursor: Option<int>, origin: int, served: seq<Page>, stored: seq<seq<Reading>>,
                         hooked: seq<seq<Reading>>, runs: map<nat, Live>)

  const INITIAL := State(None, 0, [], [], [], map[])

  datatype Step =
    | Begin(id: nat, explicit: Option<Window>, now: int, lookback: int, readFails: bool)
    | Insert(id: nat, rows: seq<Reading>)
    | RunHooks(id: nat)
    | Act(id: nat, event: Event)
    | Stop(id: nat)

  function ReadOf(s: State, readFails: bool): CursorRead {
    if readFails then ReadFailed else if s.cursor.None? then NotFound else Row(s.cursor)
  }

  function Opening(s: State, step: Step): Option<Resolved>
    requires step.Begin?
  {
    ResolveFetchWindow(ReadOf(s, step.readFails), step.explicit, step.now, step.lookback)
  }

  predicate Enabled(s: State, step: Step) {
    match step
    case Begin(id, _, _, _, _) => id !in s.runs
    case Insert(id, rows) => id in s.runs && s.runs[id].batch.NoBatch? && rows != []
    case RunHooks(id) => id in s.runs && s.runs[id].batch.Inserted?
    case Act(id, e) => id in s.runs && CanDo(s.runs[id].progress, e) && s.runs[id].batch == BatchFor(e)
    case Stop(id) => id in s.runs
  }

  /** A page with accepted rows is served only after its insert and its hooks. */
  function BatchFor(e: Event): Batch {
    match e
    case Served(_, _, rows) => if rows == [] then NoBatch else Hooked(rows)
    case Recorded(_) => NoBatch
  }

  function Apply(s: State, step: Step): State
    requires Enabled(s, step)
  {
    match step
    case Begin(id, explicit, now, lookback, readFails) =>
      (match Opening(s, step)
       case None => s
       case Some(r) =>
         s.(runs := s.runs[id := Live(Started(r.window.from, r.advances), r.advances && s.cursor.None?, NoBatch)]))
    case Insert(id, rows) =>
      s.(stored := s.stored + [rows], runs := s.runs[id := s.runs[id].(batch := Inserted(rows))])
    case RunHooks(id) =>
      var rows := s.runs[id].batch.rows;
      s.(hooked := s.hooked + [rows], runs := s.runs[id := s.runs[id].(batch := Hooked(rows))])
    case Act(id, Served(lo, hi, rows)) =>
      s.(served := s.served + [Page(Window(lo, hi), rows)],
         runs := s.runs[id := s.runs[id].(progress := Do(s.runs[id].progress, Served(lo, hi, rows)), batch := NoBatch)])
    case Act(id, Recorded(ts)) =>
      s.(cursor := Greatest(s.cursor, ts),
         origin := if s.cursor.None? then s.runs[id].progress.from else s.origin)
    case Stop(id) => s.(runs := s.runs - {id})
  }

  /** The state after a sequence of steps; None when some step was not enabled. */
  function Run(s: State, steps: seq<Step>): Option<State> {
    if steps == [] then Some(s)
    else
      var mid := Run(s, steps[..|steps| - 1]);
      if mid.Some? && Enabled(mid.value, steps[|steps| - 1])
      then Some(Apply(mid.value, steps[|steps| - 1])) else None
  }

  // ----- Coverage

  ghost predicate Covered(s: State, t: int) {
    exists k :: 0 <= k < |s.served| && In(t, s.served[k].window)
  }

  ghost predicate CoveredRange(s: State, lo: int, hi: int) {
    forall t :: lo <= t < hi ==> Covered(s, t)
  }

  /** Every instant from the creating run's window start up to the cursor lies
      in a served page. */
  ghost predicate NoGap(s: State) {
    s.cursor.Some? ==> CoveredRange(s, s.origin, s.cursor.value + 1)
  }

  ghost predicate RunOk(s: State, live: Live) {
    var p := live.progress;
    && p.from <= p.frontier && p.from <= p.last.from && p.last.to <= p.frontier
    && CoveredRange(s, p.from, p.frontier)
    && (live.cursorless ==> p.advances)
    && (p.advances && !live.cursorless ==> s.cursor.Some? && p.from <= s.cursor.value)
  }

  ghost predicate RunsOk(s: State) {
    forall id :: id in s.runs ==> RunOk(s, s.runs[id])
  }

  lemma MoreServed(s: State, t: State, lo: int, hi: int)
    requires s.served <= t.served && CoveredRange(s, lo, hi)
    ensures CoveredRange(t, lo, hi)
  {
    forall x | lo <= x < hi ensures Covered(t, x) {
      assert Covered(s, x);
      var k :| 0 <= k < |s.served| && In(x, s.served[k].window);
      assert In(x, t.served[k].window);
    }
  }

  lemma ServeKeepsRuns(s: State, id: nat, lo: int, hi: int, rows: seq<Reading>)
    requires RunsOk(s) && Enabled(s, Act(id, Served(lo, hi, rows)))
    ensures RunsOk(Apply(s, Act(id, Served(lo, hi, rows))))
    ensures NoGap(s) ==> NoGap(Apply(s, Act(id, Served(lo, hi, rows))))
  {
    var t := Apply(s, Act(id, Served(lo, hi, rows)));
    if s.cursor.Some? && NoGap(s) {
      MoreServed(s, t, s.origin, s.cursor.value + 1);
    }
    forall j | j in t.runs ensures RunOk(t, t.runs[j]) {
      var p := s.runs[j].progress;
      MoreServed(s, t, p.from, p.frontier);
      if j == id {
        var page := Page(Window(lo, hi), rows);
        assert t.served[|s.served|] == page;
        forall x | p.from <= x < Max(p.frontier, hi) ensures Covered(t, x) {
          if x >= p.frontier {
            assert In(x, t.served[|s.served|].window);
          }
        }
      }
    }
  }

  lemma {:induction false} StepKeepsRuns(s: State, step: Step)
    requires RunsOk(s) && Enabled(s, step)
    ensures RunsOk(Apply(s, step))
    ensures !(step.Act? && step.event.Recorded?) && NoGap(s) ==> NoGap(Apply(s, step))
  {
    var t := Apply(s, step);
    match step
    case Act(id, Served(lo, hi, rows)) => ServeKeepsRuns(s, id, lo, hi, rows);
    case _ =>
      assert t.served == s.served;
      forall j | j in t.runs ensures RunOk(t, t.runs[j]) {
        if j in s.runs && t.runs[j].progress == s.runs[j].progress {
          MoreServed(s, t, s.runs[j].progress.from, s.runs[j].progress.frontier);
        }
      }
      if s.cursor.Some? && NoGap(s) {
        MoreServed(s, t, s.origin, s.cursor.value + 1);
      }
  }

  // ----- Served pages are stored and hooked

  ghost predicate BatchOk(s: State, b: Batch) {
    match b
    case NoBatch => true
    case Inserted(rows) => rows in s.stored
    case Hooked(rows) => rows in s.stored && rows in s.hooked
  }

  /** Accepted rows of a served page were stored before and their hooks succeeded. */
  ghost predicate ServedAreStored(s: State) {
    && (forall k :: 0 <= k < |s.served| && s.served[k].rows != [] ==>
         s.served[k].rows in s.stored && s.served[k].rows in s.hooked)
    && (forall id :: id in s.runs ==> BatchOk(s, s.runs[id].batch))
  }

  lemma {:induction false} StepKeepsStored(s: State, step: Step)
    requires ServedAreStored(s) && Enabled(s, step)
    ensures ServedAreStored(Apply(s, step))
  {
    var t := Apply(s, step);
    assert forall rows :: rows in s.stored ==> rows in t.stored;
    assert forall rows :: rows in s.hooked ==> rows in t.hooked;
    forall id | id in t.runs ensures BatchOk(t, t.runs[id].batch) {
      if id in s.runs {
        assert BatchOk(s, s.runs[id].batch);
      }
    }
  }

  /** An instant of a page whose accepted rows are stored and hooked. */
  ghost predicate InStoredPage(s: State, t: int) {
    exists k | 0 <= k < |s.served| && In(t, s.served[k].window) ::
      s.served[k].rows == [] || (s.served[k].rows in s.stored && s.served[k].rows in s.hooked)
  }

  lemma CoveredIsStored(s: State)
    requires ServedAreStored(s) && NoGap(s)
    ensures s.cursor.Some? ==> forall t :: s.origin <= t <= s.cursor.value ==> InStoredPage(s, t)
  {
    if s.cursor.Some? {
      forall t | s.origin <= t <= s.cursor.value ensures InStoredPage(s, t) {
        assert Covered(s, t);
      }
    }
  }

  // ----- When a record keeps the coverage

  /** The guard: a run that started before the cursor existed must, by the time
      it pushes someone else's cursor forward, start inside what is served. */
  ghost predicate StartsInsideServed(s: State, id: nat, ts: int)
    requires id in s.runs
  {
    s.cursor.Some? && s.runs[id].cursorless && ts > s.cursor.value ==>
      CoveredRange(s, s.origin, s.runs[id].progress.from)
  }

  /** Recording a timestamp leaves no gap iff the guard holds. */
  lemma RecordKeepsNoGapIff(s: State, id: nat, ts: int)
    requires RunsOk(s) && NoGap(s) && Enabled(s, Act(id, Recorded(ts)))
    ensures NoGap(Apply(s, Act(id, Recorded(ts)))) <==> StartsInsideServed(s, id, ts)
  {
    var t := Apply(s, Act(id, Recorded(ts)));
    var p := s.runs[id].progress;
    MoreServed(s, t, p.from, p.frontier);
    if s.cursor.Some? {
      MoreServed(s, t, s.origin, s.cursor.value + 1);
      if ts > s.cursor.value && s.runs[id].cursorless {
        if CoveredRange(s, s.origin, p.from) {
          MoreServed(s, t, s.origin, p.from);
        }
        if NoGap(t) {
          forall x | s.origin <= x < p.from ensures Covered(s, x) {
            assert Covered(t, x);
          }
        }
      }
    }
  }

  /** Every record of the run obeys it. */
  ghost predicate Guarded(s: State, steps: seq<Step>)
    requires Run(s, steps).Some?
  {
    steps == [] ||
    (var front, last := steps[..|steps| - 1], steps[|steps| - 1];
     Guarded(s, front) &&
     (last.Act? && last.event.Recorded? ==> StartsInsideServed(Run(s, front).value, last.id, last.event.ts)))
  }

  /** No run ever skips a gap: whatever the interleaving and wherever runs
      fail, as long as every record obeys the guard, every instant from the first
      run's start to the cursor lies in a page whose accepted rows are stored and
      whose hooks succeeded. */
  lemma NoRunSkipsAGap(steps: seq<Step>)
    requires Run(INITIAL, steps).Some? && Guarded(INITIAL, steps)
    ensures var t := Run(INITIAL, steps).value;
      && RunsOk(t) && NoGap(t) && ServedAreStored(t)
      && (t.cursor.Some? ==> forall x :: t.origin <= x <= t.cursor.value ==> InStoredPage(t, x))
  {
    GuardedRunsLeaveNoGap(steps);
    CoveredIsStored(Run(INITIAL, steps).value);
  }

  lemma {:induction false} GuardedRunsLeaveNoGap(steps: seq<Step>)
    requires Run(INITIAL, steps).Some? && Guarded(INITIAL, steps)
    ensures var t := Run(INITIAL, steps).value; RunsOk(t) && NoGap(t) && ServedAreStored(t)
  {
    if steps != [] {
      var front, last := steps[..|steps| - 1], steps[|steps| - 1];
      var mid := Run(INITIAL, front).value;
      GuardedRunsLeaveNoGap(front);
      StepKeepsStored(mid, last);
      StepKeepsRuns(mid, last);
      if last.Act? && last.event.Recorded? {
        RecordKeepsNoGapIff(mid, last.id, last.event.ts);
      }
    }
  }

  /** Every served page is one some run served, with the rows its event names. */
  lemma {:induction false} ServedPagesAreEvents(steps: seq<Step>)
    requires Run(INITIAL, steps).Some?
    ensures forall page :: page in Run(INITIAL, steps).value.served ==>
      exists i :: 0 <= i < |steps| && steps[i].Act? && steps[i].event == Served(page.window.from, page.window.to, page.rows)
  {
    if steps != [] {
      var front, last := steps[..|steps| - 1], steps[|steps| - 1];
      ServedPagesAreEvents(front);
      forall page | page in Run(INITIAL, steps).value.served
        ensures exists i :: 0 <= i < |steps| && steps[i].Act? && steps[i].event == Served(page.window.from, page.window.to, page.rows)
      {
        if page in Run(INITIAL, front).value.served {
          var i :| 0 <= i < |front| && front[i].Act? && front[i].event == Served(page.window.from, page.window.to, page.rows);
          assert steps[i] == front[i];
        } else {
          assert steps[|steps| - 1].Act? && last.event == Served(page.window.from, page.window.to, page.rows);
        }
      }
    }
  }

  // ----- A guard a run can check

  /** Before it moves someone else's cursor, a run compares its window's start with it. */
  predicate BeganByTheCursor(s: State, id: nat, ts: int)
    requires id in s.runs
  {
    s.cursor.Some? && ts > s.cursor.value ==> s.runs[id].progress.from <= s.cursor.value
  }

  /** Every record of the run passes that check. */
  ghost predicate Checked(s: State, steps: seq<Step>)
    requires Run(s, steps).Some?
  {
    steps == [] ||
    (var front, last := steps[..|steps| - 1], steps[|steps| - 1];
     Checked(s, front) && (last.Act? && last.event.Recorded? ==> BeganByTheCursor(Run(s, front).value, last.id, last.event.ts)))
  }

  lemma {:induction false} CheckedIsGuarded(steps: seq<Step>)
    requires Run(INITIAL, steps).Some? && Checked(INITIAL, steps)
    ensures Guarded(INITIAL, steps)
  {
    if steps != [] {
      CheckedIsGuarded(steps[..|steps| - 1]);
      GuardedRunsLeaveNoGap(steps[..|steps| - 1]);
    }
  }

  /** A run that records only after that check never skips a gap; runs that began with
      a cursor, or explicit windows that may move it, always pass it. */
  lemma CheckedRunsSkipNoGap(steps: seq<Step>)
    requires Run(INITIAL, steps).Some? && Checked(INITIAL, steps)
    ensures var t := Run(INITIAL, steps).value;
      && RunsOk(t) && NoGap(t) && ServedAreStored(t)
      && (t.cursor.Some? ==> forall x :: t.origin <= x <= t.cursor.value ==> InStoredPage(t, x))
  {
    CheckedIsGuarded(steps);
    NoRunSkipsAGap(steps);
  }

  lemma RunsWithACursorPass(s: State, id: nat, ts: int)
    requires RunsOk(s) && Enabled(s, Act(id, Recorded(ts))) && !s.runs[id].cursorless
    ensures BeganByTheCursor(s, id, ts)
  {
    assert RunOk(s, s.runs[id]);
  }

  /** The cursor never moves backwards, guard or no guard. */
  lemma {:induction false} CursorNeverRetreats(s: State, steps: seq<Step>)
    requires Run(s, steps).Some?
    ensures var t := Run(s, steps).value;
      s.cursor.Some? ==> t.cursor.Some? && t.cursor.value >= s.cursor.value && t.origin == s.origin
  {
    if steps != [] {
      CursorNeverRetreats(s, steps[..|steps| - 1]);
    }
  }

  /** An event of a run, after the insert and the hooks it needs. */
  function StepsFor(id: nat, e: Event): seq<Step> {
    if e.Served? && e.rows != [] then [Insert(id, e.rows), RunHooks(id), Act(id, e)] else [Act(id, e)]
  }

  lemma RunStepsFor(s: State, id: nat, e: Event)
    requires id in s.runs && s.runs[id].batch.NoBatch? && CanDo(s.runs[id].progress, e)
    ensures var t := Run(s, StepsFor(id, e));
      t.Some? && id in t.value.runs && t.value.runs[id].progress == Do(s.runs[id].progress, e) && t.value.runs[id].batch.NoBatch?
  {
    var steps := StepsFor(id, e);
    assert steps[..0] == [];
    assert Run(s, steps[..0]) == Some(s);
    assert steps[..1][..0] == steps[..0];
    if e.Served? && e.rows != [] {
      assert steps[..2][..1] == steps[..1] && steps[..3] == steps && steps[..3][..2] == steps[..2];
      var s1 := Apply(s, Insert(id, e.rows));
      assert Run(s, steps[..1]) == Some(s1);
      assert Run(s, steps[..2]) == Some(Apply(s1, RunHooks(id)));
    } else {
      assert steps[..1] == steps;
    }
  }

  /** The machine runs exactly the disciplined logs: whatever the other runs do, the
      next event of a disciplined log can happen once its rows are stored and hooked,
      and it leaves the run where the log's replay does. */
  lemma DisciplinedLogsRun(s: State, id: nat, start: Progress, log: seq<Event>, k: nat)
    requires k < |log| && Disciplined(start, log)
    requires id in s.runs && s.runs[id].progress == Replay(start, log[..k]) && s.runs[id].batch.NoBatch?
    ensures var t := Run(s, StepsFor(id, log[k]));
      t.Some? && id in t.value.runs && t.value.runs[id].progress == Replay(start, log[..k + 1]) && t.value.runs[id].batch.NoBatch?
  {
    DisciplinedPrefix(start, log, k + 1);
    assert log[..k + 1][..k] == log[..k];
    RunStepsFor(s, id, log[k]);
  }

  lemma {:induction false} DisciplinedPrefix(start: Progress, log: seq<Event>, k: nat)
    requires k <= |log| && Disciplined(start, log)
    ensures Disciplined(start, log[..k])
  {
    if k == |log| {
      assert log[..k] == log;
    } else {
      DisciplinedPrefix(start, log[..|log| - 1], k);
      assert log[..|log| - 1][..k] == log[..k];
    }
  }

  // ----- A simple way to satisfy the guard

  /** No run starts cursor-driven without a cursor while another such run lives. */
  ghost predicate OneCreatorAtATime(s: State, step: Step) {
    step.Begin? && s.cursor.None? && step.explicit.None? ==> forall id :: id in s.runs ==> !s.runs[id].cursorless
  }

  ghost predicate CreatorOk(s: State) {
    && (forall i, j :: i in s.runs && j in s.runs && s.runs[i].cursorless && s.runs[j].cursorless ==> i == j)
    && (forall i :: i in s.runs && s.runs[i].cursorless && s.cursor.Some? ==> s.origin == s.runs[i].progress.from)
  }

  lemma CreatorStep(s: State, step: Step)
    requires RunsOk(s) && CreatorOk(s) && Enabled(s, step) && OneCreatorAtATime(s, step)
    ensures CreatorOk(Apply(s, step))
    ensures step.Act? && step.event.Recorded? ==> StartsInsideServed(s, step.id, step.event.ts)
  {
    if step.Begin? {
      AdvancingRunsStartAtOrBeforeTheCursor(ReadOf(s, step.readFails), step.explicit, step.now, step.lookback);
    } else if step.Act? {
      assert RunOk(s, s.runs[step.id]);
    }
  }

  ghost predicate Exclusive(s: State, steps: seq<Step>)
    requires Run(s, steps).Some?
  {
    steps == [] ||
    (Exclusive(s, steps[..|steps| - 1]) && OneCreatorAtATime(Run(s, steps[..|steps| - 1]).value, steps[|steps| - 1]))
  }

  /** When creating runs never overlap, the guard holds by itself. */
  lemma {:induction false} ExclusiveCreatorsLeaveNoGap(steps: seq<Step>)
    requires Run(INITIAL, steps).Some? && Exclusive(INITIAL, steps)
    ensures var t := Run(INITIAL, steps).value; RunsOk(t) && NoGap(t) && CreatorOk(t)
  {
    if steps != [] {
      var front, last := steps[..|steps| - 1], steps[|steps| - 1];
      var mid := Run(INITIAL, front).value;
      ExclusiveCreatorsLeaveNoGap(front);
      CreatorStep(mid, last);
      StepKeepsRuns(mid, last);
      if last.Act? && last.event.Recorded? {
        RecordKeepsNoGapIff(mid, last.id, last.event.ts);
      }
    }
  }

  // ----- Two overlapping creators

  /** Run 0 starts at instant 100 and run 1 at 200, both looking back 100 and
      both before any cursor exists; each serves one page and records it. */
  const OVERLAP: seq<Step> := [
    Begin(0, None, 100, 100, false),
    Begin(1, None, 200, 100, false),
    Act(0, Served(0, 10, [])),
    Act(0, Recorded(5)),
    Act(1, Served(100, 110, [])),
    Act(1, Recorded(105))
  ]

  lemma Extend(steps: seq<Step>, s: State, last: Step)
    requires Run(INITIAL, steps) == Some(s) && Enabled(s, last)
    ensures Run(INITIAL, steps + [last]) == Some(Apply(s, last))
  {
    assert (steps + [last])[..|steps + [last]| - 1] == steps;
  }

  const FIRST_PAGE := Page(Window(0, 10), [])
  const SECOND_PAGE := Page(Window(100, 110), [])

  lemma OverlapRuns()
    ensures Run(INITIAL, OVERLAP) == Some(State(Some(105), 0, [FIRST_PAGE, SECOND_PAGE], [], [],
      map[0 := Live(Progress(0, 10, Window(0, 10), true), true, NoBatch),
          1 := Live(Progress(100, 110, Window(100, 110), true), true, NoBatch)]))
  {
    var a0, b0 := Live(Started(0, true), true, NoBatch), Live(Started(100, true), true, NoBatch);
    var a1 := Live(Progress(0, 10, Window(0, 10), true), true, NoBatch);
    var s2 := INITIAL.(runs := map[0 := a0, 1 := b0]);
    var s3 := s2.(served := [FIRST_PAGE], runs := map[0 := a1, 1 := b0]);
    var s4 := s3.(cursor := Some(5));
    var s5 := s4.(served := [FIRST_PAGE, SECOND_PAGE],
                  runs := map[0 := a1, 1 := Live(Progress(100, 110, Window(100, 110), true), true, NoBatch)]);
    Extend([], INITIAL, OVERLAP[0]);
    Extend(OVERLAP[..1], INITIAL.(runs := map[0 := a0]), OVERLAP[1]);
    Extend(OVERLAP[..2], s2, OVERLAP[2]);
    assert Apply(s2, OVERLAP[2]) == s3 && OVERLAP[..2] + [OVERLAP[2]] == OVERLAP[..3];
    Extend(OVERLAP[..3], s3, OVERLAP[3]);
    assert OVERLAP[..3] + [OVERLAP[3]] == OVERLAP[..4];
    Extend(OVERLAP[..4], s4, OVERLAP[4]);
    assert Apply(s4, OVERLAP[4]) == s5 && OVERLAP[..4] + [OVERLAP[4]] == OVERLAP[..5];
    Extend(OVERLAP[..5], s5, OVERLAP[5]);
    assert OVERLAP[..5] + [OVERLAP[5]] == OVERLAP;
  }

  /** Without the guard a gap can open: the cursor ends at 105 although instant
      50 was never served, and the next cursor-driven run resumes from 105. */
  lemma OverlappingCreatorsSkipAGap(now: int, lookback: int)
    ensures Run(INITIAL, OVERLAP).Some?
    ensures var t := Run(INITIAL, OVERLAP).value;
      && t.cursor == Some(105) && t.origin <= 50 && !Covered(t, 50) && !NoGap(t)
      && ResolveFetchWindow(ReadOf(t, false), None, now, lookback) == Some(Resolved(Window(105, now), true))
  {
    OverlapRuns();
    var t := Run(INITIAL, OVERLAP).value;
    assert !Covered(t, 50);
    assert !CoveredRange(t, 0, 106);
  }
}
