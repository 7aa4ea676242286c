/** Filling a demo analyzer's hourly series, and resuming it
    (internal/seed/readings.go, internal/seed/demo.go). */
module SeedReadings {
  import opened Readings

  // ----- One hour's consumption

  datatype Indexes = Indexes(active: real, reactiveInductive: real, reactiveCapacitive: real)

  const BASE := Indexes(100000.0, 20000.0, 4000.0)

  /** A metered site: what the hour starting at an instant adds. */
  datatype Site = Site(added: int -> Indexes)

  function Advanced(r: Indexes, site: Site, ts: int): Indexes {
    var d := site.added(ts);
    Indexes(r.active + d.active, r.reactiveInductive + d.reactiveInductive, r.reactiveCapacitive + d.reactiveCapacitive)
  }

  predicate NotBelow(a: Indexes, b: Indexes) {
    a.active <= b.active && a.reactiveInductive <= b.reactiveInductive && a.reactiveCapacitive <= b.reactiveCapacitive
  }

  /** No hour takes anything away. */
  ghost predicate NeverFalls(site: Site) {
    forall ts :: NotBelow(Indexes(0.0, 0.0, 0.0), site.added(ts))
  }

  /** The mutable registers a fill carries along. */
  class DemoRegisters {
    var active: real
    var reactiveInductive: real
    var reactiveCapacitive: real

    constructor (r: Indexes)
      ensures Value() == r
    {
      active, reactiveInductive, reactiveCapacitive := r.active, r.reactiveInductive, r.reactiveCapacitive;
    }

    function Value(): Indexes
      reads this
    {
      Indexes(active, reactiveInductive, reactiveCapacitive)
    }

    method Advance(site: Site, ts: int)
      modifies this
      ensures Value() == Advanced(old(Value()), site, ts)
      ensures active == old(active) + site.added(ts).active
      ensures reactiveInductive == old(reactiveInductive) + site.added(ts).reactiveInductive
      ensures reactiveCapacitive == old(reactiveCapacitive) + site.added(ts).reactiveCapacitive
    {
      var added := site.added(ts);
      active := active + added.active;
      reactiveInductive := reactiveInductive + added.reactiveInductive;
      reactiveCapacitive := reactiveCapacitive + added.reactiveCapacitive;
    }
  }

  // ----- The series

  type Series = map<int, Indexes>

  /** The registers k hours after start. */
  function RegistersAt(site: Site, r: Indexes, start: int, k: nat): Indexes {
    if k == 0 then r else Advanced(RegistersAt(site, r, start, k - 1), site, start + (k - 1) * HOUR)
  }

  /** The sum of one value over the first k hours from start. */
  function SumOver(added: int -> real, start: int, k: nat): real {
    if k == 0 then 0.0 else SumOver(added, start, k - 1) + added(start + (k - 1) * HOUR)
  }

  /** Each register starts from its own value and grows by its own increments. */
  lemma {:induction false} RegistersAreSums(site: Site, r: Indexes, start: int, k: nat)
    ensures var q := RegistersAt(site, r, start, k);
      && q.active == r.active + SumOver(t => site.added(t).active, start, k)
      && q.reactiveInductive == r.reactiveInductive + SumOver(t => site.added(t).reactiveInductive, start, k)
      && q.reactiveCapacitive == r.reactiveCapacitive + SumOver(t => site.added(t).reactiveCapacitive, start, k)
  {
    if k > 0 {
      RegistersAreSums(site, r, start, k - 1);
    }
  }

  /** `table` with the first n rows of a series written over it. */
  function Written(table: Series, site: Site, r: Indexes, start: int, n: nat): Series {
    if n == 0 then table
    else Written(table, site, r, start, n - 1)[start + (n - 1) * HOUR := RegistersAt(site, r, start, n - 1)]
  }

  /** How many hour starts lie from start to end, both included. */
  function Hours(start: int, end: int): nat {
    if start > end then 0 else (end - start) / HOUR + 1
  }

  function HourOf(t: int): (h: int)
    ensures h <= t < h + HOUR && h % HOUR == 0
  {
    t - t % HOUR
  }

  // ----- One fill

  class Analyzer {
    var rows: Series
    var lastReadingAt: Option<int>
  }

  const BATCH: nat := 5000

  /** Where a fill starts and from which registers. */
  function Opening(site: Site, rows: Series, lastReadingAt: Option<int>, history: int, end: int): (int, Indexes) {
    if lastReadingAt.Some? && lastReadingAt.value in rows then
      (lastReadingAt.value + HOUR, Advanced(rows[lastReadingAt.value], site, lastReadingAt.value))
    else (end - history, BASE)
  }

  /** A batch in memory: rows of consecutive hours. */
  function Flushed(table: Series, batch: seq<(int, Indexes)>): Series {
    if batch == [] then table
    else
      var last := batch[|batch| - 1];
      Flushed(table, batch[..|batch| - 1])[last.0 := last.1]
  }

  method Flush(a: Analyzer, batch: seq<(int, Indexes)>, fails: bool) returns (ok: bool)
    modifies a`rows
    ensures ok == (batch == [] || !fails)
    ensures a.rows == if ok then Flushed(old(a.rows), batch) else old(a.rows)
  {
    if |batch| == 0 {
      return true;
    }
    if fails {
      return false;
    }
    for i := 0 to |batch|
      invariant a.rows == Flushed(old(a.rows), batch[..i])
    {
      assert batch[..i + 1][..i] == batch[..i];
      a.rows := a.rows[batch[i].0 := batch[i].1];
    }
    assert batch[..|batch|] == batch;
    return true;
  }

  /** The rows from hour k to hour n, waiting to be written. */
  ghost predicate IsBatch(batch: seq<(int, Indexes)>, site: Site, r: Indexes, start: int, k: nat, n: nat) {
    && k <= n && |batch| == n - k
    && forall i :: 0 <= i < |batch| ==> batch[i] == (start + (k + i) * HOUR, RegistersAt(site, r, start, k + i))
  }

  lemma LessBatch(batch: seq<(int, Indexes)>, site: Site, r: Indexes, start: int, k: nat, n: nat)
    requires k < n && IsBatch(batch, site, r, start, k, n)
    ensures IsBatch(batch[..|batch| - 1], site, r, start, k, n - 1)
    ensures batch[|batch| - 1] == (start + (n - 1) * HOUR, RegistersAt(site, r, start, n - 1))
  {
    assert k + (|batch| - 1) == n - 1;
  }

  lemma {:induction false} BatchWrites(table: Series, batch: seq<(int, Indexes)>, site: Site, r: Indexes, start: int,
                                       k: nat, n: nat)
    requires IsBatch(batch, site, r, start, k, n)
    ensures Flushed(Written(table, site, r, start, k), batch) == Written(table, site, r, start, n)
    decreases n
  {
    if k < n {
      LessBatch(batch, site, r, start, k, n);
      BatchWrites(table, batch[..|batch| - 1], site, r, start, k, n - 1);
    }
  }

  /** The hourly loop: rows are collected and written 5000 at a time. `flushFails`
      says of each flush whether the database refuses it. */
  method FillLoop(a: Analyzer, site: Site, start: int, r: Indexes, end: int, flushFails: nat -> bool)
    returns (ok: bool, total: nat, flushes: nat, ghost n: nat)
    requires start <= end
    modifies a`rows
    ensures n <= Hours(start, end) && a.rows == Written(old(a.rows), site, r, start, n)
    ensures ok ==> n == Hours(start, end) == total
    ensures !ok ==> flushFails(flushes) && flushes > 0 && n == (flushes - 1) * 5_000 && n < total <= n + 5_000
  {
    hide Hours, Flushed, Advanced;
    var registers := new DemoRegisters(r);
    var batch: seq<(int, Indexes)> := [];
    var ts := start;
    total, flushes, n := 0, 0, 0;
    ghost var i := 0;
    while ts <= end
      invariant ts == start + i * HOUR && ts <= end + HOUR && (ts > end ==> i > 0)
      invariant registers.Value() == RegistersAt(site, r, start, i)
      invariant IsBatch(batch, site, r, start, n, i) && |batch| < BATCH
      invariant n == flushes * BATCH && total == n
      invariant a.rows == Written(old(a.rows), site, r, start, n)
      decreases end + HOUR - ts
    {
      batch := batch + [(ts, registers.Value())];
      registers.Advance(site, ts);
      OneMoreHour(site, r, start, i);
      HoursGrow(start, end, i);
      i := i + 1;
      ts := ts + HOUR;
      if |batch| == BATCH {
        total, flushes := total + |batch|, flushes + 1;
        ok := Flush(a, batch, flushFails(flushes));
        if !ok {
          return;
        }
        BatchWrites(old(a.rows), batch, site, r, start, n, i);
        n, batch := i, [];
      }
    }
    HoursEnd(start, end, i);
    total, flushes := total + |batch|, flushes + 1;
    ok := Flush(a, batch, flushFails(flushes));
    if !ok {
      return;
    }
    BatchWrites(old(a.rows), batch, site, r, start, n, i);
    n := i;
  }

  lemma OneMoreHour(site: Site, r: Indexes, start: int, i: nat)
    ensures RegistersAt(site, r, start, i + 1) == Advanced(RegistersAt(site, r, start, i), site, start + i * HOUR)
  {
  }

  lemma HoursGrow(start: int, end: int, i: nat)
    requires start + i * HOUR <= end
    ensures i < Hours(start, end)
  {
    assert (end - start) / HOUR >= i;
  }

  lemma HoursEnd(start: int, end: int, i: nat)
    requires i > 0 && start + (i - 1) * HOUR <= end < start + i * HOUR
    ensures i == Hours(start, end)
  {
    assert (end - start) / HOUR == i - 1;
  }

  /** A fill up to the current hour, once the analyzer and its last reading are
      read: a prefix of the series from where it opens is written, all of it on
      success; only then does the last reading move. */
  method FillHourly(a: Analyzer, site: Site, history: int, now: int, readFails: bool, flushFails: nat -> bool, touchFails: bool)
    returns (ok: bool, total: nat, ghost n: nat)
    modifies a
    ensures Fills(site, old(a.rows), old(a.lastReadingAt), history, HourOf(now), a.rows, a.lastReadingAt, n, ok)
    ensures ok ==> total == n
    ensures readFails ==> !ok && n == 0
    ensures !readFails && (forall k :: !flushFails(k)) && !touchFails ==> ok
    ensures ok && touchFails ==> Opening(site, old(a.rows), old(a.lastReadingAt), history, HourOf(now)).0 > HourOf(now)
    ensures !ok && !readFails && !touchFails ==> exists k: nat :: k > 0 && flushFails(k) && n == (k - 1) * 5_000
  {
    if readFails {
      return false, 0, 0;
    }
    var end := HourOf(now);
    var (start, registers) := Opening(site, a.rows, a.lastReadingAt, history, end);
    if start > end {
      return true, 0, 0;
    }
    var flushes;
    ok, total, flushes, n := FillLoop(a, site, start, registers, end, flushFails);
    if !ok {
      return;
    }
    if touchFails {
      ok := false;
      return;
    }
    a.lastReadingAt := Later(a.lastReadingAt, end);
  }

  function Later(last: Option<int>, t: int): (r: Option<int>)
    ensures (r == last || r == Some(t)) && r.Some? && t <= r.value && (last.Some? ==> last.value <= r.value)
  {
    if last.None? || last.value < t then Some(t) else last
  }

  /** What one fill up to hour `end` does, n rows written. */
  ghost predicate Fills(site: Site, rows: Series, last: Option<int>, history: int, end: int, newRows: Series,
                        newLast: Option<int>, n: nat, ok: bool) {
    var s := Store(rows, last);
    Possible(site, history, s, Attempt(end, n, ok)) && Store(newRows, newLast) == After(site, history, s, Attempt(end, n, ok))
  }

  datatype Store = Store(rows: Series, last: Option<int>)

  /** One run: the hour it ran in, how many rows it wrote, whether it finished. */
  datatype Attempt = Attempt(end: int, n: nat, ok: bool)

  predicate Possible(site: Site, history: int, s: Store, a: Attempt) {
    var (start, registers) := Opening(site, s.rows, s.last, history, a.end);
    a.n <= Hours(start, a.end) && (a.ok ==> a.n == Hours(start, a.end))
  }

  function After(site: Site, history: int, s: Store, a: Attempt): Store {
    var (start, registers) := Opening(site, s.rows, s.last, history, a.end);
    Store(Written(s.rows, site, registers, start, a.n), if a.ok && start <= a.end then Later(s.last, a.end) else s.last)
  }
}

/** What resuming promises, over any sequence of runs. */
module SeedResume {
  import opened Readings
  import opened SeedReadings

  /** `older` with the first m rows of the series from start0 written over it. */
  function Prefix(site: Site, older: Series, start0: int, m: nat): Series {
    Written(older, site, BASE, start0, m)
  }

  lemma {:induction false} PrefixHas(site: Site, older: Series, start0: int, m: nat, i: nat)
    requires i < m
    ensures start0 + i * HOUR in Prefix(site, older, start0, m)
    ensures Prefix(site, older, start0, m)[start0 + i * HOUR] == RegistersAt(site, BASE, start0, i)
  {
    if i < m - 1 {
      PrefixHas(site, older, start0, m - 1, i);
    }
  }

  /** Carrying on from hour k is the same series. */
  lemma {:induction false} SeriesContinues(site: Site, r: Indexes, start: int, k: nat, j: nat)
    ensures RegistersAt(site, RegistersAt(site, r, start, k), start + k * HOUR, j) == RegistersAt(site, r, start, k + j)
  {
    if j > 0 {
      SeriesContinues(site, r, start, k, j - 1);
      assert start + k * HOUR + (j - 1) * HOUR == start + (k + j - 1) * HOUR;
    }
  }

  /** Writing n rows from hour k over the first m, k at most m, gives the longer prefix. */
  lemma {:induction false} OverwritingExtends(site: Site, older: Series, start0: int, m: nat, k: nat, n: nat)
    requires k <= m
    ensures Written(Prefix(site, older, start0, m), site, RegistersAt(site, BASE, start0, k), start0 + k * HOUR, n)
      == Prefix(site, older, start0, if m < k + n then k + n else m)
  {
    if n > 0 {
      OverwritingExtends(site, older, start0, m, k, n - 1);
      SeriesContinues(site, BASE, start0, k, n - 1);
      assert start0 + k * HOUR + (n - 1) * HOUR == start0 + (k + n - 1) * HOUR;
      if k + n - 1 < m {
        PrefixHas(site, older, start0, m, k + n - 1);
      }
    }
  }

  /** The store holds a prefix that reaches at least to its last reading. */
  ghost predicate Resumable(site: Site, older: Series, start0: int, s: Store, m: nat) {
    && s.rows == Prefix(site, older, start0, m)
    && s.last.Some? && start0 <= s.last.value && (s.last.value - start0) % HOUR == 0
    && Hours(start0, s.last.value) <= m
  }

  lemma HoursOnGrid(start0: int, last: int)
    requires start0 <= last && (last - start0) % HOUR == 0
    ensures start0 + (Hours(start0, last) - 1) * HOUR == last
  {
    assert (last - start0) / HOUR * HOUR == last - start0;
  }

  /** A resumable store opens right after its last reading, with the registers
      the series has there. */
  lemma OpensWhereItStopped(site: Site, older: Series, start0: int, s: Store, m: nat, history: int, end: int)
    requires Resumable(site, older, start0, s, m)
    ensures var k := Hours(start0, s.last.value);
      Opening(site, s.rows, s.last, history, end) == (start0 + k * HOUR, RegistersAt(site, BASE, start0, k))
  {
    var k := Hours(start0, s.last.value);
    HoursOnGrid(start0, s.last.value);
    PrefixHas(site, older, start0, m, k - 1);
    OneMoreHour(site, BASE, start0, k - 1);
  }

  lemma HoursSplit(start0: int, last: int, end: int)
    requires start0 <= last <= end && (last - start0) % HOUR == 0 && (end - start0) % HOUR == 0
    ensures Hours(start0, last) + Hours(last + HOUR, end) == Hours(start0, end)
    ensures last + HOUR > end ==> last == end
  {
    HoursOnGrid(start0, last);
    HoursOnGrid(start0, end);
    var gap := end - last;
    assert gap == (Hours(start0, end) - Hours(start0, last)) * HOUR;
    if gap > 0 {
      assert (end - (last + HOUR)) == (Hours(start0, end) - Hours(start0, last) - 1) * HOUR;
    }
  }

  /** Any run, finished or not, leaves a longer prefix that is still resumable. */
  lemma RunExtendsThePrefix(site: Site, older: Series, start0: int, history: int, s: Store, m: nat, a: Attempt)
    returns (longer: nat)
    requires Resumable(site, older, start0, s, m) && Possible(site, history, s, a)
    requires s.last.value <= a.end && (a.end - start0) % HOUR == 0 && m <= Hours(start0, a.end)
    ensures m <= longer <= Hours(start0, a.end)
    ensures Resumable(site, older, start0, After(site, history, s, a), longer)
    ensures After(site, history, s, a).last.value <= a.end
    ensures a.ok ==> After(site, history, s, a).last == Some(a.end) && longer == Hours(start0, a.end)
  {
    hide Prefix, Written, RegistersAt;
    var k := Hours(start0, s.last.value);
    longer := if m < k + a.n then k + a.n else m;
    HoursSplit(start0, s.last.value, a.end);
    HoursOnGrid(start0, s.last.value);
    RowsAfterResuming(site, older, start0, history, s, m, a);
  }

  lemma RowsAfterResuming(site: Site, older: Series, start0: int, history: int, s: Store, m: nat, a: Attempt)
    requires Resumable(site, older, start0, s, m)
    ensures var k := Hours(start0, s.last.value);
      && After(site, history, s, a).rows == Prefix(site, older, start0, if m < k + a.n then k + a.n else m)
      && Opening(site, s.rows, s.last, history, a.end).0 == start0 + k * HOUR
  {
    OpensWhereItStopped(site, older, start0, s, m, history, a.end);
    OverwritingExtends(site, older, start0, m, Hours(start0, s.last.value), a.n);
  }

  function Run(site: Site, history: int, s: Store, attempts: seq<Attempt>): Option<Store> {
    if attempts == [] then Some(s)
    else
      var mid := Run(site, history, s, attempts[..|attempts| - 1]);
      if mid.Some? && Possible(site, history, mid.value, attempts[|attempts| - 1])
      then Some(After(site, history, mid.value, attempts[|attempts| - 1])) else None
  }

  const EMPTY := Store(map[], None)

  /** Run times only grow, on whole hours. */
  ghost predicate InOrder(attempts: seq<Attempt>) {
    && (forall i, j :: 0 <= i <= j < |attempts| ==> attempts[i].end <= attempts[j].end)
    && (forall i :: 0 <= i < |attempts| ==> attempts[i].end % HOUR == 0)
  }

  /** The runs fill whole hours of history, in order, and run `first` is the first
      to finish. */
  ghost predicate FirstFinished(history: int, attempts: seq<Attempt>, first: nat) {
    && InOrder(attempts) && history >= 0 && history % HOUR == 0
    && first < |attempts| && attempts[first].ok && forall i :: 0 <= i < first ==> !attempts[i].ok
  }

  lemma GridOfEnds(a: int, b: int, history: int)
    requires a % HOUR == 0 && b % HOUR == 0 && history % HOUR == 0
    ensures (b - (a - history)) % HOUR == 0
  {
    assert a == a / HOUR * HOUR && b == b / HOUR * HOUR && history == history / HOUR * HOUR;
    assert b - (a - history) == (b / HOUR - a / HOUR + history / HOUR) * HOUR;
  }

  // ----- Fills that broke off before the first finished one

  /** A row a fill that started over wrote. */
  predicate WroteAt(a: Attempt, history: int, t: int) {
    var start := a.end - history;
    start <= t && (t - start) % HOUR == 0 && (t - start) / HOUR < a.n
  }

  ghost predicate SomeWroteAt(attempts: seq<Attempt>, history: int, t: int) {
    exists i :: 0 <= i < |attempts| && WroteAt(attempts[i], history, t)
  }

  lemma SomeWroteAtMore(attempts: seq<Attempt>, history: int, t: int)
    requires attempts != []
    ensures SomeWroteAt(attempts, history, t)
      <==> SomeWroteAt(attempts[..|attempts| - 1], history, t) || WroteAt(attempts[|attempts| - 1], history, t)
  {
    var front := attempts[..|attempts| - 1];
    if i :| 0 <= i < |attempts| && WroteAt(attempts[i], history, t) {
      assert i < |front| ==> WroteAt(front[i], history, t);
    }
    if i :| 0 <= i < |front| && WroteAt(front[i], history, t) {
      assert WroteAt(attempts[i], history, t);
    }
    assert WroteAt(attempts[|attempts| - 1], history, t) ==> SomeWroteAt(attempts, history, t);
  }

  /** Runs that all fail leave no last reading, and exactly the rows they wrote. */
  lemma {:induction false} FailedRunsLeaveTheirRows(site: Site, history: int, attempts: seq<Attempt>)
    requires Run(site, history, EMPTY, attempts).Some? && forall i :: 0 <= i < |attempts| ==> !attempts[i].ok
    ensures var s := Run(site, history, EMPTY, attempts).value;
      s.last == None && forall t :: t in s.rows <==> SomeWroteAt(attempts, history, t)
  {
    if attempts != [] {
      var front, last := attempts[..|attempts| - 1], attempts[|attempts| - 1];
      FailedRunsLeaveTheirRows(site, history, front);
      var before := Run(site, history, EMPTY, front).value;
      forall t ensures t in Run(site, history, EMPTY, attempts).value.rows <==> SomeWroteAt(attempts, history, t) {
        WrittenMeaning(before.rows, site, BASE, last.end - history, last.n, t);
        SomeWroteAtMore(attempts, history, t);
      }
    }
  }

  /** The rows below an instant. */
  function Below(rows: Series, start0: int): Series {
    map t | t in rows && t < start0 :: rows[t]
  }

  /** The first finished fill writes over everything from its start on. */
  lemma FirstFinishedFill(site: Site, history: int, s: Store, a: Attempt)
    requires s.last == None && a.ok && Possible(site, history, s, a) && history >= 0 && (a.end - (a.end - history)) % HOUR == 0
    requires forall t :: t in s.rows ==> t <= a.end && (t - (a.end - history)) % HOUR == 0
    ensures var start0 := a.end - history;
      && Resumable(site, Below(s.rows, start0), start0, After(site, history, s, a), Hours(start0, a.end))
      && After(site, history, s, a).last == Some(a.end)
  {
    hide RegistersAt;
    var start0 := a.end - history;
    var n := Hours(start0, a.end);
    var over, under := Written(s.rows, site, BASE, start0, n), Prefix(site, Below(s.rows, start0), start0, n);
    forall t ensures (t in over <==> t in under) && (t in over ==> over[t] == under[t]) {
      WrittenMeaning(s.rows, site, BASE, start0, n, t);
      WrittenMeaning(Below(s.rows, start0), site, BASE, start0, n, t);
      if t in s.rows && t >= start0 {
        HoursGrow(start0, a.end, (t - start0) / HOUR);
      }
    }
    assert over == under;
  }

  lemma RowsOnGrid(history: int, attempts: seq<Attempt>, first: nat, t: int)
    requires FirstFinished(history, attempts, first) && SomeWroteAt(attempts[..first], history, t)
    requires forall i :: 0 <= i < first ==> attempts[i].n <= Hours(attempts[i].end - history, attempts[i].end)
    ensures t <= attempts[first].end && (t - (attempts[first].end - history)) % HOUR == 0
  {
    var i :| 0 <= i < first && WroteAt(attempts[..first][i], history, t);
    var a, e := attempts[i], attempts[first].end;
    GridOfEnds(a.end, a.end, history);
    GridOfEnds(e, a.end, history);
    OnBothGrids(a.end - history, e - history, t, a.end, a.n, e);
  }

  lemma {:induction false} FailedRunsFit(site: Site, history: int, attempts: seq<Attempt>)
    requires Run(site, history, EMPTY, attempts).Some? && forall i :: 0 <= i < |attempts| ==> !attempts[i].ok
    ensures forall i :: 0 <= i < |attempts| ==> attempts[i].n <= Hours(attempts[i].end - history, attempts[i].end)
  {
    if attempts != [] {
      FailedRunsFit(site, history, attempts[..|attempts| - 1]);
      FailedRunsLeaveTheirRows(site, history, attempts[..|attempts| - 1]);
    }
  }

  lemma {:induction false} RunPrefix(site: Site, history: int, attempts: seq<Attempt>, k: nat)
    requires k <= |attempts| && Run(site, history, EMPTY, attempts).Some?
    ensures Run(site, history, EMPTY, attempts[..k]).Some?
  {
    if k == |attempts| {
      assert attempts[..k] == attempts;
    } else {
      RunPrefix(site, history, attempts[..|attempts| - 1], k);
      assert attempts[..|attempts| - 1][..k] == attempts[..k];
    }
  }

  /** What the fills before the first finished one left below its start. */
  function Leftover(site: Site, history: int, attempts: seq<Attempt>, first: nat): Series
    requires first < |attempts| && Run(site, history, EMPTY, attempts[..first]).Some?
  {
    Below(Run(site, history, EMPTY, attempts[..first]).value.rows, attempts[first].end - history)
  }

  // ----- From the first finished fill on

  /** What the runs up to now left: the leftover rows, and the first m rows from the
      first finished fill's start; all of them when the latest run finished. */
  ghost predicate Resumes(site: Site, history: int, attempts: seq<Attempt>, first: nat, t: Store, m: nat)
    requires first < |attempts| && Run(site, history, EMPTY, attempts[..first]).Some?
  {
    var start0, last := attempts[first].end - history, attempts[|attempts| - 1];
    && Resumable(site, Leftover(site, history, attempts, first), start0, t, m)
    && t.last.value <= last.end && m <= Hours(start0, last.end)
    && (last.ok ==> t.last == Some(last.end) && m == Hours(start0, last.end))
  }

  lemma FirstFinishedResumes(site: Site, history: int, attempts: seq<Attempt>, first: nat) returns (m: nat)
    requires FirstFinished(history, attempts, first) && |attempts| == first + 1
    requires Run(site, history, EMPTY, attempts).Some?
    ensures Run(site, history, EMPTY, attempts[..first]).Some?
    ensures Resumes(site, history, attempts, first, Run(site, history, EMPTY, attempts).value, m)
  {
    hide Written, WroteAt, Opening;
    var last := attempts[first];
    var start0 := last.end - history;
    var s := Run(site, history, EMPTY, attempts[..first]).value;
    FailedRunsLeaveTheirRows(site, history, attempts[..first]);
    FailedRunsFit(site, history, attempts[..first]);
    forall t | t in s.rows ensures t <= last.end && (t - start0) % HOUR == 0 {
      RowsOnGrid(history, attempts, first, t);
    }
    m := Hours(start0, last.end);
    FirstFinishedFill(site, history, s, last);
  }

  lemma OneMoreRunResumes(site: Site, history: int, attempts: seq<Attempt>, first: nat, m: nat) returns (longer: nat)
    requires FirstFinished(history, attempts, first) && first < |attempts| - 1
    requires Run(site, history, EMPTY, attempts).Some? && Run(site, history, EMPTY, attempts[..first]).Some?
    requires var front := attempts[..|attempts| - 1];
      && front[..first] == attempts[..first]
      && Resumes(site, history, front, first, Run(site, history, EMPTY, front).value, m)
    ensures Resumes(site, history, attempts, first, Run(site, history, EMPTY, attempts).value, longer)
  {
    hide Written, WroteAt, Opening, Prefix, Below;
    var front, last := attempts[..|attempts| - 1], attempts[|attempts| - 1];
    var start0 := attempts[first].end - history;
    GridOfEnds(attempts[first].end, last.end, history);
    longer := RunExtendsThePrefix(site, Leftover(site, history, attempts, first), start0, history,
                                  Run(site, history, EMPTY, front).value, m, last);
  }

  /** From then on resumption holds, whatever the fills before it left below. */
  lemma {:induction false} RunsKeepThePrefix(site: Site, history: int, attempts: seq<Attempt>, first: nat) returns (m: nat)
    requires FirstFinished(history, attempts, first) && Run(site, history, EMPTY, attempts).Some?
    ensures Run(site, history, EMPTY, attempts[..first]).Some?
    ensures Resumes(site, history, attempts, first, Run(site, history, EMPTY, attempts).value, m)
  {
    hide Resumes, Possible, After;
    if |attempts| == first + 1 {
      m := FirstFinishedResumes(site, history, attempts, first);
    } else {
      var front := attempts[..|attempts| - 1];
      assert front[..first] == attempts[..first];
      m := RunsKeepThePrefix(site, history, front, first);
      m := OneMoreRunResumes(site, history, attempts, first, m);
    }
  }

  /** Every fill that broke off before the first finished one wrote nothing, or ran
      in the same hour. */
  ghost predicate CleanStart(attempts: seq<Attempt>, first: nat)
    requires first < |attempts|
  {
    forall i :: 0 <= i < first ==> attempts[i].n == 0 || attempts[i].end == attempts[first].end
  }

  lemma LeftoverMeaning(site: Site, history: int, attempts: seq<Attempt>, first: nat, t: int)
    requires FirstFinished(history, attempts, first) && Run(site, history, EMPTY, attempts[..first]).Some?
    ensures t in Leftover(site, history, attempts, first)
      <==> t < attempts[first].end - history && SomeWroteAt(attempts[..first], history, t)
  {
    hide Run, WroteAt;
    FailedRunsLeaveTheirRows(site, history, attempts[..first]);
  }

  lemma NothingLeftOverIff(site: Site, history: int, attempts: seq<Attempt>, first: nat)
    requires FirstFinished(history, attempts, first) && Run(site, history, EMPTY, attempts[..first]).Some?
    ensures (forall t :: t !in Leftover(site, history, attempts, first)) <==> CleanStart(attempts, first)
  {
    hide Run, Leftover;
    var failed := attempts[..first];
    var left := Leftover(site, history, attempts, first);
    if i :| 0 <= i < first && attempts[i].n > 0 && attempts[i].end != attempts[first].end {
      var t := attempts[i].end - history;
      assert WroteAt(failed[i], history, t);
      LeftoverMeaning(site, history, attempts, first, t);
    }
    if t :| t in left {
      LeftoverMeaning(site, history, attempts, first, t);
      var i :| 0 <= i < first && WroteAt(failed[i], history, t);
      assert attempts[i].n > 0 && attempts[i].end != attempts[first].end;
    }
  }

  /** Resumed filling equals uninterrupted filling, whatever runs failed: after a
      finished run the store is what one run from the first finished run's start
      would have written, exactly when no earlier run left a row before that start. */
  lemma ResumedEqualsUninterrupted(site: Site, history: int, attempts: seq<Attempt>, first: nat)
    requires FirstFinished(history, attempts, first) && attempts[|attempts| - 1].ok
    requires Run(site, history, EMPTY, attempts).Some?
    ensures var end := attempts[|attempts| - 1].end;
      var span := end - (attempts[first].end - history);
      var once := Attempt(end, Hours(attempts[first].end - history, end), true);
      && Possible(site, span, EMPTY, once)
      && (Run(site, history, EMPTY, attempts) == Some(After(site, span, EMPTY, once)) <==> CleanStart(attempts, first))
  {
    hide Run, WroteAt, SomeWroteAt, CleanStart;
    var m := RunsKeepThePrefix(site, history, attempts, first);
    NothingLeftOverIff(site, history, attempts, first);
    var left := Leftover(site, history, attempts, first);
    var start0 := attempts[first].end - history;
    if t :| t in left {
      LeftoverStays(site, left, start0, m, t);
    } else {
      assert left == map[];
    }
  }

  lemma LeftoverStays(site: Site, left: Series, start0: int, m: nat, t: int)
    requires t in left && t < start0
    ensures Prefix(site, left, start0, m) != Prefix(site, map[], start0, m)
  {
    WrittenMeaning(left, site, BASE, start0, m, t);
    WrittenMeaning(map[], site, BASE, start0, m, t);
  }

  /** A second run in the same hour writes nothing. */
  lemma RerunWritesNothing(site: Site, history: int, attempts: seq<Attempt>, first: nat, again: Attempt)
    requires FirstFinished(history, attempts, first) && attempts[|attempts| - 1].ok
    requires Run(site, history, EMPTY, attempts).Some?
    requires again.end == attempts[|attempts| - 1].end && Possible(site, history, Run(site, history, EMPTY, attempts).value, again)
    ensures again.n == 0
    ensures After(site, history, Run(site, history, EMPTY, attempts).value, again) == Run(site, history, EMPTY, attempts).value
  {
    hide Run, Prefix, Leftover;
    var m := RunsKeepThePrefix(site, history, attempts, first);
    var s, start0 := Run(site, history, EMPTY, attempts).value, attempts[first].end - history;
    OpensWhereItStopped(site, Leftover(site, history, attempts, first), start0, s, m, history, again.end);
    HoursOnGrid(start0, again.end);
  }

  // ----- Registers never fall

  /** A later row has no register below an earlier one. */
  ghost predicate Rising(rows: Series) {
    forall t, u :: t in rows && u in rows && t <= u ==> NotBelow(rows[t], rows[u])
  }

  lemma {:induction false} SeriesRises(site: Site, r: Indexes, start: int, i: nat, j: nat)
    requires NeverFalls(site) && i <= j
    ensures NotBelow(RegistersAt(site, r, start, i), RegistersAt(site, r, start, j))
    decreases j
  {
    if i < j {
      SeriesRises(site, r, start, i, j - 1);
      assert NotBelow(Indexes(0.0, 0.0, 0.0), site.added(start + (j - 1) * HOUR));
    }
  }

  /** The rows of a table after n rows were written over it. */
  lemma {:induction false} WrittenMeaning(table: Series, site: Site, r: Indexes, start: int, n: nat, t: int)
    ensures var rows := Written(table, site, r, start, n);
      var i := (t - start) / HOUR;
      if start <= t && (t - start) % HOUR == 0 && i < n then t in rows && rows[t] == RegistersAt(site, r, start, i)
      else (t in rows <==> t in table) && (t in rows ==> rows[t] == table[t])
  {
    if n > 0 {
      WrittenMeaning(table, site, r, start, n - 1, t);
      GridIndex(start, n - 1, t);
    }
  }

  lemma GridIndex(start: int, k: nat, t: int)
    ensures t == start + k * HOUR <==> start <= t && (t - start) % HOUR == 0 && (t - start) / HOUR == k
  {
    if start <= t && (t - start) % HOUR == 0 && (t - start) / HOUR == k {
      assert t - start == k * HOUR;
    }
    if t == start + k * HOUR {
      assert (t - start) / HOUR == k && (t - start) % HOUR == 0;
    }
  }

  /** No row before the instant is above the base registers. */
  ghost predicate LowBefore(rows: Series, start: int) {
    forall t :: t in rows && t < start ==> NotBelow(rows[t], BASE)
  }

  lemma RowOfPrefix(site: Site, older: Series, start0: int, m: nat, t: int)
    requires (forall x :: x in older ==> x < start0) && t in Prefix(site, older, start0, m)
    ensures var rows := Prefix(site, older, start0, m);
      if t < start0 then t in older && rows[t] == older[t] else rows[t] == RegistersAt(site, BASE, start0, (t - start0) / HOUR)
  {
    WrittenMeaning(older, site, BASE, start0, m, t);
  }

  lemma LaterIndex(start: int, t: int, u: int)
    requires start <= t <= u
    ensures 0 <= (t - start) / HOUR <= (u - start) / HOUR
  {
  }

  /** Rows that rise stay rising under a series from the base registers exactly
      when none of them is above those. */
  lemma PrefixRisesIff(site: Site, older: Series, start0: int, m: nat)
    requires NeverFalls(site) && m > 0 && forall x :: x in older ==> x < start0
    ensures Rising(Prefix(site, older, start0, m)) <==> Rising(older) && LowBefore(older, start0)
  {
    var rows := Prefix(site, older, start0, m);
    forall t | t in older ensures t in rows && rows[t] == older[t] {
      WrittenMeaning(older, site, BASE, start0, m, t);
    }
    PrefixHas(site, older, start0, m, 0);
    if Rising(rows) {
      forall t | t in older && t < start0 ensures NotBelow(older[t], BASE) {
        assert NotBelow(rows[t], rows[start0]);
      }
    }
    if Rising(older) && LowBefore(older, start0) {
      LowOlderRises(site, older, start0, m);
    }
  }

  lemma NoRowsRise(rows: Series, start: int)
    ensures (forall t :: t !in rows) ==> Rising(rows) && LowBefore(rows, start)
  {
  }

  lemma LowOlderRises(site: Site, older: Series, start0: int, m: nat)
    requires NeverFalls(site) && (forall x :: x in older ==> x < start0) && Rising(older) && LowBefore(older, start0)
    ensures Rising(Prefix(site, older, start0, m))
  {
    var rows := Prefix(site, older, start0, m);
    forall t, u | t in rows && u in rows && t <= u ensures NotBelow(rows[t], rows[u]) {
      RowOfPrefix(site, older, start0, m, t);
      RowOfPrefix(site, older, start0, m, u);
      if t >= start0 {
        LaterIndex(start0, t, u);
        SeriesRises(site, BASE, start0, (t - start0) / HOUR, (u - start0) / HOUR);
      } else if u >= start0 {
        SeriesRises(site, BASE, start0, 0, (u - start0) / HOUR);
      }
    }
  }

  /** From the first finished run on registers never fall, exactly when the rows
      earlier runs left before its start rise and stay at or below the base. */
  lemma RegistersNeverFall(site: Site, history: int, attempts: seq<Attempt>, first: nat)
    requires FirstFinished(history, attempts, first) && NeverFalls(site) && Run(site, history, EMPTY, attempts).Some?
    ensures Run(site, history, EMPTY, attempts[..first]).Some?
    ensures var left := Leftover(site, history, attempts, first);
      Rising(Run(site, history, EMPTY, attempts).value.rows) <==> Rising(left) && LowBefore(left, attempts[first].end - history)
    ensures CleanStart(attempts, first) ==> Rising(Run(site, history, EMPTY, attempts).value.rows)
  {
    hide Run, Written, NeverFalls, Rising, LowBefore;
    var m := RunsKeepThePrefix(site, history, attempts, first);
    var left := Leftover(site, history, attempts, first);
    NothingLeftOverIff(site, history, attempts, first);
    NoRowsRise(left, attempts[first].end - history);
    PrefixRisesIff(site, left, attempts[first].end - history, m);
  }

  // ----- When the first fill did not finish

  /** A fill that finds rows but no last reading starts over from the base
      registers; the result still rises iff no earlier row is above them. */
  lemma StartingOverRisesIff(site: Site, history: int, s: Store, a: Attempt)
    requires NeverFalls(site) && Rising(s.rows) && s.last == None && history >= 0
    requires a.ok && Possible(site, history, s, a)
    requires forall t :: t in s.rows ==> t <= a.end && (t - (a.end - history)) % HOUR == 0
    ensures Rising(After(site, history, s, a).rows)
      <==> LowBefore(s.rows, a.end - history)
  {
    var start := a.end - history;
    assert After(site, history, s, a).rows == Written(s.rows, site, BASE, start, a.n);
    if Rising(Written(s.rows, site, BASE, start, a.n)) {
      forall t | t in s.rows && t < start ensures NotBelow(s.rows[t], BASE) {
        WrittenMeaning(s.rows, site, BASE, start, a.n, t);
        WrittenMeaning(s.rows, site, BASE, start, a.n, start);
      }
    }
    if LowBefore(s.rows, start) {
      StartingOverRises(site, s, start, a);
    }
  }

  lemma StartingOverRises(site: Site, s: Store, start: int, a: Attempt)
    requires NeverFalls(site) && Rising(s.rows) && LowBefore(s.rows, start)
    requires forall x :: x in s.rows ==> x <= a.end && (x - start) % HOUR == 0
    requires a.n == Hours(start, a.end)
    ensures Rising(Written(s.rows, site, BASE, start, a.n))
  {
    var rows := Written(s.rows, site, BASE, start, a.n);
    forall t, u | t in rows && u in rows && t <= u ensures NotBelow(rows[t], rows[u]) {
      RowsAfterStartingOver(site, s, start, a, t);
      RowsAfterStartingOver(site, s, start, a, u);
      if t >= start {
        LaterIndex(start, t, u);
        SeriesRises(site, BASE, start, (t - start) / HOUR, (u - start) / HOUR);
      } else if u >= start {
        SeriesRises(site, BASE, start, 0, (u - start) / HOUR);
      }
    }
  }

  lemma RowsAfterStartingOver(site: Site, s: Store, start: int, a: Attempt, t: int)
    requires forall x :: x in s.rows ==> x <= a.end && (x - start) % HOUR == 0
    requires a.n == Hours(start, a.end) && t in Written(s.rows, site, BASE, start, a.n)
    ensures var rows := Written(s.rows, site, BASE, start, a.n);
      if t < start then t in s.rows && rows[t] == s.rows[t]
      else rows[t] == RegistersAt(site, BASE, start, (t - start) / HOUR)
  {
    WrittenMeaning(s.rows, site, BASE, start, a.n, t);
    if t >= start && t in s.rows {
      HoursGrow(start, a.end, (t - start) / HOUR);
    }
  }

  /** So a first fill that wrote two rows or more and failed, followed by a run
      two hours later or more, makes a register fall. */
  lemma FailedFirstFillMakesRegistersFall(site: Site, history: int, end: int, m: nat, later: Attempt)
    requires NeverFalls(site) && site.added(end - history).active > 0.0
    requires history >= 0 && history % HOUR == 0 && end % HOUR == 0 && 2 <= m <= Hours(end - history, end)
    requires later.ok && later.end >= end + 2 * HOUR && later.end % HOUR == 0
    requires Possible(site, history, After(site, history, EMPTY, Attempt(end, m, false)), later)
    ensures Possible(site, history, EMPTY, Attempt(end, m, false))
    ensures !Rising(After(site, history, After(site, history, EMPTY, Attempt(end, m, false)), later).rows)
  {
    var start0 := end - history;
    var s := After(site, history, EMPTY, Attempt(end, m, false));
    assert s == Store(Prefix(site, map[], start0, m), None);
    PrefixRisesIff(site, map[], start0, m);
    forall t | t in s.rows ensures t <= later.end && (t - (later.end - history)) % HOUR == 0 {
      WrittenMeaning(map[], site, BASE, start0, m, t);
      GridOfEnds(later.end, end, history);
      OnBothGrids(start0, later.end - history, t, end, m, later.end);
    }
    StartingOverRisesIff(site, history, s, later);
    PrefixHas(site, map[], start0, m, 1);
    assert RegistersAt(site, BASE, start0, 1) == Advanced(RegistersAt(site, BASE, start0, 0), site, start0);
    assert !NotBelow(s.rows[start0 + HOUR], BASE);
  }

  lemma OnBothGrids(start0: int, start1: int, t: int, end: int, m: nat, later: int)
    requires start0 <= t && (t - start0) % HOUR == 0 && (t - start0) / HOUR < m <= Hours(start0, end) && end <= later
    requires (end - start0) % HOUR == 0 && (end - start1) % HOUR == 0
    ensures t <= later && (t - start1) % HOUR == 0
  {
    var i, h, g := (t - start0) / HOUR, (end - start0) / HOUR, (end - start1) / HOUR;
    assert t - start0 == i * HOUR && end - start0 == h * HOUR && end - start1 == g * HOUR;
    assert t - start1 == (i - h + g) * HOUR;
  }

  // ----- A history that is not whole hours long

  predicate OffBy(history: int, t: int) {
    (t + history) % HOUR == 0
  }

  /** Every row is that far off the hour, every last reading on it. */
  ghost predicate OffTheHour(history: int, s: Store) {
    (forall t :: t in s.rows ==> OffBy(history, t)) && (s.last.Some? ==> s.last.value % HOUR == 0)
  }

  lemma WholeAndOff(history: int, t: int)
    ensures t % HOUR == 0 && OffBy(history, t) ==> history % HOUR == 0
  {
    if t % HOUR == 0 && OffBy(history, t) {
      assert t == t / HOUR * HOUR && t + history == (t + history) / HOUR * HOUR;
      assert history == ((t + history) / HOUR - t / HOUR) * HOUR;
    }
  }

  lemma OffTheHourStartsOver(site: Site, history: int, s: Store, end: int)
    requires history % HOUR != 0 && OffTheHour(history, s)
    ensures Opening(site, s.rows, s.last, history, end) == (end - history, BASE)
  {
    if s.last.Some? {
      WholeAndOff(history, s.last.value);
    }
  }

  lemma RowsStayOffTheHour(site: Site, history: int, s: Store, end: int, n: nat)
    requires OffTheHour(history, s) && end % HOUR == 0
    ensures forall t :: t in Written(s.rows, site, BASE, end - history, n) ==> OffBy(history, t)
  {
    forall t | t in Written(s.rows, site, BASE, end - history, n) ensures OffBy(history, t) {
      WrittenMeaning(s.rows, site, BASE, end - history, n, t);
      var i := (t - (end - history)) / HOUR;
      if (t - (end - history)) % HOUR == 0 {
        assert t + history == (i + end / HOUR) * HOUR;
      }
    }
  }

  lemma {:induction false} OffHourRuns(site: Site, history: int, attempts: seq<Attempt>)
    requires history % HOUR != 0 && InOrder(attempts) && Run(site, history, EMPTY, attempts).Some?
    ensures OffTheHour(history, Run(site, history, EMPTY, attempts).value)
  {
    if attempts != [] {
      var front, last := attempts[..|attempts| - 1], attempts[|attempts| - 1];
      OffHourRuns(site, history, front);
      var s := Run(site, history, EMPTY, front).value;
      OffTheHourStartsOver(site, history, s, last.end);
      RowsStayOffTheHour(site, history, s, last.end, last.n);
    }
  }

  /** With a history that is not whole hours long no run ever resumes: the last
      reading is stamped at an instant no row has, so each starts over. */
  lemma OffHourHistoryNeverResumes(site: Site, history: int, attempts: seq<Attempt>, later: int)
    requires history % HOUR != 0 && InOrder(attempts) && Run(site, history, EMPTY, attempts).Some?
    ensures var s := Run(site, history, EMPTY, attempts).value;
      Opening(site, s.rows, s.last, history, later) == (later - history, BASE)
  {
    OffHourRuns(site, history, attempts);
    OffTheHourStartsOver(site, history, Run(site, history, EMPTY, attempts).value, later);
  }
}

/** The demo load curve: what one hour adds (internal/seed/demo.go). */
module DemoCurve {
  import opened SeedReadings

  /** The local clock reading an hour start stands for. */
  datatype LocalTime = LocalTime(hour: nat, weekend: bool, yearDay: nat, year: nat)

  /** kWh a working hour and a night hour add. */
  datatype Profile = Profile(day: nat, night: nat)

  const TWO_32: nat := 0x1_0000_0000

  /** Whole kWh, so the weekend share is an integer division. */
  function HourBase(p: Profile, t: LocalTime): nat {
    var base := if 6 <= t.hour < 18 then p.day else p.night;
    if t.weekend then base * 4 / 10 else base
  }

  function Seed(p: Profile, t: LocalTime): nat {
    (42000 + t.yearDay * 100 + t.year * 37000 + t.hour + p.day * 7) % TWO_32
  }

  /** b thousandths, n times. */
  function PerMille(b: nat, n: nat): real {
    (b * n) as real / 1000.0
  }

  /** `noise` stands for the 32-bit generator mulberry32. */
  function Step(p: Profile, t: LocalTime, noise: nat -> nat): real {
    PerMille(HourBase(p, t), 900 + noise(Seed(p, t)) % 201)
  }

  function InductiveShare(p: Profile, t: LocalTime, noise: nat -> nat): real {
    PerMille(1, 180 + noise((Seed(p, t) + 1) % TWO_32) % 81)
  }

  function CapacitiveShare(p: Profile, t: LocalTime, noise: nat -> nat): real {
    PerMille(1, 20 + noise((Seed(p, t) + 2) % TWO_32) % 41)
  }

  function Consumption(p: Profile, t: LocalTime, noise: nat -> nat): Indexes {
    var step := Step(p, t, noise);
    Indexes(step, step * InductiveShare(p, t, noise), step * CapacitiveShare(p, t, noise))
  }

  function DemoSite(p: Profile, local: int -> LocalTime, noise: nat -> nat): Site {
    Site(ts => Consumption(p, local(ts), noise))
  }

  lemma PerMilleBetween(b: nat, n: nat, lo: nat, hi: nat)
    requires lo <= n <= hi
    ensures (lo * b) as real / 1000.0 <= PerMille(b, n) <= (hi * b) as real / 1000.0
    ensures PerMille(b, n) >= 0.0
  {
  }

  /** A working hour, from six to eighteen, adds 90 to 110 % of the day's base and any
      other of the night's, four tenths of that at the weekend; 18 to 26 % of what is
      added is inductive and 2 to 6 % capacitive, whatever the generator yields. */
  lemma ConsumptionInBand(p: Profile, t: LocalTime, noise: nat -> nat)
    ensures var q := Consumption(p, t, noise);
      var full := if 6 <= t.hour && t.hour < 18 then p.day else p.night;
      var base := if t.weekend then full * 4 / 10 else full;
      && 900.0 * base as real <= 1000.0 * q.active <= 1100.0 * base as real
      && 0.18 * q.active <= q.reactiveInductive <= 0.26 * q.active
      && 0.02 * q.active <= q.reactiveCapacitive <= 0.06 * q.active
      && q.active >= 0.0
  {
    hide Step, InductiveShare, CapacitiveShare, HourBase;
    StepInBand(p, t, noise);
    SharesOf(p, t, noise);
    var q, step := Consumption(p, t, noise), Step(p, t, noise);
    var forInductive, forCapacitive := InductiveShare(p, t, noise), CapacitiveShare(p, t, noise);
    assert q.active == step && q.reactiveInductive == step * forInductive && q.reactiveCapacitive == step * forCapacitive;
    IsShare(q.active, forInductive, q.reactiveInductive, 0.18, 0.26);
    IsShare(q.active, forCapacitive, q.reactiveCapacitive, 0.02, 0.06);
  }

  lemma StepInBand(p: Profile, t: LocalTime, noise: nat -> nat)
    ensures var full := if 6 <= t.hour && t.hour < 18 then p.day else p.night;
      var base := if t.weekend then full * 4 / 10 else full;
      900.0 * base as real <= 1000.0 * Step(p, t, noise) <= 1100.0 * base as real && Step(p, t, noise) >= 0.0
  {
    hide Seed;
    PerMilleBetween(HourBase(p, t), 900 + noise(Seed(p, t)) % 201, 900, 1100);
  }

  lemma SharesOf(p: Profile, t: LocalTime, noise: nat -> nat)
    ensures 0.18 <= InductiveShare(p, t, noise) <= 0.26
    ensures 0.02 <= CapacitiveShare(p, t, noise) <= 0.06
  {
  }

  lemma IsShare(x: real, share: real, y: real, lo: real, hi: real)
    requires x >= 0.0 && lo <= share <= hi && y == x * share
    ensures lo * x <= y <= hi * x
  {
    assert x * (share - lo) >= 0.0 && x * (hi - share) >= 0.0;
  }

  lemma ConsumptionNotNegative(p: Profile, t: LocalTime, noise: nat -> nat)
    ensures NotBelow(Indexes(0.0, 0.0, 0.0), Consumption(p, t, noise))
  {
    ConsumptionInBand(p, t, noise);
  }

  /** The demo curve never falls, so every promise about filling holds for it. */
  lemma DemoNeverFalls(p: Profile, local: int -> LocalTime, noise: nat -> nat)
    ensures NeverFalls(DemoSite(p, local, noise))
  {
    forall ts ensures NotBelow(Indexes(0.0, 0.0, 0.0), DemoSite(p, local, noise).added(ts)) {
      ConsumptionNotNegative(p, local(ts), noise);
    }
  }
}
