/** Falling registers between consecutive readings (internal/ingest/anomaly.go).
    The checked registers are the first `registers` ones, a parameter here where
    the source walks a package-level list of the twelve cumulative ones. */
module NegativeDeltas {
  import opened Readings

  datatype NegativeDelta = NegativeDelta(register: nat, prevTs: int, curTs: int)

  /** Some reset lies in (after, upTo]. */
  predicate ResetIn(resets: seq<Reading>, after: int, upTo: int) {
    exists k :: 0 <= k < |resets| && after < resets[k].ts <= upTo
  }

  method ResetBetween(resets: seq<Reading>, from: int, to: int) returns (found: bool)
    ensures found == ResetIn(resets, from, to)
  {
    for k := 0 to |resets|
      invariant forall j :: 0 <= j < k ==> !(from < resets[j].ts <= to)
    {
      if resets[k].ts > from && !(resets[k].ts > to) {
        return true;
      }
    }
    return false;
  }

  predicate Falls(p: Reading, c: Reading, reg: nat)
    requires reg < ALL_REGISTERS
  {
    p.regs[reg].Some? && c.regs[reg].Some? && c.regs[reg].value < p.regs[reg].value
  }

  /** What one adjacent pair reports. */
  function PairDeltas(p: Reading, c: Reading, resets: seq<Reading>, registers: nat): seq<NegativeDelta>
    requires registers <= ALL_REGISTERS
  {
    if registers == 0 then []
    else
      PairDeltas(p, c, resets, registers - 1) +
      if p.kind == c.kind && Falls(p, c, registers - 1) && !ResetIn(resets, p.ts, c.ts)
      then [NegativeDelta(registers - 1, p.ts, c.ts)] else []
  }

  /** What a sequence of readings reports, pair by pair. */
  function Deltas(s: seq<Reading>, resets: seq<Reading>, registers: nat): seq<NegativeDelta>
    requires registers <= ALL_REGISTERS
  {
    if |s| < 2 then []
    else Deltas(s[..|s| - 1], resets, registers) + PairDeltas(s[|s| - 2], s[|s| - 1], resets, registers)
  }

  function WithPrev(prev: Option<Reading>, rows: seq<Reading>): seq<Reading> {
    (if prev.Some? then [prev.value] else []) + rows
  }

  /** The inner loop over the registers of one pair. */
  method PairDeltasOf(p: Reading, c: Reading, resets: seq<Reading>, registers: nat) returns (out: seq<NegativeDelta>)
    requires p.kind == c.kind && registers <= ALL_REGISTERS
    ensures out == PairDeltas(p, c, resets, registers)
  {
    out := [];
    var suppressed := ResetBetween(resets, p.ts, c.ts);
    for reg := 0 to registers
      invariant out == PairDeltas(p, c, resets, reg)
    {
      var pv, cv := p.regs[reg], c.regs[reg];
      if pv.None? || cv.None? {
        continue;
      }
      if cv.value < pv.value && !suppressed {
        out := out + [NegativeDelta(reg, p.ts, c.ts)];
      }
    }
  }

  method DetectNegativeDeltas(prev: Option<Reading>, rows: seq<Reading>, resets: seq<Reading>, registers: nat)
    returns (out: seq<NegativeDelta>)
    requires registers <= ALL_REGISTERS
    ensures out == Deltas(WithPrev(prev, rows), resets, registers)
  {
    var s := WithPrev(prev, rows);
    out := [];
    if |s| < 2 {
      return;
    }
    for i := 1 to |s|
      invariant out == Deltas(s[..i], resets, registers)
    {
      assert s[..i + 1] == s[..i] + [s[i]];
      DeltasOfOneMore(s[..i], s[i], resets, registers);
      var p, c := s[i - 1], s[i];
      if p.kind != c.kind {
        DifferentKinds(p, c, resets, registers);
        continue;
      }
      var here := PairDeltasOf(p, c, resets, registers);
      out := out + here;
    }
    assert s[..|s|] == s;
  }

  lemma DeltasOfOneMore(s: seq<Reading>, c: Reading, resets: seq<Reading>, registers: nat)
    requires s != [] && registers <= ALL_REGISTERS
    ensures Deltas(s + [c], resets, registers)
      == Deltas(s, resets, registers) + PairDeltas(s[|s| - 1], c, resets, registers)
  {
    assert (s + [c])[..|s + [c]| - 1] == s;
  }

  lemma {:induction false} DifferentKinds(p: Reading, c: Reading, resets: seq<Reading>, registers: nat)
    requires p.kind != c.kind && registers <= ALL_REGISTERS
    ensures PairDeltas(p, c, resets, registers) == []
  {
    if registers > 0 {
      DifferentKinds(p, c, resets, registers - 1);
    }
  }

  // ----- What is reported

  /** Register reg falls between two readings of one kind with no reset in
      between. */
  ghost predicate Unexplained(p: Reading, c: Reading, resets: seq<Reading>, reg: nat)
    requires reg < ALL_REGISTERS
  {
    && p.kind == c.kind
    && p.regs[reg].Some? && c.regs[reg].Some? && c.regs[reg].value < p.regs[reg].value
    && forall k :: 0 <= k < |resets| ==> resets[k].ts <= p.ts || resets[k].ts > c.ts
  }

  lemma {:induction false} PairDeltasExact(p: Reading, c: Reading, resets: seq<Reading>, registers: nat, d: NegativeDelta)
    requires registers <= ALL_REGISTERS
    ensures d in PairDeltas(p, c, resets, registers)
      <==> d.register < registers && d.prevTs == p.ts && d.curTs == c.ts && Unexplained(p, c, resets, d.register)
  {
    if registers > 0 {
      PairDeltasExact(p, c, resets, registers - 1, d);
    }
  }

  ghost predicate ReportedAt(s: seq<Reading>, resets: seq<Reading>, registers: nat, d: NegativeDelta, i: nat)
    requires 0 < i < |s| && registers <= ALL_REGISTERS
  {
    && d.register < registers
    && d.prevTs == s[i - 1].ts && d.curTs == s[i].ts
    && Unexplained(s[i - 1], s[i], resets, d.register)
  }

  /** The report is exactly the unexplained falls between adjacent readings. */
  lemma {:induction false} DeltasExact(s: seq<Reading>, resets: seq<Reading>, registers: nat, d: NegativeDelta)
    requires registers <= ALL_REGISTERS
    ensures d in Deltas(s, resets, registers)
      <==> exists i :: 0 < i < |s| && ReportedAt(s, resets, registers, d, i)
  {
    if |s| >= 2 {
      var front, n := s[..|s| - 1], |s| - 1;
      DeltasExact(front, resets, registers, d);
      PairDeltasExact(s[n - 1], s[n], resets, registers, d);
      assert forall i :: 0 < i < n ==>
        (ReportedAt(front, resets, registers, d, i) <==> ReportedAt(s, resets, registers, d, i));
      assert d in PairDeltas(s[n - 1], s[n], resets, registers) <==> ReportedAt(s, resets, registers, d, n);
      if i :| 0 < i < |s| && ReportedAt(s, resets, registers, d, i) {
        assert i == n || ReportedAt(front, resets, registers, d, i);
      }
    }
  }

  predicate Earlier(a: NegativeDelta, b: NegativeDelta) {
    a.curTs < b.curTs || (a.curTs == b.curTs && a.register < b.register)
  }

  /** Pair by pair, and register by register within a pair; each once. */
  ghost predicate InOrder(out: seq<NegativeDelta>) {
    forall i, j :: 0 <= i < j < |out| ==> Earlier(out[i], out[j])
  }

  ghost predicate OfPair(out: seq<NegativeDelta>, ts: int, registers: nat) {
    forall i :: 0 <= i < |out| ==> out[i].curTs == ts && out[i].register < registers
  }

  ghost predicate UpTo(out: seq<NegativeDelta>, ts: int) {
    forall i :: 0 <= i < |out| ==> out[i].curTs <= ts
  }

  lemma OrderedConcat(a: seq<NegativeDelta>, b: seq<NegativeDelta>)
    requires InOrder(a) && InOrder(b)
    requires forall i, j :: 0 <= i < |a| && 0 <= j < |b| ==> Earlier(a[i], b[j])
    ensures InOrder(a + b)
  {
  }

  lemma {:induction false} PairDeltasInOrder(p: Reading, c: Reading, resets: seq<Reading>, registers: nat)
    requires registers <= ALL_REGISTERS
    ensures OfPair(PairDeltas(p, c, resets, registers), c.ts, registers) && InOrder(PairDeltas(p, c, resets, registers))
  {
    if registers > 0 {
      PairDeltasInOrder(p, c, resets, registers - 1);
      var before, d := PairDeltas(p, c, resets, registers - 1), NegativeDelta(registers - 1, p.ts, c.ts);
      OrderedConcat(before, [d]);
      assert OfPair(before, c.ts, registers) && OfPair(before + [d], c.ts, registers);
    }
  }

  /** Over readings in time order no fall is reported twice, and the report is in order. */
  lemma {:induction false} DeltasInOrder(s: seq<Reading>, resets: seq<Reading>, registers: nat)
    requires registers <= ALL_REGISTERS && forall i, j :: 0 <= i < j < |s| ==> s[i].ts < s[j].ts
    ensures InOrder(Deltas(s, resets, registers))
    ensures s != [] ==> UpTo(Deltas(s, resets, registers), s[|s| - 1].ts)
  {
    if |s| >= 2 {
      var front, p, c := s[..|s| - 1], s[|s| - 2], s[|s| - 1];
      DeltasInOrder(front, resets, registers);
      PairDeltasInOrder(p, c, resets, registers);
      var before, here := Deltas(front, resets, registers), PairDeltas(p, c, resets, registers);
      assert UpTo(before, p.ts) && OfPair(here, c.ts, registers);
      OrderedConcat(before, here);
      assert UpTo(before + here, c.ts);
    }
  }

  lemma Associative<T>(a: seq<T>, b: seq<T>, c: seq<T>)
    ensures (a + b) + c == a + (b + c)
  {
  }

  lemma DeltasSplitStep(left: seq<Reading>, head: seq<NegativeDelta>, right: seq<Reading>,
                        last: Reading, resets: seq<Reading>, registers: nat)
    requires left != [] && right != [] && left[|left| - 1] == right[|right| - 1] && registers <= ALL_REGISTERS
    requires Deltas(left, resets, registers) == head + Deltas(right, resets, registers)
    ensures Deltas(left + [last], resets, registers) == head + Deltas(right + [last], resets, registers)
  {
    DeltasOfOneMore(left, last, resets, registers);
    DeltasOfOneMore(right, last, resets, registers);
    Associative(head, Deltas(right, resets, registers), PairDeltas(left[|left| - 1], last, resets, registers));
  }

  lemma {:induction false} DeltasSplitFrom(a: seq<Reading>, x: seq<Reading>, b: seq<Reading>, resets: seq<Reading>,
                                           registers: nat)
    requires a != [] && x != [] && a[|a| - 1] == x[|x| - 1] && registers <= ALL_REGISTERS
    requires Deltas(x, resets, registers) == []
    ensures Deltas(a + b, resets, registers) == Deltas(a, resets, registers) + Deltas(x + b, resets, registers)
  {
    if b == [] {
      assert a + b == a && x + b == x;
    } else {
      var front, last := b[..|b| - 1], b[|b| - 1];
      var left, right := a + front, x + front;
      DeltasSplitFrom(a, x, front, resets, registers);
      ConcatLast(a, b);
      ConcatLast(x, b);
      if front != [] {
        assert left[|left| - 1] == front[|front| - 1] == right[|right| - 1];
      }
      DeltasSplitStep(left, Deltas(a, resets, registers), right, last, resets, registers);
    }
  }

  /** With one list of resets, two pages report what their concatenation
      reports, when the second page starts from the first one's last row. */
  lemma DeltasSplit(a: seq<Reading>, b: seq<Reading>, resets: seq<Reading>, registers: nat)
    requires a != [] && registers <= ALL_REGISTERS
    ensures Deltas(a + b, resets, registers)
      == Deltas(a, resets, registers) + Deltas([a[|a| - 1]] + b, resets, registers)
  {
    DeltasSplitFrom(a, [a[|a| - 1]], b, resets, registers);
  }
}

/** The stored anomalies, the paged listing behind the duplicate check, and
    what re-fetching a period does to them (internal/ingest/fetch.go). */
module Anomalies {
  import opened Readings
  import opened NegativeDeltas

  /** `register` is the register named in the stored detail; `negativeDelta`
      says whether the reason is the negative-delta one. */
  datatype Anomaly = Anomaly(id: nat, analyzer: nat, start: int, end: int, negativeDelta: bool,
                             register: nat, resolved: bool)

  /** AnomalyRepository.List returns this many rows when no page is asked for. */
  const DEFAULT_PAGE_LIMIT: nat := 100

  /** A timestamp as the database stores it: whole microseconds. */
  function Wire(t: int): int {
    t - t % MICROSECOND
  }

  predicate ValidRange(w: Window) {
    w.from != 0 && w.to != 0 && w.from < w.to
  }

  function CheckRange(d: NegativeDelta): Window {
    Window(d.prevTs, d.curTs + 1)
  }

  /** The rows the listing's where clause selects. */
  predicate InRange(a: Anomaly, analyzer: nat, d: NegativeDelta) {
    && a.analyzer == analyzer && a.negativeDelta
    && Wire(CheckRange(d).from) <= a.start < Wire(CheckRange(d).to)
  }

  /** The listing's order: latest period first, then by id. */
  predicate Before(a: Anomaly, b: Anomaly) {
    a.start > b.start || (a.start == b.start && a.id < b.id)
  }

  /** How many selected rows the listing puts before row i. */
  function Ahead(table: seq<Anomaly>, analyzer: nat, d: NegativeDelta, i: nat): set<nat>
    requires i < |table|
  {
    set j | 0 <= j < |table| && InRange(table[j], analyzer, d) && Before(table[j], table[i])
  }

  /** Row i is on the one page the check reads. */
  predicate Listed(table: seq<Anomaly>, analyzer: nat, d: NegativeDelta, i: nat)
    requires i < |table|
  {
    InRange(table[i], analyzer, d) && |Ahead(table, analyzer, d, i)| < DEFAULT_PAGE_LIMIT
  }

  /** Row i already records this period and register, resolved or not. */
  predicate Records(a: Anomaly, analyzer: nat, d: NegativeDelta) {
    && a.analyzer == analyzer && a.negativeDelta
    && a.start == d.prevTs && a.end == d.curTs && a.register == d.register
  }

  predicate Found(table: seq<Anomaly>, analyzer: nat, d: NegativeDelta) {
    exists i :: 0 <= i < |table| && Listed(table, analyzer, d, i) && Records(table[i], analyzer, d)
  }

  /** None stands for the error an invalid range is answered with. */
  method NegativeDeltaAnomalyExists(table: seq<Anomaly>, analyzer: nat, d: NegativeDelta)
    returns (found: Option<bool>)
    ensures found == if ValidRange(CheckRange(d)) then Some(Found(table, analyzer, d)) else None
  {
    if !ValidRange(CheckRange(d)) {
      return None;
    }
    for i := 0 to |table|
      invariant forall j :: 0 <= j < i ==> !(Listed(table, analyzer, d, j) && Records(table[j], analyzer, d))
    {
      if !Listed(table, analyzer, d, i) {
        continue;
      }
      if table[i].start != d.prevTs || table[i].end != d.curTs {
        continue;
      }
      if table[i].register == d.register {
        return Some(true);
      }
    }
    return Some(false);
  }

  // ----- The page the check reads

  /** The listing's where clause: this analyzer's negative deltas that start in the range. */
  predicate IsSelected(a: Anomaly, analyzer: nat, d: NegativeDelta) {
    a.analyzer == analyzer && a.negativeDelta && Wire(d.prevTs) <= a.start < Wire(d.curTs + 1)
  }

  /** Its order: latest period first, then by id. */
  predicate ComesBefore(a: Anomaly, b: Anomaly) {
    b.start < a.start || (a.start == b.start && a.id < b.id)
  }

  /** The first hundred selected rows, in that order, each once. */
  ghost predicate IsFirstPage(table: seq<Anomaly>, analyzer: nat, d: NegativeDelta, page: seq<nat>) {
    && |page| <= 100 && (forall k :: 0 <= k < |page| ==> page[k] < |table| && IsSelected(table[page[k]], analyzer, d))
    && (forall j, k :: 0 <= j < k < |page| ==> ComesBefore(table[page[j]], table[page[k]]))
    && (forall i :: 0 <= i < |table| && IsSelected(table[i], analyzer, d) && i !in page ==>
         |page| == 100 && forall k :: 0 <= k < |page| ==> ComesBefore(table[page[k]], table[i]))
  }

  ghost function IndexSet(page: seq<nat>): set<nat> {
    set i | i in page
  }

  lemma {:induction false} FewIndices(page: seq<nat>)
    ensures |IndexSet(page)| <= |page|
    ensures (forall j, k :: 0 <= j < k < |page| ==> page[j] != page[k]) ==> |IndexSet(page)| == |page|
  {
    if page != [] {
      var front, last := page[..|page| - 1], page[|page| - 1];
      FewIndices(front);
      assert IndexSet(page) == IndexSet(front) + {last};
    } else {
      assert IndexSet(page) == {};
    }
  }

  /** Times are stored as the whole microseconds that have passed. */
  lemma WireRoundsDown(t: int)
    ensures Wire(t) <= t < Wire(t) + 1_000 && Wire(t) % 1_000 == 0
  {
  }

  /** The check sees exactly the rows of the first page, provided ids differ. */
  lemma ListedIffOnFirstPage(table: seq<Anomaly>, analyzer: nat, d: NegativeDelta, page: seq<nat>, i: nat)
    requires IsFirstPage(table, analyzer, d, page) && i < |table|
    requires forall j, k :: 0 <= j < k < |table| ==> table[j].id != table[k].id
    ensures Listed(table, analyzer, d, i) <==> i in page
  {
    if IsSelected(table[i], analyzer, d) {
      var ahead := Ahead(table, analyzer, d, i);
      if i in page {
        var k :| 0 <= k < |page| && page[k] == i;
        OnlyEarlierOnes(table, analyzer, d, page, k);
        FewIndices(page[..k]);
        Smaller(ahead, IndexSet(page[..k]));
      } else {
        assert forall k :: 0 <= k < |page| ==> ComesBefore(table[page[k]], table[i]) && page[k] in ahead;
        FewIndices(page);
        Smaller(IndexSet(page), ahead);
      }
    }
  }

  lemma OnlyEarlierOnes(table: seq<Anomaly>, analyzer: nat, d: NegativeDelta, page: seq<nat>, k: nat)
    requires IsFirstPage(table, analyzer, d, page) && k < |page|
    ensures Ahead(table, analyzer, d, page[k]) <= IndexSet(page[..k])
  {
    forall j | j in Ahead(table, analyzer, d, page[k]) ensures j in page[..k] {
      assert IsSelected(table[j], analyzer, d) && ComesBefore(table[j], table[page[k]]);
      assert j in page;
      var l :| 0 <= l < |page| && page[l] == j;
      assert l < k;
      assert page[..k][l] == j;
    }
  }

  // ----- Re-fetching

  function NewAnomaly(id: nat, analyzer: nat, d: NegativeDelta): Anomaly {
    Anomaly(id, analyzer, Wire(d.prevTs), Wire(d.curTs), true, d.register, false)
  }

  /** The table after one delta was checked and, if not found, created. */
  function AfterRefetch(table: seq<Anomaly>, analyzer: nat, d: NegativeDelta, id: nat): seq<Anomaly> {
    if Found(table, analyzer, d) then table else table + [NewAnomaly(id, analyzer, d)]
  }

  predicate SamePeriodAndRegister(a: Anomaly, b: Anomaly) {
    a.analyzer == b.analyzer && a.start == b.start && a.end == b.end && a.register == b.register
  }

  /** At most one negative-delta record per analyzer, period and register. */
  ghost predicate OneRecordEach(table: seq<Anomaly>) {
    forall i, j :: 0 <= i < j < |table| && table[i].negativeDelta && table[j].negativeDelta
      ==> !SamePeriodAndRegister(table[i], table[j])
  }

  /** Timestamps are whole microseconds, as the database stores them. */
  predicate OnWire(d: NegativeDelta) {
    Wire(d.prevTs) == d.prevTs && Wire(d.curTs) == d.curTs
  }

  /** The column holds whole microseconds. */
  ghost predicate TableOnWire(table: seq<Anomaly>) {
    forall i :: 0 <= i < |table| ==> Wire(table[i].start) == table[i].start && Wire(table[i].end) == table[i].end
  }

  /** The row a fall was or would be stored as. */
  predicate StoredAs(a: Anomaly, analyzer: nat, d: NegativeDelta) {
    && a.analyzer == analyzer && a.negativeDelta
    && a.start == Wire(d.prevTs) && a.end == Wire(d.curTs) && a.register == d.register
  }

  /** The existing record, if any, is on the page the check reads, and the fall's
      timestamps survived storing. */
  ghost predicate RecordVisible(table: seq<Anomaly>, analyzer: nat, d: NegativeDelta) {
    forall i :: 0 <= i < |table| && StoredAs(table[i], analyzer, d) ==> OnWire(d) && Listed(table, analyzer, d, i)
  }

  /** The duplicate check is exact precisely while the existing record is
      visible: a re-fetch keeps one record each iff it is. */
  lemma RefetchKeepsOneRecordIff(table: seq<Anomaly>, analyzer: nat, d: NegativeDelta, id: nat)
    requires OneRecordEach(table) && TableOnWire(table)
    ensures TableOnWire(AfterRefetch(table, analyzer, d, id))
    ensures OneRecordEach(AfterRefetch(table, analyzer, d, id)) <==> RecordVisible(table, analyzer, d)
  {
    var after := AfterRefetch(table, analyzer, d, id);
    if Found(table, analyzer, d) {
      var i :| 0 <= i < |table| && Listed(table, analyzer, d, i) && Records(table[i], analyzer, d);
      forall j | 0 <= j < |table| && StoredAs(table[j], analyzer, d) ensures j == i {
        assert SamePeriodAndRegister(table[i], table[j]);
      }
    } else {
      var added := after[|table|];
      if RecordVisible(table, analyzer, d) {
        forall i | 0 <= i < |table| && table[i].negativeDelta ensures !SamePeriodAndRegister(table[i], added) {
          assert !StoredAs(table[i], analyzer, d);
        }
      } else {
        var i :| 0 <= i < |table| && StoredAs(table[i], analyzer, d) && !(OnWire(d) && Listed(table, analyzer, d, i));
        assert SamePeriodAndRegister(after[i], added);
      }
    }
  }

  ghost function RowsInRange(table: seq<Anomaly>, analyzer: nat, d: NegativeDelta): set<nat> {
    set j | 0 <= j < |table| && InRange(table[j], analyzer, d)
  }

  /** A period with at most a page of records starting in it is checked exactly. */
  lemma SmallPeriodsAreVisible(table: seq<Anomaly>, analyzer: nat, d: NegativeDelta)
    requires OnWire(d) && d.prevTs < d.curTs
    requires |RowsInRange(table, analyzer, d)| <= DEFAULT_PAGE_LIMIT
    ensures RecordVisible(table, analyzer, d)
  {
    forall i | 0 <= i < |table| && StoredAs(table[i], analyzer, d) ensures Listed(table, analyzer, d, i) {
      WireStep(d);
      var ahead, rows := Ahead(table, analyzer, d, i), RowsInRange(table, analyzer, d);
      assert i in rows && i !in ahead;
      Smaller(ahead, rows - {i});
    }
  }

  lemma WireStep(d: NegativeDelta)
    requires OnWire(d)
    ensures Wire(CheckRange(d).to) == d.curTs
  {
  }

  lemma {:induction false} Smaller(a: set<nat>, b: set<nat>)
    requires a <= b
    ensures |a| <= |b|
  {
    if a != {} {
      var x :| x in a;
      Smaller(a - {x}, b - {x});
    }
  }

  // ----- Every sequence of re-fetches

  datatype Op =
    | Refetch(analyzer: nat, delta: NegativeDelta, id: nat)
    | Resolve(index: nat)
    | Other(anomaly: Anomaly)

  /** Resolving never deletes; other writers record other reasons. */
  function Apply(table: seq<Anomaly>, op: Op): seq<Anomaly> {
    match op
    case Refetch(analyzer, d, id) =>
      if ValidRange(CheckRange(d)) then AfterRefetch(table, analyzer, d, id) else table
    case Resolve(i) => if i < |table| then table[i := table[i].(resolved := true)] else table
    case Other(a) => table + [a.(negativeDelta := false, start := Wire(a.start), end := Wire(a.end))]
  }

  function ApplyAll(table: seq<Anomaly>, ops: seq<Op>): seq<Anomaly> {
    if ops == [] then table else Apply(ApplyAll(table, ops[..|ops| - 1]), ops[|ops| - 1])
  }

  /** No re-fetch of the sequence has its record pushed off the page. */
  ghost predicate AlwaysVisible(table: seq<Anomaly>, ops: seq<Op>) {
    forall k :: 0 <= k < |ops| && ops[k].Refetch? && ValidRange(CheckRange(ops[k].delta)) ==>
      RecordVisible(ApplyAll(table, ops[..k]), ops[k].analyzer, ops[k].delta)
  }

  /** Over any sequence of non-overlapping re-fetches, resolutions and foreign
      writes, no period and register is ever recorded twice. */
  lemma {:induction false} RefetchesNeverDuplicate(table: seq<Anomaly>, ops: seq<Op>)
    requires OneRecordEach(table) && TableOnWire(table) && AlwaysVisible(table, ops)
    ensures OneRecordEach(ApplyAll(table, ops)) && TableOnWire(ApplyAll(table, ops))
  {
    if ops != [] {
      var n := |ops| - 1;
      var front := ops[..n];
      forall k | 0 <= k < n && front[k].Refetch? && ValidRange(CheckRange(front[k].delta))
        ensures RecordVisible(ApplyAll(table, front[..k]), front[k].analyzer, front[k].delta)
      {
        assert front[..k] == ops[..k] && front[k] == ops[k];
      }
      RefetchesNeverDuplicate(table, front);
      var before := ApplyAll(table, front);
      match ops[n]
      case Refetch(analyzer, d, id) =>
        if ValidRange(CheckRange(d)) {
          RefetchKeepsOneRecordIff(before, analyzer, d, id);
        }
      case Resolve(i) => ResolveKeeps(before, i);
      case Other(a) =>
    }
  }

  lemma {:induction false} OpsInTurn(table: seq<Anomaly>, a: seq<Op>, b: seq<Op>)
    ensures ApplyAll(table, a + b) == ApplyAll(ApplyAll(table, a), b)
  {
    if b == [] {
      assert a + b == a;
    } else {
      OpsInTurn(table, a, b[..|b| - 1]);
      assert (a + b)[..|a + b| - 1] == a + b[..|b| - 1];
    }
  }

  lemma ResolveKeeps(table: seq<Anomaly>, i: nat)
    requires OneRecordEach(table)
    ensures OneRecordEach(Apply(table, Resolve(i)))
  {
    var after := Apply(table, Resolve(i));
    forall j, k | 0 <= j < k < |after| && after[j].negativeDelta && after[k].negativeDelta
      ensures !SamePeriodAndRegister(after[j], after[k])
    {
      assert !SamePeriodAndRegister(table[j], table[k]);
    }
  }

  // ----- A record pushed off the page

  /** A daily fall over period d, and n falls of a finer kind that start inside it. */
  function CrowdedTable(d: NegativeDelta, n: nat): seq<Anomaly> {
    [Anomaly(0, 7, d.prevTs, d.curTs, true, 0, false)] +
    seq(n, i requires 0 <= i < n =>
      Anomaly(i + 1, 7, d.prevTs + MICROSECOND * (i + 1), d.prevTs + MICROSECOND * (i + 2), true, 0, false))
  }

  /** With a hundred finer records inside the period the check misses the daily
      one, and re-fetching the day records it a second time. */
  lemma CrowdedPeriodDuplicates(d: NegativeDelta, n: nat, id: nat)
    requires OnWire(d) && d.register == 0 && n >= DEFAULT_PAGE_LIMIT
    requires d.curTs > d.prevTs + MICROSECOND * n
    ensures OneRecordEach(CrowdedTable(d, n)) && TableOnWire(CrowdedTable(d, n)) && Records(CrowdedTable(d, n)[0], 7, d)
    ensures !OneRecordEach(AfterRefetch(CrowdedTable(d, n), 7, d, id))
  {
    var table := CrowdedTable(d, n);
    CrowdedHidesTheFirst(d, n);
    CrowdedRowsDiffer(d, n);
    CrowdedOnWire(d, n);
    hide Listed, CrowdedTable, AfterRefetch, TableOnWire;
    assert StoredAs(table[0], 7, d);
    RefetchKeepsOneRecordIff(table, 7, d, id);
  }

  lemma CrowdedHidesTheFirst(d: NegativeDelta, n: nat)
    requires OnWire(d) && d.register == 0 && n >= DEFAULT_PAGE_LIMIT
    requires d.curTs > d.prevTs + MICROSECOND * n
    ensures !Listed(CrowdedTable(d, n), 7, d, 0) && Records(CrowdedTable(d, n)[0], 7, d)
  {
    var table := CrowdedTable(d, n);
    WireStep(d);
    var ahead := Ahead(table, 7, d, 0);
    SizeOfUpTo(n);
    forall j | j in UpTo(n) ensures j in ahead {
      assert table[j].start == d.prevTs + MICROSECOND * j;
    }
    Smaller(UpTo(n), ahead);
  }

  lemma CrowdedOnWire(d: NegativeDelta, n: nat)
    requires OnWire(d)
    ensures TableOnWire(CrowdedTable(d, n))
  {
    var table := CrowdedTable(d, n);
    forall i | 0 <= i < |table| ensures Wire(table[i].start) == table[i].start && Wire(table[i].end) == table[i].end {
      LaterOnWire(d.prevTs, i);
      LaterOnWire(d.prevTs, i + 1);
    }
  }

  lemma LaterOnWire(t: int, i: nat)
    requires Wire(t) == t
    ensures Wire(t + MICROSECOND * i) == t + MICROSECOND * i
  {
    assert t == t / MICROSECOND * MICROSECOND;
    assert t + MICROSECOND * i == (t / MICROSECOND + i) * MICROSECOND;
  }

  lemma CrowdedRowsDiffer(d: NegativeDelta, n: nat)
    ensures OneRecordEach(CrowdedTable(d, n))
  {
    var table := CrowdedTable(d, n);
    forall i, j | 0 <= i < j < |table| ensures !SamePeriodAndRegister(table[i], table[j]) {
      assert table[j].start == d.prevTs + MICROSECOND * j && table[i].start == d.prevTs + MICROSECOND * i;
    }
  }

  ghost function UpTo(n: nat): set<nat> {
    if n == 0 then {} else UpTo(n - 1) + {n}
  }

  lemma {:induction false} SizeOfUpTo(n: nat)
    ensures |UpTo(n)| == n && forall i :: i in UpTo(n) <==> 1 <= i <= n
  {
    if n > 0 {
      SizeOfUpTo(n - 1);
    }
  }
}
