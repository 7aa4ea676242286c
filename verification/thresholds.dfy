/** The sanity thresholds of a reading history (internal/ingest/validate.go):
    the median of the positive deltas of one register and the median spacing of
    the pairs that produced them. Decimals are exact reals. */
module Thresholds {
  import opened Readings

  /** Fewer positive deltas than this switch the check off for a register. */
  const MIN_HISTORY_SAMPLES: nat := 24

  /** `deltas[i]` and `spacings[i]` come from the same pair of readings. */
  datatype Samples = Samples(deltas: seq<real>, spacings: seq<int>)

  /** A trusted median; the type carries what makes the later division defined. */
  datatype ThresholdRaw = Threshold(median: real, spacing: int)
  type Threshold = t: ThresholdRaw | t.median > 0.0 && t.spacing > 0 witness Threshold(1.0, 1)

  type Thresholds = s: seq<Option<Threshold>> | |s| == CUMULATIVE_REGISTERS
    witness seq(CUMULATIVE_REGISTERS, _ => None)

  /** The last of the first n readings that reports register reg. */
  function LastReported(history: seq<Reading>, reg: nat, n: nat): (i: Option<nat>)
    requires n <= |history| && reg < CUMULATIVE_REGISTERS
    ensures i.Some? ==> i.value < n && history[i.value].regs[reg].Some?
  {
    if n == 0 then None
    else if history[n - 1].regs[reg].Some? then Some(n - 1)
    else LastReported(history, reg, n - 1)
  }

  /** Readings i < j are consecutive reports of reg that rise over a positive gap. */
  predicate RisingPair(history: seq<Reading>, reg: nat, i: nat, j: nat)
    requires i < |history| && j < |history| && reg < CUMULATIVE_REGISTERS
  {
    && history[i].regs[reg].Some? && history[j].regs[reg].Some?
    && history[j].ts - history[i].ts > 0
    && history[j].regs[reg].value - history[i].regs[reg].value > 0.0
  }

  function SamplesOf(history: seq<Reading>, reg: nat, n: nat): Samples
    requires n <= |history| && reg < CUMULATIVE_REGISTERS
  {
    if n == 0 then Samples([], [])
    else
      var rest := SamplesOf(history, reg, n - 1);
      match LastReported(history, reg, n - 1)
      case None => rest
      case Some(i) =>
        if RisingPair(history, reg, i, n - 1) then
          Samples(rest.deltas + [history[n - 1].regs[reg].value - history[i].regs[reg].value],
                  rest.spacings + [history[n - 1].ts - history[i].ts])
        else rest
  }

  method RegisterDeltaSamples(history: seq<Reading>, reg: nat) returns (deltas: seq<real>, spacings: seq<int>)
    requires reg < CUMULATIVE_REGISTERS
    ensures Samples(deltas, spacings) == SamplesOf(history, reg, |history|)
  {
    deltas, spacings := [], [];
    var prevVal: Option<real> := None;
    var prevTs := 0;
    for n := 0 to |history|
      invariant Samples(deltas, spacings) == SamplesOf(history, reg, n)
      invariant prevVal.Some? <==> LastReported(history, reg, n).Some?
      invariant prevVal.Some? ==> var last := history[LastReported(history, reg, n).value];
        prevVal == last.regs[reg] && prevTs == last.ts
    {
      var v := history[n].regs[reg];
      if v.Some? {
        if prevVal.Some? {
          var gap := history[n].ts - prevTs;
          var delta := v.value - prevVal.value;
          if gap > 0 && delta > 0.0 {
            deltas := deltas + [delta];
            spacings := spacings + [gap];
          }
        }
        prevVal := v;
        prevTs := history[n].ts;
      }
    }
  }

  ghost predicate AllPositive(s: Samples) {
    && |s.deltas| == |s.spacings|
    && (forall i :: 0 <= i < |s.deltas| ==> s.deltas[i] > 0.0)
    && (forall i :: 0 <= i < |s.spacings| ==> s.spacings[i] > 0)
  }

  lemma {:induction false} SamplesArePositive(history: seq<Reading>, reg: nat, n: nat)
    requires n <= |history| && reg < CUMULATIVE_REGISTERS
    ensures AllPositive(SamplesOf(history, reg, n))
  {
    if n > 0 {
      SamplesArePositive(history, reg, n - 1);
    }
  }

  // ----- Medians of a sorted copy

  function Insert<T>(x: T, sorted: seq<T>, key: T -> real): seq<T> {
    if sorted == [] || key(x) <= key(sorted[0]) then [x] + sorted
    else [sorted[0]] + Insert(x, sorted[1..], key)
  }

  /** The sorted copy the medians read. */
  function SortedCopy<T>(s: seq<T>, key: T -> real): seq<T> {
    if s == [] then [] else Insert(s[0], SortedCopy(s[1..], key), key)
  }

  ghost predicate SortedBy<T>(s: seq<T>, key: T -> real) {
    forall i, j :: 0 <= i < j < |s| ==> key(s[i]) <= key(s[j])
  }

  lemma {:induction false} InsertPermutes<T>(x: T, sorted: seq<T>, key: T -> real)
    ensures multiset(Insert(x, sorted, key)) == multiset(sorted) + multiset{x}
  {
    if sorted != [] && !(key(x) <= key(sorted[0])) {
      InsertPermutes(x, sorted[1..], key);
      assert sorted == [sorted[0]] + sorted[1..];
    }
  }

  lemma {:induction false} InsertSorts<T>(x: T, sorted: seq<T>, key: T -> real)
    requires SortedBy(sorted, key)
    ensures SortedBy(Insert(x, sorted, key), key)
  {
    if sorted != [] && !(key(x) <= key(sorted[0])) {
      var rest := Insert(x, sorted[1..], key);
      InsertSorts(x, sorted[1..], key);
      InsertPermutes(x, sorted[1..], key);
      forall i | 0 <= i < |rest| ensures key(sorted[0]) <= key(rest[i]) {
        assert rest[i] in multiset(rest);
        assert rest[i] in multiset(sorted[1..]) || rest[i] == x;
      }
    }
  }

  lemma {:induction false} SortedCopySorts<T>(s: seq<T>, key: T -> real)
    ensures SortedBy(SortedCopy(s, key), key)
    ensures multiset(SortedCopy(s, key)) == multiset(s)
    ensures |SortedCopy(s, key)| == |s|
  {
    if s != [] {
      var rest := SortedCopy(s[1..], key);
      SortedCopySorts(s[1..], key);
      InsertSorts(s[0], rest, key);
      InsertPermutes(s[0], rest, key);
      assert s == [s[0]] + s[1..];
      assert |multiset(Insert(s[0], rest, key))| == |multiset(rest)| + 1;
    }
  }

  function Identity(x: real): real { x }
  function AsReal(x: int): real { x as real }

  method Median(vals: seq<real>) returns (m: real)
    requires |vals| > 0
    ensures exists sorted: seq<real> | |sorted| == |vals| ::
      SortedBy(sorted, Identity) && multiset(sorted) == multiset(vals) && m == MiddleReal(sorted)
    ensures m == MedianOf(vals)
  {
    var sorted := SortedCopy(vals, Identity);
    SortedCopySorts(vals, Identity);
    var n := |sorted|;
    if n % 2 == 1 {
      m := sorted[n / 2];
    } else {
      m := (sorted[n / 2 - 1] + sorted[n / 2]) / 2.0;
    }
  }

  function MiddleReal(sorted: seq<real>): real
    requires |sorted| > 0
  {
    var n := |sorted|;
    if n % 2 == 1 then sorted[n / 2] else (sorted[n / 2 - 1] + sorted[n / 2]) / 2.0
  }

  function MedianOf(vals: seq<real>): real
    requires |vals| > 0
  {
    SortedCopySorts(vals, Identity);
    MiddleReal(SortedCopy(vals, Identity))
  }

  /** Go's integer halving; both middles are positive where it is used. */
  function MiddleInt(sorted: seq<int>): int
    requires |sorted| > 0
  {
    var n := |sorted|;
    if n % 2 == 1 then sorted[n / 2] else Halve(sorted[n / 2 - 1] + sorted[n / 2])
  }

  /** Division by two that truncates toward zero. */
  function Halve(x: int): int {
    if x >= 0 then x / 2 else -((-x) / 2)
  }

  function MedianDurationOf(vals: seq<int>): int
    requires |vals| > 0
  {
    SortedCopySorts(vals, AsReal);
    MiddleInt(SortedCopy(vals, AsReal))
  }

  /** A median stays between any bounds all the samples respect. */
  lemma MedianBetween(vals: seq<real>, lo: real, hi: real)
    requires |vals| > 0 && forall i :: 0 <= i < |vals| ==> lo <= vals[i] <= hi
    ensures lo <= MedianOf(vals) <= hi
  {
    var sorted := SortedCopy(vals, Identity);
    SortedCopySorts(vals, Identity);
    forall i | 0 <= i < |sorted| ensures lo <= sorted[i] <= hi {
      assert sorted[i] in multiset(sorted);
      assert sorted[i] in multiset(vals);
    }
  }

  lemma MedianPositive(vals: seq<real>)
    requires |vals| > 0 && forall i :: 0 <= i < |vals| ==> vals[i] > 0.0
    ensures MedianOf(vals) > 0.0
  {
    var sorted := SortedCopy(vals, Identity);
    SortedCopySorts(vals, Identity);
    forall i | 0 <= i < |sorted| ensures sorted[i] > 0.0 {
      assert sorted[i] in multiset(sorted);
      assert sorted[i] in multiset(vals);
    }
  }

  /** Halving never loses the last nanosecond: the median spacing stays positive. */
  lemma MedianDurationPositive(vals: seq<int>)
    requires |vals| > 0 && forall i :: 0 <= i < |vals| ==> vals[i] > 0
    ensures MedianDurationOf(vals) > 0
  {
    var sorted := SortedCopy(vals, AsReal);
    SortedCopySorts(vals, AsReal);
    forall i | 0 <= i < |sorted| ensures sorted[i] > 0 {
      assert sorted[i] in multiset(sorted);
      assert sorted[i] in multiset(vals);
    }
  }

  /** What the history says about one register. */
  function ThresholdOf(history: seq<Reading>, reg: nat): Option<Threshold>
    requires reg < CUMULATIVE_REGISTERS
  {
    var samples := SamplesOf(history, reg, |history|);
    SamplesArePositive(history, reg, |history|);
    if |samples.deltas| < MIN_HISTORY_SAMPLES then None
    else
      MedianPositive(samples.deltas);
      MedianDurationPositive(samples.spacings);
      Some(Threshold(MedianOf(samples.deltas), MedianDurationOf(samples.spacings)))
  }

  function ThresholdsOf(history: seq<Reading>): Thresholds {
    seq(CUMULATIVE_REGISTERS, reg requires 0 <= reg < CUMULATIVE_REGISTERS => ThresholdOf(history, reg))
  }

  method SanityThresholds(history: seq<Reading>) returns (out: Thresholds)
    ensures out == ThresholdsOf(history)
  {
    var built: seq<Option<Threshold>> := [];
    for reg := 0 to CUMULATIVE_REGISTERS
      invariant |built| == reg
      invariant forall r :: 0 <= r < reg ==> built[r] == ThresholdOf(history, r)
    {
      var deltas, spacings := RegisterDeltaSamples(history, reg);
      SamplesArePositive(history, reg, |history|);
      if |deltas| < MIN_HISTORY_SAMPLES {
        built := built + [None];
      } else {
        var median := Median(deltas);
        MedianPositive(deltas);
        MedianDurationPositive(spacings);
        built := built + [Some(Threshold(median, MedianDurationOf(spacings)))];
      }
    }
    out := built;
  }

  // ----- Where a threshold comes from

  /** Readings i < j report the register and none between them does. */
  predicate ConsecutiveReports(history: seq<Reading>, reg: nat, i: nat, j: nat)
    requires reg < CUMULATIVE_REGISTERS
  {
    && i < j < |history| && history[i].regs[reg].Some? && history[j].regs[reg].Some?
    && forall k :: i < k < j ==> history[k].regs[reg].None?
  }

  /** They rise, and time passes between them. */
  predicate Rises(history: seq<Reading>, reg: nat, i: nat, j: nat)
    requires reg < CUMULATIVE_REGISTERS && ConsecutiveReports(history, reg, i, j)
  {
    history[i].ts < history[j].ts && history[i].regs[reg].value < history[j].regs[reg].value
  }

  /** Sample t is the step and the spacing of readings from[t] and to[t]; every rising
      pair among the first n readings is sampled once, in order. */
  ghost predicate AreSamples(history: seq<Reading>, reg: nat, n: nat, s: Samples, from: seq<nat>, to: seq<nat>)
    requires reg < CUMULATIVE_REGISTERS
  {
    && |from| == |to| == |s.deltas| == |s.spacings| && Increasing(to)
    && (forall t :: 0 <= t < |to| ==>
         && to[t] < n && ConsecutiveReports(history, reg, from[t], to[t]) && Rises(history, reg, from[t], to[t])
         && s.deltas[t] == history[to[t]].regs[reg].value - history[from[t]].regs[reg].value
         && s.spacings[t] == history[to[t]].ts - history[from[t]].ts)
    && (forall i: nat, j: nat :: j < n && ConsecutiveReports(history, reg, i, j) && Rises(history, reg, i, j) ==> j in to)
  }

  lemma {:induction false} LastReportedMeaning(history: seq<Reading>, reg: nat, n: nat)
    requires n <= |history| && reg < CUMULATIVE_REGISTERS
    ensures var last := LastReported(history, reg, n);
      forall k :: (if last.Some? then last.value + 1 else 0) <= k < n ==> history[k].regs[reg].None?
  {
    if n > 0 && history[n - 1].regs[reg].None? {
      LastReportedMeaning(history, reg, n - 1);
    }
  }

  lemma OneMoreSample(history: seq<Reading>, reg: nat, n: nat, s: Samples, from: seq<nat>, to: seq<nat>, i: nat)
    requires reg < CUMULATIVE_REGISTERS && AreSamples(history, reg, n, s, from, to)
    requires ConsecutiveReports(history, reg, i, n) && Rises(history, reg, i, n)
    ensures var more := Samples(s.deltas + [history[n].regs[reg].value - history[i].regs[reg].value],
                                s.spacings + [history[n].ts - history[i].ts]);
      AreSamples(history, reg, n + 1, more, from + [i], to + [n])
  {
    hide Rises, ConsecutiveReports;
    forall a: nat, b: nat | b < n + 1 && ConsecutiveReports(history, reg, a, b) && Rises(history, reg, a, b)
      ensures b in to + [n]
    {
      assert b < n ==> b in to;
    }
  }

  lemma NoMoreSample(history: seq<Reading>, reg: nat, n: nat, s: Samples, from: seq<nat>, to: seq<nat>)
    requires reg < CUMULATIVE_REGISTERS && AreSamples(history, reg, n, s, from, to)
    requires forall i: nat :: ConsecutiveReports(history, reg, i, n) ==> !Rises(history, reg, i, n)
    ensures AreSamples(history, reg, n + 1, s, from, to)
  {
    hide Rises, ConsecutiveReports;
  }

  /** Only the last report before reading n can pair with it. */
  lemma PairsWithTheLastReport(history: seq<Reading>, reg: nat, n: nat)
    requires n < |history| && reg < CUMULATIVE_REGISTERS
    ensures var last := LastReported(history, reg, n);
      && (forall i: nat :: ConsecutiveReports(history, reg, i, n) ==>
           last == Some(i) && (Rises(history, reg, i, n) <==> RisingPair(history, reg, i, n)))
      && (last.Some? && history[n].regs[reg].Some? ==> ConsecutiveReports(history, reg, last.value, n))
  {
    LastReportedMeaning(history, reg, n);
    var last := LastReported(history, reg, n);
    hide LastReported;
  }

  lemma NextSamples(history: seq<Reading>, reg: nat, n: nat)
    requires n < |history| && reg < CUMULATIVE_REGISTERS
    ensures var before, last := SamplesOf(history, reg, n), LastReported(history, reg, n);
      SamplesOf(history, reg, n + 1) ==
        if last.Some? && RisingPair(history, reg, last.value, n) then
          Samples(before.deltas + [history[n].regs[reg].value - history[last.value].regs[reg].value],
                  before.spacings + [history[n].ts - history[last.value].ts])
        else before
  {
  }

  lemma NoSamples(history: seq<Reading>, reg: nat)
    requires reg < CUMULATIVE_REGISTERS
    ensures AreSamples(history, reg, 0, SamplesOf(history, reg, 0), [], [])
  {
  }

  lemma {:induction false} SamplesAreThoseOfRisingPairs(history: seq<Reading>, reg: nat, n: nat)
    returns (from: seq<nat>, to: seq<nat>)
    requires n <= |history| && reg < CUMULATIVE_REGISTERS
    ensures AreSamples(history, reg, n, SamplesOf(history, reg, n), from, to)
  {
    hide SamplesOf, ConsecutiveReports, AreSamples, LastReported;
    if n == 0 {
      from, to := [], [];
      NoSamples(history, reg);
    } else {
      from, to := SamplesAreThoseOfRisingPairs(history, reg, n - 1);
      PairsWithTheLastReport(history, reg, n - 1);
      NextSamples(history, reg, n - 1);
      var before, last := SamplesOf(history, reg, n - 1), LastReported(history, reg, n - 1);
      if last.Some? && RisingPair(history, reg, last.value, n - 1) {
        OneMoreSample(history, reg, n - 1, before, from, to, last.value);
        from, to := from + [last.value], to + [n - 1];
      } else {
        NoMoreSample(history, reg, n - 1, before, from, to);
      }
    }
  }

  /** m is the middle of the values in order, or half-way between the two middle ones. */
  ghost predicate IsMedian(vals: seq<real>, m: real) {
    exists sorted: seq<real> | |sorted| == |vals| > 0 ::
      && multiset(sorted) == multiset(vals) && (forall i, j :: 0 <= i < j < |sorted| ==> sorted[i] <= sorted[j])
      && 2.0 * m == sorted[(|sorted| - 1) / 2] + sorted[|sorted| / 2]
  }

  /** The same in whole nanoseconds, rounded down. */
  ghost predicate IsMedianDuration(vals: seq<int>, m: int) {
    exists sorted: seq<int> | |sorted| == |vals| > 0 ::
      && multiset(sorted) == multiset(vals) && (forall i, j :: 0 <= i < j < |sorted| ==> sorted[i] <= sorted[j])
      && m == (sorted[(|sorted| - 1) / 2] + sorted[|sorted| / 2]) / 2
  }

  lemma Middles(n: nat)
    requires n > 0
    ensures if n % 2 == 1 then (n - 1) / 2 == n / 2 else (n - 1) / 2 == n / 2 - 1
  {
  }

  lemma MedianOfIsMedian(vals: seq<real>)
    requires vals != []
    ensures IsMedian(vals, MedianOf(vals))
  {
    var sorted := SortedCopy(vals, Identity);
    SortedCopySorts(vals, Identity);
    hide SortedCopy;
    Middles(|sorted|);
    assert |sorted| % 2 == 1 || |sorted| % 2 == 0;
    assert 2.0 * MiddleReal(sorted) == sorted[(|sorted| - 1) / 2] + sorted[|sorted| / 2];
    hide MiddleReal;
    assert forall i, j :: 0 <= i < j < |sorted| ==> sorted[i] <= sorted[j] by {
      InOrder(sorted);
    }
  }

  lemma InOrder(sorted: seq<real>)
    requires SortedBy(sorted, Identity)
    ensures forall i, j :: 0 <= i < j < |sorted| ==> sorted[i] <= sorted[j]
  {
    assert forall i, j :: 0 <= i < j < |sorted| ==> Identity(sorted[i]) <= Identity(sorted[j]);
  }

  lemma InOrderInt(sorted: seq<int>)
    requires SortedBy(sorted, AsReal)
    ensures forall i, j :: 0 <= i < j < |sorted| ==> sorted[i] <= sorted[j]
  {
    assert forall i, j :: 0 <= i < j < |sorted| ==> AsReal(sorted[i]) <= AsReal(sorted[j]);
  }

  lemma MembersPositive(sorted: seq<int>, vals: seq<int>)
    requires multiset(sorted) == multiset(vals) && forall i :: 0 <= i < |vals| ==> vals[i] > 0
    ensures forall i :: 0 <= i < |sorted| ==> sorted[i] > 0
  {
    forall i | 0 <= i < |sorted| ensures sorted[i] > 0 {
      assert sorted[i] in multiset(sorted) && sorted[i] in multiset(vals);
    }
  }

  lemma MiddleIntIs(sorted: seq<int>)
    requires sorted != [] && forall i :: 0 <= i < |sorted| ==> sorted[i] > 0
    ensures MiddleInt(sorted) == (sorted[(|sorted| - 1) / 2] + sorted[|sorted| / 2]) / 2
  {
    Middles(|sorted|);
  }

  lemma MedianDurationOfIsMedian(vals: seq<int>)
    requires vals != [] && forall i :: 0 <= i < |vals| ==> vals[i] > 0
    ensures IsMedianDuration(vals, MedianDurationOf(vals))
  {
    hide MiddleInt, SortedCopy;
    var sorted := SortedCopy(vals, AsReal);
    SortedCopySorts(vals, AsReal);
    MembersPositive(sorted, vals);
    MiddleIntIs(sorted);
    InOrderInt(sorted);
  }

  /** A register has a threshold exactly when at least 24 pairs of its consecutive
      reports rise: the median of their steps and of their spacings. */
  lemma ThresholdIsMedianOfRisingPairs(history: seq<Reading>, reg: nat) returns (from: seq<nat>, to: seq<nat>, s: Samples)
    requires reg < CUMULATIVE_REGISTERS
    ensures AreSamples(history, reg, |history|, s, from, to)
    ensures var th := ThresholdsOf(history)[reg];
      && (th.Some? <==> |to| >= 24)
      && (th.Some? ==> IsMedian(s.deltas, th.value.median) && IsMedianDuration(s.spacings, th.value.spacing))
  {
    from, to := SamplesAreThoseOfRisingPairs(history, reg, |history|);
    s := SamplesOf(history, reg, |history|);
    SamplesArePositive(history, reg, |history|);
    if |to| >= 24 {
      MedianOfIsMedian(s.deltas);
      MedianDurationOfIsMedian(s.spacings);
    }
  }
}
