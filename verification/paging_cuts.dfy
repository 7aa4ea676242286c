/** When cutting a chunk after one of its pages shows, reset rows included
    (internal/ingest/fetch.go, internal/ingest/validate.go). */
module PageCuts {
  import opened Readings
  import opened Deduplication
  import opened Thresholds
  import opened Validation
  import opened ValidationProperties
  import opened Page
  import opened Paging

  // ----- What a previous reading allows

  /** The most register g may read at t before it jumps; none when nothing limits it. */
  function Ceiling(p: Option<Reading>, g: nat, t: int, ctx: Context): Option<real>
    requires g < CUMULATIVE_REGISTERS
  {
    if p.None? || t <= p.value.ts || p.value.regs[g].None? || ctx.thresholds[g].None? then None
    else Some(p.value.regs[g].value + Limit(ctx.thresholds[g].value, ctx.options.sanityMultiple, t - p.value.ts))
  }

  /** No register reads below zero, so ceilings below zero are all alike. */
  predicate SameCeiling(c: Option<real>, d: Option<real>) {
    c == d || (c.Some? && d.Some? && c.value < 0.0 && d.value < 0.0)
  }

  predicate Unused(x: seq<Reading>, k: Key) {
    forall i :: 0 <= i < |x| ==> KeyOf(x[i]) != k
  }

  /** A row at t can follow the rows of x in one chunk, and is not a future one. */
  predicate Open(x: seq<Reading>, analyzer: nat, kind: Kind, t: int, ctx: Context) {
    && t != 0 && t <= ctx.now + ctx.options.futureTolerance
    && (Unused(x, Key(analyzer, t, kind)) || Unused(x, Key(analyzer, t, Reset)))
  }

  /** p and q allow the same to every row that can follow x. */
  ghost predicate SameCeilings(p: Option<Reading>, q: Option<Reading>, x: seq<Reading>, analyzer: nat, kind: Kind,
                               ctx: Context) {
    forall g: nat, t: int | g < CUMULATIVE_REGISTERS && Open(x, analyzer, kind, t, ctx) ::
      SameCeiling(Ceiling(p, g, t, ctx), Ceiling(q, g, t, ctx))
  }

  predicate Above(row: Reading, c: Option<real>, g: nat)
    requires g < CUMULATIVE_REGISTERS
  {
    row.regs[g].Some? && c.Some? && row.regs[g].value > c.value
  }

  lemma JumpsIffAbove(p: Option<Reading>, row: Reading, ctx: Context, g: nat)
    requires g < CUMULATIVE_REGISTERS
    ensures p.Some? && row.ts > p.value.ts && JumpsOn(p.value, row, ctx, g) <==> Above(row, Ceiling(p, g, row.ts, ctx), g)
  {
  }

  lemma {:induction false} FirstJumpAlike(p: Reading, q: Reading, row: Reading, ctx: Context, n: nat)
    requires n <= CUMULATIVE_REGISTERS
    requires forall g :: 0 <= g < n ==> (JumpsOn(p, row, ctx, g) <==> JumpsOn(q, row, ctx, g))
    ensures FirstJump(p, row, ctx, n) == FirstJump(q, row, ctx, n)
  {
    if n > 0 {
      FirstJumpAlike(p, q, row, ctx, n - 1);
    }
  }

  /** The same registers above their ceilings means the same verdict. */
  lemma JudgeAlike(p: Option<Reading>, q: Option<Reading>, s: Streak, row: Reading, ctx: Context)
    requires forall g: nat | g < CUMULATIVE_REGISTERS ::
      Above(row, Ceiling(p, g, row.ts, ctx), g) <==> Above(row, Ceiling(q, g, row.ts, ctx), g)
    ensures Judge(p, s, row, ctx) == Judge(q, s, row, ctx)
  {
    hide Ceiling, Above, JumpsOn, FirstJump;
    forall g: nat | g < CUMULATIVE_REGISTERS
      ensures p.Some? && row.ts > p.value.ts && JumpsOn(p.value, row, ctx, g)
        <==> q.Some? && row.ts > q.value.ts && JumpsOn(q.value, row, ctx, g)
    {
      JumpsIffAbove(p, row, ctx, g);
      JumpsIffAbove(q, row, ctx, g);
    }
    assert SanityJumpOf(p, row, ctx) == SanityJumpOf(q, row, ctx) by {
      var pLimits, qLimits := p.Some? && row.ts > p.value.ts, q.Some? && row.ts > q.value.ts;
      if pLimits && qLimits {
        FirstJumpAlike(p.value, q.value, row, ctx, CUMULATIVE_REGISTERS);
      } else if pLimits {
        NoJump(p.value, row, ctx, CUMULATIVE_REGISTERS);
      } else if qLimits {
        NoJump(q.value, row, ctx, CUMULATIVE_REGISTERS);
      }
    }
  }

  lemma {:induction false} NoJump(p: Reading, row: Reading, ctx: Context, n: nat)
    requires n <= CUMULATIVE_REGISTERS && forall g: nat | g < n :: !JumpsOn(p, row, ctx, g)
    ensures FirstJump(p, row, ctx, n) == None
  {
    if n > 0 {
      NoJump(p, row, ctx, n - 1);
    }
  }

  // ----- Two previous readings, one continuation

  /** The rows y can come after x in a chunk. */
  ghost predicate Continues(x: seq<Reading>, y: seq<Reading>, analyzer: nat, kind: Kind) {
    AllAttributable(x + y, analyzer, kind) && DistinctKeys(x + y)
  }

  /** Rows y give the same rows, notices and streak after p as after q. */
  ghost predicate FollowsAlike(p: Option<Reading>, q: Option<Reading>, s: Streak, y: seq<Reading>, ctx: Context) {
    var a, b := RunWhole(p, s, y, ctx), RunWhole(q, s, y, ctx);
    a.accepted == b.accepted && a.notices == b.notices && a.streak == b.streak
  }

  lemma ContinuesFront(x: seq<Reading>, y: seq<Reading>, analyzer: nat, kind: Kind)
    requires Continues(x, y, analyzer, kind) && y != []
    ensures Continues(x, y[..|y| - 1], analyzer, kind)
  {
    assert x + y[..|y| - 1] == (x + y)[..|x + y| - 1];
  }

  lemma RowIsOpen(x: seq<Reading>, y: seq<Reading>, analyzer: nat, kind: Kind, ctx: Context, i: nat)
    requires Continues(x, y, analyzer, kind) && i < |y| && Malformed(y[i], ctx).None?
    ensures Open(x, analyzer, kind, y[i].ts, ctx)
  {
    var row := y[i];
    assert (x + y)[|x| + i] == row && Attributable(row, analyzer, kind);
    assert Unused(x, KeyOf(row)) by {
      assert forall j :: 0 <= j < |x| ==> (x + y)[j] == x[j];
    }
  }

  lemma AboveAlike(p: Option<Reading>, q: Option<Reading>, x: seq<Reading>, row: Reading, analyzer: nat, kind: Kind,
                   ctx: Context)
    requires SameCeilings(p, q, x, analyzer, kind, ctx) && Open(x, analyzer, kind, row.ts, ctx) && Malformed(row, ctx).None?
    ensures forall g: nat | g < CUMULATIVE_REGISTERS ::
      Above(row, Ceiling(p, g, row.ts, ctx), g) <==> Above(row, Ceiling(q, g, row.ts, ctx), g)
  {
    hide Ceiling, Open;
    forall g: nat | g < CUMULATIVE_REGISTERS
      ensures Above(row, Ceiling(p, g, row.ts, ctx), g) <==> Above(row, Ceiling(q, g, row.ts, ctx), g)
    {
      assert SameCeiling(Ceiling(p, g, row.ts, ctx), Ceiling(q, g, row.ts, ctx));
      assert !NegativeOn(row, g);
    }
  }

  lemma {:induction false} TrippedStays(p: Pass, rows: seq<Reading>, ctx: Context)
    requires p.streak.tripped
    ensures Run(p, rows, ctx).streak == p.streak
  {
    if rows != [] {
      TrippedStays(p, rows[..|rows| - 1], ctx);
    }
  }

  /** After p and after q every row of y gets the same verdict, and once one is
      kept the two runs are one. */
  lemma {:induction false} SameVerdicts(p: Option<Reading>, q: Option<Reading>, s: Streak, x: seq<Reading>, y: seq<Reading>,
                                        analyzer: nat, kind: Kind, ctx: Context)
    requires Continues(x, y, analyzer, kind)
    requires s.tripped || SameCeilings(p, q, x, analyzer, kind, ctx)
    ensures var a, b := Run(Pass(p, s, []), y, ctx), Run(Pass(q, s, []), y, ctx);
      a.verdicts == b.verdicts && a.streak == b.streak && (a.prev == b.prev || (a.prev == p && b.prev == q))
  {
    if y != [] {
      hide SameCeilings, Continues, Judge, Ceiling, Above, Open, Malformed;
      var front, row := y[..|y| - 1], y[|y| - 1];
      ContinuesFront(x, y, analyzer, kind);
      SameVerdicts(p, q, s, x, front, analyzer, kind, ctx);
      var a, b := Run(Pass(p, s, []), front, ctx), Run(Pass(q, s, []), front, ctx);
      SameVerdict(p, q, s, x, y, analyzer, kind, ctx, a, b);
    }
  }

  lemma SameVerdict(p: Option<Reading>, q: Option<Reading>, s: Streak, x: seq<Reading>, y: seq<Reading>, analyzer: nat,
                    kind: Kind, ctx: Context, a: Pass, b: Pass)
    requires Continues(x, y, analyzer, kind) && y != [] && a.streak == b.streak
    requires s.tripped || SameCeilings(p, q, x, analyzer, kind, ctx)
    requires a == Run(Pass(p, s, []), y[..|y| - 1], ctx)
    requires a.prev == b.prev || (a.prev == p && b.prev == q)
    ensures Judge(a.prev, a.streak, y[|y| - 1], ctx) == Judge(b.prev, b.streak, y[|y| - 1], ctx)
  {
    hide SameCeilings, Continues, Ceiling, Above, Open, Run;
    var row := y[|y| - 1];
    if s.tripped {
      TrippedStays(Pass(p, s, []), y[..|y| - 1], ctx);
    } else if a.prev != b.prev && Malformed(row, ctx).None? {
      RowIsOpen(x, y, analyzer, kind, ctx, |y| - 1);
      AboveAlike(p, q, x, row, analyzer, kind, ctx);
      JudgeAlike(p, q, a.streak, row, ctx);
    }
  }

  // ----- A row that tells two previous readings apart

  /** A reading of one register. */
  function OneRegister(analyzer: nat, t: int, kind: Kind, g: nat, value: real): Reading
    requires g < CUMULATIVE_REGISTERS
  {
    Reading(analyzer, t, kind, seq(ALL_REGISTERS, k requires 0 <= k < ALL_REGISTERS => if k == g then Some(value) else None), 0)
  }

  lemma OneRegisterIsWellFormed(analyzer: nat, t: int, kind: Kind, g: nat, value: real, ctx: Context)
    requires g < CUMULATIVE_REGISTERS && value >= 0.0 && t != 0 && t <= ctx.now + ctx.options.futureTolerance
    ensures Malformed(OneRegister(analyzer, t, kind, g, value), ctx) == None
  {
    var row := OneRegister(analyzer, t, kind, g, value);
    assert row.regs[g].Some?;
    assert forall k: nat | k < ALL_REGISTERS :: !NegativeOn(row, k);
  }

  /** Without a tripped streak a row is kept unflagged exactly below the ceiling. */
  lemma KeepIffBelow(p: Option<Reading>, s: Streak, row: Reading, g: nat, ctx: Context)
    requires g < CUMULATIVE_REGISTERS && !s.tripped && Malformed(row, ctx).None?
    requires forall k: nat | k < CUMULATIVE_REGISTERS && k != g :: row.regs[k].None?
    ensures Judge(p, s, row, ctx).Keep? <==> !Above(row, Ceiling(p, g, row.ts, ctx), g)
  {
    hide Ceiling, Malformed;
    forall k: nat | k < CUMULATIVE_REGISTERS
      ensures p.Some? && row.ts > p.value.ts && JumpsOn(p.value, row, ctx, k) <==> Above(row, Ceiling(p, k, row.ts, ctx), k)
    {
      JumpsIffAbove(p, row, ctx, k);
    }
    if p.Some? && row.ts > p.value.ts {
      var jump := FirstJump(p.value, row, ctx, CUMULATIVE_REGISTERS);
      assert jump.Some? ==> jump.value == g;
    }
  }

  /** What a single row gives. */
  lemma OneRow(p: Option<Reading>, s: Streak, row: Reading, ctx: Context)
    ensures RunWhole(p, s, [row], ctx).notices == [] <==> Judge(p, s, row, ctx).Keep?
  {
    assert [row][..0] == [];
    var start, v := Pass(p, s, []), Judge(p, s, row, ctx);
    assert Run(start, [row], ctx) == Step(start, row, ctx);
    assert Run(start, [row], ctx).verdicts == [v];
    NoticesOfLast([row], [v]);
  }

  /** A register value above one ceiling and not above the other. */
  function Between(c: Option<real>, d: Option<real>): real {
    if c.Some? && d.Some? then (if c.value < d.value then d.value else c.value)
    else if c.Some? then (if c.value < 0.0 then 0.0 else c.value + 1.0)
    else if d.Some? then (if d.value < 0.0 then 0.0 else d.value + 1.0)
    else 0.0
  }

  lemma DifferentCeilingsShow(p: Option<Reading>, q: Option<Reading>, s: Streak, x: seq<Reading>, analyzer: nat, kind: Kind,
                              ctx: Context, g: nat, t: int) returns (row: Reading)
    requires AllAttributable(x, analyzer, kind) && DistinctKeys(x)
    requires !s.tripped && g < CUMULATIVE_REGISTERS && Open(x, analyzer, kind, t, ctx)
    requires !SameCeiling(Ceiling(p, g, t, ctx), Ceiling(q, g, t, ctx))
    ensures Continues(x, [row], analyzer, kind) && !FollowsAlike(p, q, s, [row], ctx)
  {
    hide Ceiling, Judge, RunWhole, Malformed;
    var c, d := Ceiling(p, g, t, ctx), Ceiling(q, g, t, ctx);
    var k := if Unused(x, Key(analyzer, t, kind)) then kind else Reset;
    row := OneRegister(analyzer, t, k, g, Between(c, d));
    OneRegisterIsWellFormed(analyzer, t, k, g, Between(c, d), ctx);
    KeepIffBelow(p, s, row, g, ctx);
    KeepIffBelow(q, s, row, g, ctx);
    OneRow(p, s, row, ctx);
    OneRow(q, s, row, ctx);
  }

  // ----- The cut after one page

  /** Cutting x + y after x changes no row, notice or streak. */
  ghost predicate CutAgrees(prev: Option<Reading>, streak: Streak, x: seq<Reading>, y: seq<Reading>, analyzer: nat, kind: Kind,
                            ctx: Context) {
    var cut := RunPages(prev, streak, [x, y], analyzer, kind, ctx);
    var whole := RunPages(prev, streak, [x + y], analyzer, kind, ctx);
    cut.accepted == whole.accepted && cut.notices == whole.notices && cut.streak == whole.streak
  }

  /** One page of distinct attributable rows, added to what the pages before left. */
  lemma PageAdds(before: Outcome, page: seq<Reading>, analyzer: nat, kind: Kind, ctx: Context)
    requires DistinctKeys(page) && AllAttributable(page, analyzer, kind)
    ensures var w := RunWhole(before.prev, before.streak, page, ctx);
      TakePage(before, page, analyzer, kind, ctx)
        == Outcome(NextPrev(before.prev, w.accepted, kind), w.streak, before.accepted + w.accepted, before.notices + w.notices)
  {
    MixedUnchanged(page, analyzer, kind);
  }

  lemma ContinuesParts(x: seq<Reading>, y: seq<Reading>, analyzer: nat, kind: Kind)
    requires Continues(x, y, analyzer, kind)
    ensures DistinctKeys(x) && AllAttributable(x, analyzer, kind) && DistinctKeys(y) && AllAttributable(y, analyzer, kind)
  {
    var z := x + y;
    assert forall i :: 0 <= i < |x| ==> x[i] == z[i];
    assert forall i :: 0 <= i < |y| ==> y[i] == z[|x| + i];
    forall i, j | 0 <= i < j < |y| ensures KeyOf(y[i]) != KeyOf(y[j]) {
      assert KeyOf(z[|x| + i]) != KeyOf(z[|x| + j]);
    }
  }

  /** The previous readings after x: the next page's, and the one inside a page. */
  lemma CutAgreesIff(prev: Option<Reading>, streak: Streak, x: seq<Reading>, y: seq<Reading>, analyzer: nat, kind: Kind,
                     ctx: Context)
    requires Continues(x, y, analyzer, kind)
    ensures var w := RunWhole(prev, streak, x, ctx);
      CutAgrees(prev, streak, x, y, analyzer, kind, ctx) <==>
      FollowsAlike(NextPrev(prev, w.accepted, kind), w.prev, w.streak, y, ctx)
  {
    hide RunWhole, TakePage, NextPrev, Continues, DistinctKeys, AllAttributable;
    var start := Outcome(prev, streak, [], []);
    ContinuesParts(x, y, analyzer, kind);
    ContinuesMeaning(x, y, analyzer, kind);
    PageAdds(start, x, analyzer, kind, ctx);
    PageAdds(start, x + y, analyzer, kind, ctx);
    OneAndTwoPages(prev, streak, x, y, analyzer, kind, ctx);
    var first := TakePage(start, x, analyzer, kind, ctx);
    PageAdds(first, y, analyzer, kind, ctx);
    WholeSplits(prev, streak, x, y, ctx);
    var w := RunWhole(prev, streak, x, ctx);
    var cut, whole := RunWhole(first.prev, w.streak, y, ctx), RunWhole(w.prev, w.streak, y, ctx);
    CancelLeft(w.accepted, cut.accepted, whole.accepted);
    CancelLeft(w.notices, cut.notices, whole.notices);
    assert start.accepted + w.accepted == w.accepted && start.notices + w.notices == w.notices;
  }

  lemma CancelLeft<T>(a: seq<T>, b: seq<T>, c: seq<T>)
    ensures a + b == a + c <==> b == c
  {
    if a + b == a + c {
      assert (a + b)[|a|..] == b && (a + c)[|a|..] == c;
    }
  }

  lemma ContinuesMeaning(x: seq<Reading>, y: seq<Reading>, analyzer: nat, kind: Kind)
    requires Continues(x, y, analyzer, kind)
    ensures DistinctKeys(x + y) && AllAttributable(x + y, analyzer, kind)
  {
  }

  lemma OneAndTwoPages(prev: Option<Reading>, streak: Streak, x: seq<Reading>, y: seq<Reading>, analyzer: nat, kind: Kind,
                       ctx: Context)
    ensures var start := Outcome(prev, streak, [], []);
      && RunPages(prev, streak, [x + y], analyzer, kind, ctx) == TakePage(start, x + y, analyzer, kind, ctx)
      && RunPages(prev, streak, [x, y], analyzer, kind, ctx)
         == TakePage(TakePage(start, x, analyzer, kind, ctx), y, analyzer, kind, ctx)
  {
    hide TakePage;
    assert [x, y][..1] == [x] && [x][..0] == [] && [x + y][..0] == [];
    assert RunPages(prev, streak, [x], analyzer, kind, ctx) == TakePage(Outcome(prev, streak, [], []), x, analyzer, kind, ctx);
  }

  /** A cut after page x shows in no continuation of the chunk exactly when the
      streak is tripped, or the last row of the requested kind and the last row of
      any kind allow the same to every row that can follow. */
  lemma CutInvisibleIff(prev: Option<Reading>, streak: Streak, x: seq<Reading>, analyzer: nat, kind: Kind, ctx: Context)
    requires AllAttributable(x, analyzer, kind) && DistinctKeys(x)
    ensures var w := RunWhole(prev, streak, x, ctx);
      (forall y | Continues(x, y, analyzer, kind) :: CutAgrees(prev, streak, x, y, analyzer, kind, ctx)) <==>
        w.streak.tripped || SameCeilings(NextPrev(prev, w.accepted, kind), w.prev, x, analyzer, kind, ctx)
  {
    hide CutAgrees, RunWhole, NextPrev, Continues, Ceiling, Open, SameCeiling;
    var w := RunWhole(prev, streak, x, ctx);
    var p := NextPrev(prev, w.accepted, kind);
    if w.streak.tripped || SameCeilings(p, w.prev, x, analyzer, kind, ctx) {
      forall y | Continues(x, y, analyzer, kind) ensures CutAgrees(prev, streak, x, y, analyzer, kind, ctx) {
        AlikeAfter(p, w.prev, w.streak, x, y, analyzer, kind, ctx);
        CutAgreesIff(prev, streak, x, y, analyzer, kind, ctx);
      }
    } else {
      var g: nat, t: int :| g < CUMULATIVE_REGISTERS && Open(x, analyzer, kind, t, ctx)
        && !SameCeiling(Ceiling(p, g, t, ctx), Ceiling(w.prev, g, t, ctx));
      var row := DifferentCeilingsShow(p, w.prev, w.streak, x, analyzer, kind, ctx, g, t);
      CutAgreesIff(prev, streak, x, [row], analyzer, kind, ctx);
    }
  }

  lemma AlikeAfter(p: Option<Reading>, q: Option<Reading>, s: Streak, x: seq<Reading>, y: seq<Reading>, analyzer: nat,
                   kind: Kind, ctx: Context)
    requires Continues(x, y, analyzer, kind)
    requires s.tripped || SameCeilings(p, q, x, analyzer, kind, ctx)
    ensures FollowsAlike(p, q, s, y, ctx)
  {
    SameVerdicts(p, q, s, x, y, analyzer, kind, ctx);
  }

  // ----- Over every context

  /** The instant and the value register g was last reported with. */
  function Baseline(p: Option<Reading>, g: nat): Option<(int, real)>
    requires g < CUMULATIVE_REGISTERS
  {
    if p.None? || p.value.regs[g].None? then None else Some((p.value.ts, p.value.regs[g].value))
  }

  ghost predicate SameBaselines(p: Option<Reading>, q: Option<Reading>) {
    forall g: nat | g < CUMULATIVE_REGISTERS :: Baseline(p, g) == Baseline(q, g)
  }

  /** One threshold, on register g: the register may rise by `step` a nanosecond. */
  function OneThreshold(g: nat, step: real, now: int, options: Options): Context
    requires step > 0.0 && options.sanityMultiple > 0.0
  {
    Context(seq(CUMULATIVE_REGISTERS, k requires 0 <= k < CUMULATIVE_REGISTERS =>
              if k == g then Some(Threshold(step / options.sanityMultiple, 1)) else None), now, options)
  }

  /** A line through a baseline. */
  function Height(b: (int, real), step: real, t: int): real {
    b.1 + step * (t - b.0) as real
  }

  lemma CeilingOfOneThreshold(p: Option<Reading>, g: nat, t: int, step: real, now: int, options: Options)
    requires g < CUMULATIVE_REGISTERS && step >= 1.0 && options.sanityMultiple > 0.0
    requires p.Some? ==> t > p.value.ts
    ensures var b := Baseline(p, g);
      Ceiling(p, g, t, OneThreshold(g, step, now, options))
        == if b.None? then None else Some(Height(b.value, step, t))
  {
    hide Limit, Height;
    var m := options.sanityMultiple;
    var ctx := OneThreshold(g, step, now, options);
    var th: Threshold := Threshold(step / m, 1);
    assert ctx.thresholds[g] == Some(th) && ctx.options == options;
    if p.Some? && p.value.regs[g].Some? {
      HeightOfLimit((p.value.ts, p.value.regs[g].value), step, m, step / m, t);
      assert Ceiling(p, g, t, ctx) == Some(p.value.regs[g].value + Limit(th, m, t - p.value.ts));
    }
  }

  lemma LimitOfOneThreshold(step: real, m: real, median: real, gap: int)
    requires step >= 1.0 && m > 0.0 && median > 0.0 && m * median == step && gap >= 1
    ensures Limit(Threshold(median, 1), m, gap) == step * gap as real
  {
    var times := gap as real;
    assert times / 1 as real == times;
    assert m * median * times == step * times;
  }

  lemma HeightOfLimit(b: (int, real), step: real, m: real, median: real, t: int)
    requires step >= 1.0 && m > 0.0 && median > 0.0 && m * median == step && t > b.0
    ensures b.1 + Limit(Threshold(median, 1), m, t - b.0) == Height(b, step, t)
  {
    LimitOfOneThreshold(step, m, median, t - b.0);
  }

  function Abs(v: real): real {
    if v < 0.0 then -v else v
  }

  lemma HighEnough(b: (int, real), step: real, t: int)
    requires t > b.0 && step >= 1.0 + Abs(b.1)
    ensures Height(b, step, t) >= 0.0
  {
    var times := (t - b.0) as real;
  }

  lemma HeightOfNextStep(b: (int, real), step: real, t: int)
    ensures Height(b, step + 1.0, t) == Height(b, step, t) + (t - b.0) as real
  {
  }

  lemma SameInstantSameHeight(b: (int, real), c: (int, real), step: real, t: int)
    requires b.0 == c.0
    ensures Height(b, step, t) == Height(c, step, t) <==> b.1 == c.1
  {
  }

  /** Of two steps one separates the lines through different points. */
  lemma SomeStepSeparates(b: (int, real), c: (int, real), t: int) returns (step: real)
    requires b != c && t > b.0 && t > c.0
    ensures step >= 1.0
    ensures Height(b, step, t) >= 0.0 && Height(c, step, t) >= 0.0 && Height(b, step, t) != Height(c, step, t)
  {
    hide Height;
    step := 1.0 + Abs(b.1) + Abs(c.1);
    HeightOfNextStep(b, step, t);
    HeightOfNextStep(c, step, t);
    if b.0 == c.0 {
      SameInstantSameHeight(b, c, step, t);
    }
    if Height(b, step, t) == Height(c, step, t) {
      step := step + 1.0;
    }
    HighEnough(b, step, t);
    HighEnough(c, step, t);
  }

  function LaterThan(p: Option<Reading>, q: Option<Reading>, x: seq<Reading>): (t: int)
    ensures t > 0 && (p.Some? ==> t > p.value.ts) && (q.Some? ==> t > q.value.ts)
    ensures forall i :: 0 <= i < |x| ==> x[i].ts < t
  {
    if x == [] then
      Max(1, Max(if p.Some? then p.value.ts + 1 else 1, if q.Some? then q.value.ts + 1 else 1))
    else Max(LaterThan(p, q, x[..|x| - 1]), x[|x| - 1].ts + 1)
  }

  /** Different baselines show under some thresholds, whatever the options. */
  lemma DifferentBaselinesShow(p: Option<Reading>, q: Option<Reading>, x: seq<Reading>, analyzer: nat, kind: Kind,
                               options: Options) returns (ctx: Context)
    requires options.sanityMultiple > 0.0 && !SameBaselines(p, q)
    ensures ctx.options == options && !SameCeilings(p, q, x, analyzer, kind, ctx)
  {
    hide Ceiling, OneThreshold, Height;
    var g: nat :| g < CUMULATIVE_REGISTERS && Baseline(p, g) != Baseline(q, g);
    var b, c := Baseline(p, g), Baseline(q, g);
    var t := LaterThan(p, q, x);
    var step := 1.0;
    if b.Some? && c.Some? {
      step := SomeStepSeparates(b.value, c.value, t);
    }
    ctx := ContextAt(g, step, t, options);
    CeilingOfOneThreshold(p, g, t, step, ctx.now, options);
    CeilingOfOneThreshold(q, g, t, step, ctx.now, options);
    assert Open(x, analyzer, kind, t, ctx) by {
      LateIsOpen(x, analyzer, kind, t, ctx);
    }
  }

  lemma ContextAt(g: nat, step: real, t: int, options: Options) returns (ctx: Context)
    requires step > 0.0 && options.sanityMultiple > 0.0
    ensures ctx == OneThreshold(g, step, t - options.futureTolerance, options)
    ensures ctx.options == options && ctx.now == t - options.futureTolerance
  {
    ctx := OneThreshold(g, step, t - options.futureTolerance, options);
  }

  lemma LateIsOpen(x: seq<Reading>, analyzer: nat, kind: Kind, t: int, ctx: Context)
    requires t != 0 && t <= ctx.now + ctx.options.futureTolerance && forall i :: 0 <= i < |x| ==> x[i].ts < t
    ensures Open(x, analyzer, kind, t, ctx)
  {
    assert Unused(x, Key(analyzer, t, kind));
  }

  /** Two previous readings allow the same under every thresholds and clock exactly
      when they report every cumulative register at the same instant with the same
      value. */
  lemma SameBaselinesIff(p: Option<Reading>, q: Option<Reading>, x: seq<Reading>, analyzer: nat, kind: Kind, options: Options)
    requires options.sanityMultiple > 0.0
    ensures SameBaselines(p, q)
      <==> forall ctx: Context | ctx.options == options :: SameCeilings(p, q, x, analyzer, kind, ctx)
  {
    if SameBaselines(p, q) {
      forall ctx: Context | ctx.options == options ensures SameCeilings(p, q, x, analyzer, kind, ctx) {
        SameBaselinesAllowTheSame(p, q, x, analyzer, kind, ctx);
      }
    } else {
      var ctx := DifferentBaselinesShow(p, q, x, analyzer, kind, options);
    }
  }

  lemma SameBaselinesAllowTheSame(p: Option<Reading>, q: Option<Reading>, x: seq<Reading>, analyzer: nat, kind: Kind,
                                  ctx: Context)
    requires SameBaselines(p, q)
    ensures SameCeilings(p, q, x, analyzer, kind, ctx)
  {
    hide Limit, Open;
    forall g: nat, t: int | g < CUMULATIVE_REGISTERS && Open(x, analyzer, kind, t, ctx)
      ensures SameCeiling(Ceiling(p, g, t, ctx), Ceiling(q, g, t, ctx))
    {
      assert Baseline(p, g) == Baseline(q, g);
    }
  }

  /** The two previous readings after x agree for every continuation, thresholds
      and clock exactly when the streak is tripped or they have the same baselines. */
  lemma AlikeForeverIff(p: Option<Reading>, q: Option<Reading>, s: Streak, x: seq<Reading>, analyzer: nat, kind: Kind,
                        options: Options)
    requires AllAttributable(x, analyzer, kind) && DistinctKeys(x) && options.sanityMultiple > 0.0
    ensures (forall y, ctx: Context | Continues(x, y, analyzer, kind) && ctx.options == options :: FollowsAlike(p, q, s, y, ctx))
      <==> s.tripped || SameBaselines(p, q)
  {
    hide Continues, FollowsAlike, Ceiling, Open, SameCeiling, SameBaselines;
    if s.tripped || SameBaselines(p, q) {
      forall y, ctx: Context | Continues(x, y, analyzer, kind) && ctx.options == options
        ensures FollowsAlike(p, q, s, y, ctx)
      {
        if !s.tripped {
          SameBaselinesAllowTheSame(p, q, x, analyzer, kind, ctx);
        }
        AlikeAfter(p, q, s, x, y, analyzer, kind, ctx);
      }
    } else {
      var ctx := DifferentBaselinesShow(p, q, x, analyzer, kind, options);
      var g: nat, t: int :| g < CUMULATIVE_REGISTERS && Open(x, analyzer, kind, t, ctx)
        && !SameCeiling(Ceiling(p, g, t, ctx), Ceiling(q, g, t, ctx));
      var row := DifferentCeilingsShow(p, q, s, x, analyzer, kind, ctx, g, t);
    }
  }

  // ----- In terms of the page's rows

  predicate EndsInKind(rows: seq<Reading>, kind: Kind) {
    rows == [] || rows[|rows| - 1].kind == kind
  }

  lemma {:induction false} OfKindLast(rows: seq<Reading>, kind: Kind)
    ensures rows != [] && rows[|rows| - 1].kind == kind ==>
      OfKind(rows, kind) != [] && OfKind(rows, kind)[|OfKind(rows, kind)| - 1] == rows[|rows| - 1]
    ensures forall i :: 0 <= i < |OfKind(rows, kind)| ==> OfKind(rows, kind)[i].kind == kind
  {
    if rows != [] {
      OfKindLast(rows[..|rows| - 1], kind);
    }
  }

  /** The two previous readings are one and the same exactly when the page
      accepted nothing or its last accepted row is of the requested kind. */
  lemma SamePrevIff(prev: Option<Reading>, streak: Streak, x: seq<Reading>, kind: Kind, ctx: Context)
    requires prev.Some? ==> prev.value.kind == kind
    ensures var w := RunWhole(prev, streak, x, ctx);
      NextPrev(prev, w.accepted, kind) == w.prev <==> EndsInKind(w.accepted, kind)
    ensures var p := NextPrev(prev, RunWhole(prev, streak, x, ctx).accepted, kind); p.Some? ==> p.value.kind == kind
  {
    PrevIsLastKept(Pass(prev, streak, []), x, ctx);
    OfKindLast(RunWhole(prev, streak, x, ctx).accepted, kind);
  }

  /** What page x leaves behind never shows, whatever follows and under whatever
      thresholds and clock, exactly when x accepted nothing, or ended in a row of the
      requested kind, or left a tripped streak, or ended in a row that reports what the
      last row of that kind reported, at the same instant. A chunk keeps one set of
      thresholds and one clock; CutInvisibleIff is the form for that one context. */
  lemma CutAfterPageIff(prev: Option<Reading>, streak: Streak, x: seq<Reading>, analyzer: nat, kind: Kind, ctx: Context)
    requires AllAttributable(x, analyzer, kind) && DistinctKeys(x)
    requires ctx.options.sanityMultiple > 0.0 && (prev.Some? ==> prev.value.kind == kind)
    ensures var w := RunWhole(prev, streak, x, ctx);
      var p := NextPrev(prev, w.accepted, kind);
      (forall y, later: Context | Continues(x, y, analyzer, kind) && later.options == ctx.options ::
        FollowsAlike(p, w.prev, w.streak, y, later)) <==>
      EndsInKind(w.accepted, kind) || w.streak.tripped || SameBaselines(p, w.prev)
  {
    hide RunWhole, NextPrev, Continues, FollowsAlike;
    var w := RunWhole(prev, streak, x, ctx);
    var p := NextPrev(prev, w.accepted, kind);
    SamePrevIff(prev, streak, x, kind, ctx);
    AlikeForeverIff(p, w.prev, w.streak, x, analyzer, kind, ctx.options);
  }

  /** So, under the page's own thresholds and clock, such a page cuts the chunk without
      a trace. */
  lemma PageHidesItsCut(prev: Option<Reading>, streak: Streak, x: seq<Reading>, analyzer: nat, kind: Kind, ctx: Context)
    requires AllAttributable(x, analyzer, kind) && DistinctKeys(x) && (prev.Some? ==> prev.value.kind == kind)
    requires var w := RunWhole(prev, streak, x, ctx);
      EndsInKind(w.accepted, kind) || w.streak.tripped || SameBaselines(NextPrev(prev, w.accepted, kind), w.prev)
    ensures forall y | Continues(x, y, analyzer, kind) :: CutAgrees(prev, streak, x, y, analyzer, kind, ctx)
  {
    hide RunWhole, NextPrev, Continues, CutAgrees, SameCeilings, Baseline;
    var w := RunWhole(prev, streak, x, ctx);
    var p := NextPrev(prev, w.accepted, kind);
    SamePrevIff(prev, streak, x, kind, ctx);
    if !w.streak.tripped {
      SameBaselinesAllowTheSame(p, w.prev, x, analyzer, kind, ctx);
    }
    CutInvisibleIff(prev, streak, x, analyzer, kind, ctx);
  }

  /** Ending in another row alone does not make a cut show: a reset row that repeats
      the registers and the instant of the row before it changes nothing. */
  lemma RepeatedRowHidesTheCut(a: Reading, r: Reading, ctx: Context)
    requires CleanRow(a, ctx.now, ctx.options) && a.kind != Reset && r == a.(kind := Reset)
    ensures var w := RunWhole(None, FRESH, [a, r], ctx);
      && w.accepted == [a, r] && !EndsInKind(w.accepted, a.kind) && !w.streak.tripped
      && SameBaselines(NextPrev(None, w.accepted, a.kind), w.prev)
  {
    hide RunWhole, OfKind;
    assert Judge(None, FRESH, a, ctx).Keep? by {
      JudgeKeepsOnlyClean(None, FRESH, a, ctx);
    }
    assert Judge(Some(a), FRESH, r, ctx).Keep? by {
      JudgeKeepsOnlyClean(Some(a), FRESH, r, ctx);
    }
    NothingRun(ctx);
    OneMore(None, FRESH, [], a, ctx);
    assert [] + [a] == [a] && [a] + [r] == [a, r];
    OneMore(None, FRESH, [a], r, ctx);
    LastOfKind(a, r);
  }

  lemma NothingRun(ctx: Context)
    ensures RunWhole(None, FRESH, [], ctx) == Outcome(None, FRESH, [], [])
  {
  }

  // ----- Whole chunks

  /** After each page but the last the cut and the uncut run allow the same. */
  ghost predicate Seamless(prev: Option<Reading>, streak: Streak, pages: seq<seq<Reading>>, analyzer: nat, kind: Kind,
                           ctx: Context) {
    forall k :: 0 < k < |pages| ==> SeamlessAt(prev, streak, pages[..k], analyzer, kind, ctx)
  }

  ghost predicate SeamlessAt(prev: Option<Reading>, streak: Streak, done: seq<seq<Reading>>, analyzer: nat, kind: Kind,
                             ctx: Context) {
    var cut := RunPages(prev, streak, done, analyzer, kind, ctx);
    var whole := RunWhole(prev, streak, Flatten(done), ctx);
    whole.streak.tripped || SameCeilings(cut.prev, whole.prev, Flatten(done), analyzer, kind, ctx)
  }

  ghost predicate Agrees(a: Outcome, b: Outcome) {
    a.accepted == b.accepted && a.notices == b.notices && a.streak == b.streak
  }

  lemma SeamlessFront(prev: Option<Reading>, streak: Streak, pages: seq<seq<Reading>>, analyzer: nat, kind: Kind, ctx: Context)
    requires Seamless(prev, streak, pages, analyzer, kind, ctx) && pages != []
    ensures Seamless(prev, streak, pages[..|pages| - 1], analyzer, kind, ctx)
    ensures |pages| > 1 ==> SeamlessAt(prev, streak, pages[..|pages| - 1], analyzer, kind, ctx)
  {
    hide SeamlessAt;
    var front := pages[..|pages| - 1];
    forall k | 0 < k < |front| ensures SeamlessAt(prev, streak, front[..k], analyzer, kind, ctx) {
      assert front[..k] == pages[..k];
    }
  }

  /** A chunk of distinct attributable rows cut only where the cut cannot show gives
      the rows, notices and streak of the uncut chunk. */
  lemma {:induction false} SeamlessPagesEqualWhole(prev: Option<Reading>, streak: Streak, pages: seq<seq<Reading>>,
                                                   analyzer: nat, kind: Kind, ctx: Context)
    requires AllAttributable(Flatten(pages), analyzer, kind) && DistinctKeys(Flatten(pages))
    requires Seamless(prev, streak, pages, analyzer, kind, ctx)
    ensures Agrees(RunPages(prev, streak, pages, analyzer, kind, ctx), RunWhole(prev, streak, Flatten(pages), ctx))
  {
    if pages != [] {
      hide AllAttributable, DistinctKeys, Seamless, SameCeilings, RunWhole, TakePage, NextPrev;
      var front, page := pages[..|pages| - 1], pages[|pages| - 1];
      var rows := Flatten(front);
      assert Continues(rows, page, analyzer, kind);
      ContinuesParts(rows, page, analyzer, kind);
      SeamlessFront(prev, streak, pages, analyzer, kind, ctx);
      SeamlessPagesEqualWhole(prev, streak, front, analyzer, kind, ctx);
      var cut, whole := RunPages(prev, streak, front, analyzer, kind, ctx), RunWhole(prev, streak, rows, ctx);
      PageAdds(cut, page, analyzer, kind, ctx);
      WholeSplits(prev, streak, rows, page, ctx);
      if |pages| == 1 {
        NothingYet(prev, streak, front, analyzer, kind, ctx);
      } else {
        AlikeAfter(cut.prev, whole.prev, whole.streak, rows, page, analyzer, kind, ctx);
      }
    }
  }

  lemma NothingYet(prev: Option<Reading>, streak: Streak, pages: seq<seq<Reading>>, analyzer: nat, kind: Kind, ctx: Context)
    requires pages == []
    ensures RunPages(prev, streak, pages, analyzer, kind, ctx) == RunWhole(prev, streak, Flatten(pages), ctx)
  {
  }

  /** What page k accepts when the pages before it came first. */
  ghost function AcceptedAt(prev: Option<Reading>, streak: Streak, pages: seq<seq<Reading>>, k: nat, analyzer: nat, kind: Kind,
                            ctx: Context): seq<Reading>
    requires k < |pages|
  {
    var before := RunPages(prev, streak, pages[..k], analyzer, kind, ctx);
    Accepted(before.prev, before.streak, pages[k], analyzer, kind, ctx)
  }

  /** The first n pages accept nothing or end in the requested kind. */
  ghost predicate AllEndInKind(prev: Option<Reading>, streak: Streak, pages: seq<seq<Reading>>, n: nat, analyzer: nat,
                               kind: Kind, ctx: Context)
    requires n <= |pages|
  {
    forall k: nat | k < n :: EndsInKind(AcceptedAt(prev, streak, pages, k, analyzer, kind, ctx), kind)
  }

  lemma FrontEndsInKind(prev: Option<Reading>, streak: Streak, pages: seq<seq<Reading>>, n: nat, analyzer: nat, kind: Kind,
                        ctx: Context)
    requires n <= |pages| && pages != [] && AllEndInKind(prev, streak, pages, n, analyzer, kind, ctx) && n >= |pages| - 1
    ensures AllEndInKind(prev, streak, pages[..|pages| - 1], |pages| - 1, analyzer, kind, ctx)
    ensures n == |pages| ==> EndsInKind(AcceptedAt(prev, streak, pages, n - 1, analyzer, kind, ctx), kind)
  {
    hide EndsInKind, RunPages, Accepted;
    var front := pages[..|pages| - 1];
    forall k: nat | k < |front| ensures EndsInKind(AcceptedAt(prev, streak, front, k, analyzer, kind, ctx), kind) {
      assert front[..k] == pages[..k];
      assert AcceptedAt(prev, streak, front, k, analyzer, kind, ctx) == AcceptedAt(prev, streak, pages, k, analyzer, kind, ctx);
    }
  }

  lemma {:induction false} PagesOfKindHandOverTheSame(prev: Option<Reading>, streak: Streak, pages: seq<seq<Reading>>,
                                                      analyzer: nat, kind: Kind, ctx: Context)
    requires AllAttributable(Flatten(pages), analyzer, kind) && DistinctKeys(Flatten(pages))
    requires AllEndInKind(prev, streak, pages, |pages|, analyzer, kind, ctx)
    ensures RunPages(prev, streak, pages, analyzer, kind, ctx) == RunWhole(prev, streak, Flatten(pages), ctx)
  {
    if pages != [] {
      hide AllAttributable, DistinctKeys, RunWhole, TakePage, NextPrev, Accepted, EndsInKind, AllEndInKind;
      var last := |pages| - 1;
      var front, page := pages[..last], pages[last];
      assert Continues(Flatten(front), page, analyzer, kind);
      ContinuesParts(Flatten(front), page, analyzer, kind);
      FrontEndsInKind(prev, streak, pages, |pages|, analyzer, kind, ctx);
      PagesOfKindHandOverTheSame(prev, streak, front, analyzer, kind, ctx);
      var before := RunPages(prev, streak, front, analyzer, kind, ctx);
      AcceptedOfWhole(before, page, analyzer, kind, ctx);
      PageAdds(before, page, analyzer, kind, ctx);
      EndingInKindHandsOver(before.prev, before.streak, page, kind, ctx);
      WholeSplits(prev, streak, Flatten(front), page, ctx);
    }
  }

  lemma AcceptedOfWhole(before: Outcome, page: seq<Reading>, analyzer: nat, kind: Kind, ctx: Context)
    requires DistinctKeys(page) && AllAttributable(page, analyzer, kind)
    ensures Accepted(before.prev, before.streak, page, analyzer, kind, ctx)
      == RunWhole(before.prev, before.streak, page, ctx).accepted
  {
    MixedUnchanged(page, analyzer, kind);
  }

  lemma EndingInKindHandsOver(prev: Option<Reading>, streak: Streak, x: seq<Reading>, kind: Kind, ctx: Context)
    ensures var w := RunWhole(prev, streak, x, ctx);
      EndsInKind(w.accepted, kind) ==> NextPrev(prev, w.accepted, kind) == w.prev
  {
    PrevIsLastKept(Pass(prev, streak, []), x, ctx);
    OfKindLast(RunWhole(prev, streak, x, ctx).accepted, kind);
  }

  /** A chunk of distinct attributable rows, reset rows included, in which every page
      but the last accepts nothing or ends its accepted rows in the requested kind,
      gives the rows, notices and streak of the uncut chunk. */
  lemma PagesEndingInKindEqualWhole(prev: Option<Reading>, streak: Streak, pages: seq<seq<Reading>>, analyzer: nat, kind: Kind,
                                    ctx: Context)
    requires AllAttributable(Flatten(pages), analyzer, kind) && DistinctKeys(Flatten(pages))
    requires pages != [] ==> AllEndInKind(prev, streak, pages, |pages| - 1, analyzer, kind, ctx)
    ensures Agrees(RunPages(prev, streak, pages, analyzer, kind, ctx), RunWhole(prev, streak, Flatten(pages), ctx))
  {
    if pages != [] {
      hide AllAttributable, DistinctKeys, RunWhole, TakePage, NextPrev, Accepted, AllEndInKind;
      var front, page := pages[..|pages| - 1], pages[|pages| - 1];
      assert Continues(Flatten(front), page, analyzer, kind);
      ContinuesParts(Flatten(front), page, analyzer, kind);
      FrontEndsInKind(prev, streak, pages, |pages| - 1, analyzer, kind, ctx);
      PagesOfKindHandOverTheSame(prev, streak, front, analyzer, kind, ctx);
      PageAdds(RunPages(prev, streak, front, analyzer, kind, ctx), page, analyzer, kind, ctx);
      WholeSplits(prev, streak, Flatten(front), page, ctx);
    }
  }
}
