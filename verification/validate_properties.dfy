/** What validation promises over pages, over a whole run and over time. */
module ValidationProperties {
  import opened Readings
  import opened Thresholds
  import opened Validation

  // ----- Splitting a page

  /** Validating a + b is validating b from where a left off. */
  lemma {:induction false} RunSplits(p: Pass, a: seq<Reading>, b: seq<Reading>, ctx: Context)
    ensures Run(p, a + b, ctx) == Run(Run(p, a, ctx), b, ctx)
  {
    if b == [] {
      assert a + b == a;
    } else {
      var front := b[..|b| - 1];
      assert (a + b)[..|a + b| - 1] == a + front;
      RunSplits(p, a, front, ctx);
    }
  }

  /** The verdicts of earlier pages do not influence later ones. */
  lemma {:induction false} RunForgetsVerdicts(p: Pass, rows: seq<Reading>, ctx: Context)
    ensures var bare := Run(p.(verdicts := []), rows, ctx);
      Run(p, rows, ctx) == bare.(verdicts := p.verdicts + bare.verdicts)
  {
    if rows != [] {
      RunForgetsVerdicts(p, rows[..|rows| - 1], ctx);
    }
  }

  lemma {:induction false} KeptOfConcat(a: seq<Reading>, va: seq<Verdict>, b: seq<Reading>, vb: seq<Verdict>)
    requires |a| == |va| && |b| == |vb|
    ensures KeptOf(a + b, va + vb) == KeptOf(a, va) + KeptOf(b, vb)
  {
    if b == [] {
      assert a + b == a && va + vb == va;
    } else {
      var last := |b| - 1;
      KeptOfConcat(a, va, b[..last], vb[..last]);
      assert (a + b)[..|a + b| - 1] == a + b[..last];
      assert (va + vb)[..|a + b| - 1] == va + vb[..last];
    }
  }

  lemma {:induction false} NoticesOfConcat(a: seq<Reading>, va: seq<Verdict>, b: seq<Reading>, vb: seq<Verdict>)
    requires |a| == |va| && |b| == |vb|
    ensures NoticesOf(a + b, va + vb) == NoticesOf(a, va) + NoticesOf(b, vb)
  {
    if b == [] {
      assert a + b == a && va + vb == va;
    } else {
      var last := |b| - 1;
      NoticesOfConcat(a, va, b[..last], vb[..last]);
      assert (a + b)[..|a + b| - 1] == a + b[..last];
      assert (va + vb)[..|a + b| - 1] == va + vb[..last];
      assert (a + b)[|a + b| - 1] == b[last] && (va + vb)[|a + b| - 1] == vb[last];
      hide Reject;
    }
  }

  /** The effective previous reading is the last kept row. */
  lemma {:induction false} PrevIsLastKept(p: Pass, rows: seq<Reading>, ctx: Context)
    requires p.verdicts == []
    ensures var kept := KeptOf(rows, Run(p, rows, ctx).verdicts);
      Run(p, rows, ctx).prev == if kept == [] then p.prev else Some(kept[|kept| - 1])
  {
    if rows != [] {
      var front := rows[..|rows| - 1];
      PrevIsLastKept(p, front, ctx);
      var q := Run(p, front, ctx);
      assert Run(p, rows, ctx).verdicts[..|rows| - 1] == q.verdicts;
    }
  }

  // ----- The streak over a whole run

  /** Which verdicts a streak can give at all. */
  predicate Allowed(s: Streak, v: Verdict) {
    && (SanityDrop(v) ==> !s.tripped && s.consecutive < MAX_CONSECUTIVE_JUMPS)
    && (v.KeepSustained? ==> !s.tripped && s.consecutive >= MAX_CONSECUTIVE_JUMPS)
  }

  function After(s: Streak, t: seq<Verdict>): Streak {
    if t == [] then s else Advance(After(s, t[..|t| - 1]), t[|t| - 1])
  }

  predicate Obeys(s: Streak, t: seq<Verdict>) {
    t == [] || (Obeys(s, t[..|t| - 1]) && Allowed(After(s, t[..|t| - 1]), t[|t| - 1]))
  }

  /** A page extends the run's trace of verdicts by an obedient stretch. */
  lemma {:induction false} RunObeys(p: Pass, rows: seq<Reading>, ctx: Context, start: Streak)
    requires Obeys(start, p.verdicts) && After(start, p.verdicts) == p.streak
    ensures var q := Run(p, rows, ctx);
      Obeys(start, q.verdicts) && After(start, q.verdicts) == q.streak
  {
    if rows != [] {
      var front := rows[..|rows| - 1];
      RunObeys(p, front, ctx, start);
      var q := Run(p, front, ctx);
      var v := Judge(q.prev, q.streak, rows[|rows| - 1], ctx);
      assert (q.verdicts + [v])[..|q.verdicts|] == q.verdicts;
      assert Allowed(q.streak, v);
    }
  }

  /** Sanity rejections since the last kept row. */
  function Pending(t: seq<Verdict>): nat {
    if t == [] || Kept(t[|t| - 1]) then 0
    else Pending(t[..|t| - 1]) + if SanityDrop(t[|t| - 1]) then 1 else 0
  }

  function SanityDrops(t: seq<Verdict>): nat {
    if t == [] then 0
    else SanityDrops(t[..|t| - 1]) + if SanityDrop(t[|t| - 1]) then 1 else 0
  }

  lemma {:induction false} StreakCountsPending(t: seq<Verdict>)
    requires Obeys(FRESH, t)
    ensures !After(FRESH, t).tripped ==> After(FRESH, t).consecutive == Pending(t)
    ensures Pending(t) <= 3
    ensures After(FRESH, t).tripped <==> exists i :: 0 <= i < |t| && t[i].KeepSustained?
  {
    if t != [] {
      var front := t[..|t| - 1];
      StreakCountsPending(front);
      if i :| 0 <= i < |t| && t[i].KeepSustained? {
        if i < |front| {
          assert front[i].KeepSustained?;
        }
      }
      if After(FRESH, front).tripped {
        var i :| 0 <= i < |front| && front[i].KeepSustained?;
        assert t[i].KeepSustained?;
      }
    }
  }

  lemma {:induction false} DropsWithinStretch(t: seq<Verdict>, i: nat)
    requires i <= |t| && forall k :: i <= k < |t| ==> !Kept(t[k])
    ensures SanityDrops(t[i..]) <= Pending(t)
  {
    if i < |t| {
      var front := t[..|t| - 1];
      DropsWithinStretch(front, i);
      assert t[i..][..|t[i..]| - 1] == front[i..];
    } else {
      assert t[i..] == [];
    }
  }

  /** At most three sanity rejections fall in any stretch without a kept row. */
  lemma AtMostThreeBetweenKept(t: seq<Verdict>, i: nat, j: nat)
    requires Obeys(FRESH, t) && i <= j <= |t| && forall k :: i <= k < j ==> !Kept(t[k])
    ensures SanityDrops(t[i..j]) <= 3
  {
    ObeysPrefix(FRESH, t, j);
    StreakCountsPending(t[..j]);
    DropsWithinStretch(t[..j], i);
    assert t[..j][i..] == t[i..j];
  }

  lemma {:induction false} ObeysPrefix(s: Streak, t: seq<Verdict>, j: nat)
    requires Obeys(s, t) && j <= |t|
    ensures Obeys(s, t[..j])
  {
    if j == |t| {
      assert t[..j] == t;
    } else {
      ObeysPrefix(s, t[..|t| - 1], j);
      assert t[..|t| - 1][..j] == t[..j];
    }
  }

  /** The sustained flag is raised at most once, and nothing is sanity-rejected
      after it. */
  lemma SustainedEndsRejections(t: seq<Verdict>, i: nat, j: nat)
    requires Obeys(FRESH, t) && i < j < |t| && t[i].KeepSustained?
    ensures !t[j].KeepSustained? && !SanityDrop(t[j])
  {
    ObeysPrefix(FRESH, t, j + 1);
    assert t[..j + 1][..j] == t[..j];
    ObeysPrefix(FRESH, t, j);
    StreakCountsPending(t[..j]);
    assert t[..j][i].KeepSustained?;
  }

  /** The flag is raised exactly when a jump follows three pending rejections. */
  lemma SustainedNeedsThree(t: seq<Verdict>, i: nat)
    requires Obeys(FRESH, t) && i < |t| && t[i].KeepSustained?
    ensures Pending(t[..i]) == 3
  {
    ObeysPrefix(FRESH, t, i + 1);
    assert t[..i + 1][..i] == t[..i];
    ObeysPrefix(FRESH, t, i);
    StreakCountsPending(t[..i]);
  }

  // ----- What the sanity check can and cannot reject

  /** A sanity rejection names a register that rose past its limit; so a row
      with only decreases and in-limit rises is never sanity-rejected. */
  lemma SanityDropMeansBigRise(prev: Option<Reading>, streak: Streak, row: Reading, ctx: Context)
    requires SanityDrop(Judge(prev, streak, row, ctx))
    ensures prev.Some? && row.ts > prev.value.ts
    ensures exists reg | 0 <= reg < CUMULATIVE_REGISTERS ::
      JumpsOn(prev.value, row, ctx, reg) && row.regs[reg].value > prev.value.regs[reg].value + 1.0
  {
    var reg := FirstJump(prev.value, row, ctx, CUMULATIVE_REGISTERS).value;
    assert JumpsOn(prev.value, row, ctx, reg);
  }

  ghost predicate CleanRow(row: Reading, now: int, options: Options) {
    && row.ts != 0 && row.ts <= now + options.futureTolerance
    && (exists k :: 0 <= k < ALL_REGISTERS && row.regs[k].Some?)
    && forall k :: 0 <= k < ALL_REGISTERS && row.regs[k].Some? ==> row.regs[k].value >= 0.0
  }

  /** Kept rows are clean, and clean rows are refused only by the sanity check. */
  lemma JudgeKeepsOnlyClean(prev: Option<Reading>, streak: Streak, row: Reading, ctx: Context)
    ensures CleanRow(row, ctx.now, ctx.options) <==> var v := Judge(prev, streak, row, ctx); Kept(v) || SanityDrop(v)
  {
    var r := FirstNegative(row, ALL_REGISTERS);
    assert forall k :: 0 <= k < ALL_REGISTERS ==> (NegativeOn(row, k) <==> row.regs[k].Some? && row.regs[k].value < 0.0);
    if r.Some? {
      assert NegativeOn(row, r.value);
    }
  }

  /** Any other row is refused for the first of these reasons that applies. */
  lemma UncleanRowIsRefused(prev: Option<Reading>, streak: Streak, row: Reading, ctx: Context)
    requires !CleanRow(row, ctx.now, ctx.options)
    ensures var v := Judge(prev, streak, row, ctx);
      if row.ts == 0 then v == Drop(UnparseableTs, NoRegister)
      else if row.ts > ctx.now + ctx.options.futureTolerance then v == Drop(Future, NoRegister)
      else if forall k :: 0 <= k < ALL_REGISTERS ==> row.regs[k].None? then v == Drop(AllNull, NoRegister)
      else exists k: nat | k < ALL_REGISTERS ::
        && v == Drop(Negative, Name(k)) && row.regs[k].Some? && row.regs[k].value < 0.0
        && forall j :: 0 <= j < k && row.regs[j].Some? ==> row.regs[j].value >= 0.0
  {
    JudgeKeepsOnlyClean(prev, streak, row, ctx);
    var r := FirstNegative(row, ALL_REGISTERS);
    assert forall k :: 0 <= k < ALL_REGISTERS ==> (NegativeOn(row, k) <==> row.regs[k].Some? && row.regs[k].value < 0.0);
  }

  /** Register g, thresholded and reported by both rows, rose by more than one unit and
      faster than the multiple of its median per median spacing. */
  ghost predicate RisesTooFast(prev: Reading, row: Reading, ctx: Context, g: nat)
    requires g < CUMULATIVE_REGISTERS
  {
    && ctx.thresholds[g].Some? && prev.regs[g].Some? && row.regs[g].Some?
    && var th, rise := ctx.thresholds[g].value, row.regs[g].value - prev.regs[g].value;
    && rise > 1.0
    && rise * th.spacing as real > ctx.options.sanityMultiple * th.median * (row.ts - prev.ts) as real
  }

  lemma JumpsIffTooFast(prev: Reading, row: Reading, ctx: Context, g: nat)
    requires g < CUMULATIVE_REGISTERS && row.ts > prev.ts
    ensures JumpsOn(prev, row, ctx, g) <==> RisesTooFast(prev, row, ctx, g)
  {
    if ctx.thresholds[g].Some? && prev.regs[g].Some? && row.regs[g].Some? {
      var th, rise, gap := ctx.thresholds[g].value, row.regs[g].value - prev.regs[g].value, row.ts - prev.ts;
      AboveRateIff(rise, ctx.options.sanityMultiple * th.median, gap as real, th.spacing as real);
    }
  }

  lemma AboveRateIff(rise: real, rate: real, gap: real, spacing: real)
    requires spacing > 0.0
    ensures rise > rate * (gap / spacing) <==> rise * spacing > rate * gap
  {
    var intervals := gap / spacing;
    assert intervals * spacing == gap;
    assert rate * gap == rate * intervals * spacing;
    ScaledOrder(rise, rate * intervals, spacing);
  }

  lemma ScaledOrder(a: real, b: real, c: real)
    requires c > 0.0
    ensures a > b <==> a * c > b * c
  {
    if a > b {
      assert (a - b) * c > 0.0;
    } else {
      assert (b - a) * c >= 0.0;
    }
  }

  /** A clean row is kept unless some register rises too fast since an earlier previous
      reading before the streak tripped. Then the least such register is named and the
      row refused, up to three times in a row; the fourth is kept and flagged. */
  lemma CleanRowIsRefusedIff(prev: Option<Reading>, streak: Streak, row: Reading, ctx: Context)
    requires CleanRow(row, ctx.now, ctx.options)
    ensures var v := Judge(prev, streak, row, ctx);
      if streak.tripped || prev.None? || row.ts <= prev.value.ts
         || (forall g: nat | g < CUMULATIVE_REGISTERS :: !RisesTooFast(prev.value, row, ctx, g))
      then v == Keep
      else if streak.consecutive >= 3 then v == KeepSustained
      else exists g: nat | g < CUMULATIVE_REGISTERS ::
        && v == Drop(SanityJump, Name(g)) && RisesTooFast(prev.value, row, ctx, g)
        && forall j: nat | j < g :: !RisesTooFast(prev.value, row, ctx, j)
  {
    JudgeKeepsOnlyClean(prev, streak, row, ctx);
    if prev.Some? && row.ts > prev.value.ts {
      forall g: nat | g < CUMULATIVE_REGISTERS ensures JumpsOn(prev.value, row, ctx, g) <==> RisesTooFast(prev.value, row, ctx, g) {
        JumpsIffTooFast(prev.value, row, ctx, g);
      }
      hide RisesTooFast, JumpsOn;
      var r := FirstJump(prev.value, row, ctx, CUMULATIVE_REGISTERS);
      assert r.Some? ==> RisesTooFast(prev.value, row, ctx, r.value);
    }
  }

  lemma {:induction false} KeptAreClean(p: Pass, rows: seq<Reading>, ctx: Context)
    requires p.verdicts == []
    ensures forall r :: r in KeptOf(rows, Run(p, rows, ctx).verdicts) ==> CleanRow(r, ctx.now, ctx.options) && r in rows
  {
    if rows != [] {
      var front, last := rows[..|rows| - 1], rows[|rows| - 1];
      KeptAreClean(p, front, ctx);
      var q := Run(p, front, ctx);
      JudgeKeepsOnlyClean(q.prev, q.streak, last, ctx);
      assert Run(p, rows, ctx).verdicts[..|front|] == q.verdicts;
      assert rows == front + [last];
    }
  }

  // ----- Growth

  /** The readings the sanity check compares one after another. */
  function Chain(p: Pass, rows: seq<Reading>, ctx: Context): seq<Reading>
    requires p.verdicts == []
  {
    (if p.prev.Some? then [p.prev.value] else []) + KeptOf(rows, Run(p, rows, ctx).verdicts)
  }

  ghost predicate NoJumps(chain: seq<Reading>, ctx: Context) {
    forall i :: 0 <= i < |chain| - 1 ==> SanityJumpOf(Some(chain[i]), chain[i + 1], ctx).None?
  }

  lemma ChainExtends(p: Pass, rows: seq<Reading>, ctx: Context)
    requires p.verdicts == [] && rows != []
    ensures var front, last := rows[..|rows| - 1], rows[|rows| - 1];
      var q := Run(p, front, ctx);
      Chain(p, rows, ctx) == Chain(p, front, ctx) + if Kept(Judge(q.prev, q.streak, last, ctx)) then [last] else []
  {
    var front := rows[..|rows| - 1];
    assert Run(p, rows, ctx).verdicts[..|front|] == Run(p, front, ctx).verdicts;
  }

  lemma ChainEndsAtPrev(p: Pass, rows: seq<Reading>, ctx: Context)
    requires p.verdicts == [] && Chain(p, rows, ctx) != []
    ensures var chain := Chain(p, rows, ctx);
      Run(p, rows, ctx).prev == Some(chain[|chain| - 1])
  {
    PrevIsLastKept(p, rows, ctx);
  }

  /** Until the streak trips, each kept row passed the check against the one before. */
  lemma {:induction false} KeptRowsNeverJump(p: Pass, rows: seq<Reading>, ctx: Context)
    requires p.verdicts == [] && !Run(p, rows, ctx).streak.tripped
    ensures NoJumps(Chain(p, rows, ctx), ctx)
  {
    if rows != [] {
      var front := rows[..|rows| - 1];
      KeptRowsNeverJump(p, front, ctx);
      ChainExtends(p, rows, ctx);
      if Chain(p, front, ctx) != [] {
        ChainEndsAtPrev(p, front, ctx);
      }
    }
  }

  function Positive(x: real): real {
    if x >= 0.0 then x else 0.0
  }

  /** The growth rate a threshold allows per nanosecond. */
  function Rate(th: Threshold, multiple: real): real {
    Positive(multiple) * th.median / th.spacing as real
  }

  lemma LimitWithinRate(th: Threshold, multiple: real, gap: int)
    requires gap > 0
    ensures Limit(th, multiple, gap) <= 1.0 + Rate(th, multiple) * gap as real
    ensures Rate(th, multiple) >= 0.0
  {
    var m, s, g := th.median, th.spacing as real, gap as real;
    var c := Positive(multiple) * m;
    assert c >= 0.0;
    assert c / s >= 0.0;
    assert (c / s) * g >= 0.0;
    assert multiple * m <= c;
    assert g / s > 0.0;
    assert (multiple * m) * (g / s) <= c * (g / s);
    assert c * (g / s) == (c / s) * g;
  }

  predicate Reports(chain: seq<Reading>, reg: nat)
    requires reg < CUMULATIVE_REGISTERS
  {
    forall i :: 0 <= i < |chain| ==> chain[i].regs[reg].Some?
  }

  ghost predicate TimesIncrease(chain: seq<Reading>) {
    forall i :: 0 <= i < |chain| - 1 ==> chain[i].ts < chain[i + 1].ts
  }

  /** n steps raise the register by at most n plus the rate times the time elapsed. */
  ghost predicate GrowthBounded(chain: seq<Reading>, rate: real, reg: nat)
    requires reg < CUMULATIVE_REGISTERS && |chain| > 0 && Reports(chain, reg)
  {
    var n := |chain| - 1;
    chain[n].regs[reg].value - chain[0].regs[reg].value
      <= n as real + rate * (chain[n].ts - chain[0].ts) as real
  }

  lemma {:induction false} ChainGrowth(chain: seq<Reading>, ctx: Context, reg: nat)
    requires reg < CUMULATIVE_REGISTERS && ctx.thresholds[reg].Some?
    requires |chain| > 0 && NoJumps(chain, ctx) && Reports(chain, reg) && TimesIncrease(chain)
    ensures GrowthBounded(chain, Rate(ctx.thresholds[reg].value, ctx.options.sanityMultiple), reg)
  {
    if |chain| > 1 {
      var n := |chain| - 1;
      ChainGrowth(chain[..n], ctx, reg);
      StepGrowth(chain[n - 1], chain[n], ctx, reg);
      var rate := Rate(ctx.thresholds[reg].value, ctx.options.sanityMultiple);
    }
  }

  lemma StepGrowth(prev: Reading, row: Reading, ctx: Context, reg: nat)
    requires reg < CUMULATIVE_REGISTERS && ctx.thresholds[reg].Some?
    requires prev.ts < row.ts && prev.regs[reg].Some? && row.regs[reg].Some?
    requires SanityJumpOf(Some(prev), row, ctx).None?
    ensures row.regs[reg].value - prev.regs[reg].value
      <= 1.0 + Rate(ctx.thresholds[reg].value, ctx.options.sanityMultiple) * (row.ts - prev.ts) as real
  {
    assert !JumpsOn(prev, row, ctx, reg);
    LimitWithinRate(ctx.thresholds[reg].value, ctx.options.sanityMultiple, row.ts - prev.ts);
    var rate, gap := Rate(ctx.thresholds[reg].value, ctx.options.sanityMultiple), (row.ts - prev.ts) as real;
    assert rate * gap >= 0.0;
  }

  /** The growth bound of a page: n kept steps raise a thresholded register by
      at most n plus the rate times the time elapsed. */
  lemma AcceptedGrowth(p: Pass, rows: seq<Reading>, ctx: Context, reg: nat)
    requires p.verdicts == [] && !Run(p, rows, ctx).streak.tripped
    requires reg < CUMULATIVE_REGISTERS && ctx.thresholds[reg].Some?
    requires Chain(p, rows, ctx) != [] && Reports(Chain(p, rows, ctx), reg) && TimesIncrease(Chain(p, rows, ctx))
    ensures GrowthBounded(Chain(p, rows, ctx), Rate(ctx.thresholds[reg].value, ctx.options.sanityMultiple), reg)
  {
    KeptRowsNeverJump(p, rows, ctx);
    ChainGrowth(Chain(p, rows, ctx), ctx, reg);
  }
}
