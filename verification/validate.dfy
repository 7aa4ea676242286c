/** Validation of one page against the previous reading and the run's sanity
    streak (internal/ingest/validate.go). */
module Validation {
  import opened Readings
  import opened Thresholds

  datatype Options = Options(futureTolerance: int, sanityMultiple: real)

  /** Everything a page's checks read besides the rows. */
  datatype Context = Context(thresholds: Thresholds, now: int, options: Options)

  const MAX_CONSECUTIVE_JUMPS: nat := 3

  // ----- The checks of one row

  /** The most a register may rise over tsGap: never less than one unit. */
  function Limit(th: Threshold, multiple: real, tsGap: int): real {
    var scaled := multiple * th.median * (tsGap as real / th.spacing as real);
    if scaled < 1.0 then 1.0 else scaled
  }

  predicate JumpsOn(prev: Reading, row: Reading, ctx: Context, reg: nat)
    requires reg < CUMULATIVE_REGISTERS
  {
    && ctx.thresholds[reg].Some?
    && prev.regs[reg].Some? && row.regs[reg].Some?
    && row.regs[reg].value - prev.regs[reg].value > 0.0
    && row.regs[reg].value - prev.regs[reg].value
       > Limit(ctx.thresholds[reg].value, ctx.options.sanityMultiple, row.ts - prev.ts)
  }

  /** The least jumping register among the first n. */
  function FirstJump(prev: Reading, row: Reading, ctx: Context, n: nat): (r: Option<nat>)
    requires n <= CUMULATIVE_REGISTERS
    ensures r.Some? ==> r.value < n && JumpsOn(prev, row, ctx, r.value)
    ensures forall k :: 0 <= k < (if r.Some? then r.value else n) ==> !JumpsOn(prev, row, ctx, k)
  {
    if n == 0 then None
    else
      var earlier := FirstJump(prev, row, ctx, n - 1);
      if earlier.Some? then earlier
      else if JumpsOn(prev, row, ctx, n - 1) then Some(n - 1) else None
  }

  function SanityJumpOf(prev: Option<Reading>, row: Reading, ctx: Context): Option<nat> {
    if prev.None? || row.ts - prev.value.ts <= 0 then None
    else FirstJump(prev.value, row, ctx, CUMULATIVE_REGISTERS)
  }

  method IsSanityJump(prev: Option<Reading>, row: Reading, ctx: Context) returns (register: Option<nat>)
    ensures register == SanityJumpOf(prev, row, ctx)
  {
    if prev.None? {
      return None;
    }
    var tsGap := row.ts - prev.value.ts;
    if tsGap <= 0 {
      return None;
    }
    for reg := 0 to CUMULATIVE_REGISTERS
      invariant FirstJump(prev.value, row, ctx, reg) == None
    {
      if ctx.thresholds[reg].None? {
        continue;
      }
      var pv, cv := prev.value.regs[reg], row.regs[reg];
      if pv.None? || cv.None? {
        continue;
      }
      var delta := cv.value - pv.value;
      if delta <= 0.0 {
        continue;
      }
      if delta > Limit(ctx.thresholds[reg].value, ctx.options.sanityMultiple, tsGap) {
        FirstJumpFound(prev.value, row, ctx, reg, CUMULATIVE_REGISTERS);
        return Some(reg);
      }
    }
    return None;
  }

  lemma {:induction false} FirstJumpFound(prev: Reading, row: Reading, ctx: Context, reg: nat, n: nat)
    requires reg < n <= CUMULATIVE_REGISTERS && JumpsOn(prev, row, ctx, reg)
    requires FirstJump(prev, row, ctx, reg) == None
    ensures FirstJump(prev, row, ctx, n) == Some(reg)
  {
    if n > reg + 1 {
      FirstJumpFound(prev, row, ctx, reg, n - 1);
    }
  }

  predicate AllRegistersNil(row: Reading) {
    forall k :: 0 <= k < ALL_REGISTERS ==> row.regs[k].None?
  }

  predicate NegativeOn(row: Reading, k: nat)
    requires k < ALL_REGISTERS
  {
    row.regs[k].Some? && row.regs[k].value < 0.0
  }

  /** The least negative register among the first n. */
  function FirstNegative(row: Reading, n: nat): (r: Option<nat>)
    requires n <= ALL_REGISTERS
    ensures r.Some? ==> r.value < n && NegativeOn(row, r.value)
    ensures forall k :: 0 <= k < (if r.Some? then r.value else n) ==> !NegativeOn(row, k)
  {
    if n == 0 then None
    else
      var earlier := FirstNegative(row, n - 1);
      if earlier.Some? then earlier
      else if NegativeOn(row, n - 1) then Some(n - 1) else None
  }

  // ----- The streak and the verdicts

  datatype Streak = Streak(consecutive: nat, tripped: bool)
  const FRESH := Streak(0, false)

  /** `KeepSustained` keeps the row and flags it for an operator. */
  datatype Verdict = Keep | KeepSustained | Drop(reason: Reason, register: RegisterLabel)

  predicate Kept(v: Verdict) {
    v.Keep? || v.KeepSustained?
  }

  predicate SanityDrop(v: Verdict) {
    v.Drop? && v.reason == SanityJump
  }

  /** The four checks that come before the sanity check. */
  function Malformed(row: Reading, ctx: Context): Option<Verdict> {
    if row.ts == 0 then Some(Drop(UnparseableTs, NoRegister))
    else if row.ts > ctx.now + ctx.options.futureTolerance then Some(Drop(Future, NoRegister))
    else if AllRegistersNil(row) then Some(Drop(AllNull, NoRegister))
    else
      match FirstNegative(row, ALL_REGISTERS)
      case Some(reg) => Some(Drop(Negative, Name(reg)))
      case None => None
  }

  function Judge(prev: Option<Reading>, streak: Streak, row: Reading, ctx: Context): Verdict {
    match Malformed(row, ctx)
    case Some(drop) => drop
    case None =>
      if streak.tripped then Keep
      else
        match SanityJumpOf(prev, row, ctx)
        case None => Keep
        case Some(reg) =>
          if streak.consecutive + 1 <= MAX_CONSECUTIVE_JUMPS then Drop(SanityJump, Name(reg))
          else KeepSustained
  }

  /** How a verdict moves the streak. */
  function Advance(streak: Streak, v: Verdict): Streak {
    if streak.tripped then streak
    else if SanityDrop(v) then Streak(streak.consecutive + 1, false)
    else if v.KeepSustained? then Streak(streak.consecutive + 1, true)
    else if v.Keep? then Streak(0, false)
    else streak
  }

  /** The state a page leaves: effective previous reading, streak, one verdict a row. */
  datatype Pass = Pass(prev: Option<Reading>, streak: Streak, verdicts: seq<Verdict>)

  function Step(p: Pass, row: Reading, ctx: Context): Pass {
    var v := Judge(p.prev, p.streak, row, ctx);
    Pass(if Kept(v) then Some(row) else p.prev, Advance(p.streak, v), p.verdicts + [v])
  }

  function Run(p: Pass, rows: seq<Reading>, ctx: Context): (q: Pass)
    ensures |q.verdicts| == |p.verdicts| + |rows|
  {
    if rows == [] then p else Step(Run(p, rows[..|rows| - 1], ctx), rows[|rows| - 1], ctx)
  }

  function KeptOf(rows: seq<Reading>, verdicts: seq<Verdict>): seq<Reading>
    requires |rows| == |verdicts|
  {
    if rows == [] then []
    else
      var last := |rows| - 1;
      KeptOf(rows[..last], verdicts[..last]) + if Kept(verdicts[last]) then [rows[last]] else []
  }

  function NoticesOf(rows: seq<Reading>, verdicts: seq<Verdict>): seq<Rejection>
    requires |rows| == |verdicts|
  {
    if rows == [] then []
    else
      var last := |rows| - 1;
      NoticesOf(rows[..last], verdicts[..last]) +
      match verdicts[last]
      case Keep => []
      case KeepSustained => [Reject(rows[last], SanityJump, Sustained)]
      case Drop(reason, register) => [Reject(rows[last], reason, register)]
  }

  /** The counter one fetch run shares across all its pages. */
  class SanityStreak {
    var consecutive: nat
    var tripped: bool

    constructor ()
      ensures Value() == FRESH
    {
      consecutive, tripped := 0, false;
    }

    function Value(): Streak
      reads this
    {
      Streak(consecutive, tripped)
    }
  }

  /** The loop body's checks of one row; counts and trips the streak. */
  method CheckRow(prev: Option<Reading>, row: Reading, ctx: Context, streak: SanityStreak) returns (v: Verdict)
    modifies streak
    ensures v == Judge(prev, old(streak.Value()), row, ctx)
    ensures streak.Value() == Advance(old(streak.Value()), v)
  {
    if row.ts == 0 {
      return Drop(UnparseableTs, NoRegister);
    } else if row.ts > ctx.now + ctx.options.futureTolerance {
      return Drop(Future, NoRegister);
    } else if AllRegistersNil(row) {
      return Drop(AllNull, NoRegister);
    }
    var negative := FirstNegative(row, ALL_REGISTERS);
    if negative.Some? {
      return Drop(Negative, Name(negative.value));
    }
    if !streak.tripped {
      var jump := IsSanityJump(prev, row, ctx);
      if jump.Some? {
        streak.consecutive := streak.consecutive + 1;
        if streak.consecutive <= MAX_CONSECUTIVE_JUMPS {
          return Drop(SanityJump, Name(jump.value));
        }
        streak.tripped := true;
        return KeepSustained;
      }
      streak.consecutive := 0;
    }
    return Keep;
  }

  method Validate(prev: Option<Reading>, history: seq<Reading>, rows: seq<Reading>, now: int, options: Options,
                  shared: SanityStreak?) returns (valid: seq<Reading>, rejected: seq<Rejection>)
    modifies shared
    ensures var start := Pass(prev, if shared == null then FRESH else old(shared.Value()), []);
      var end := Run(start, rows, Context(ThresholdsOf(history), now, options));
      && valid == KeptOf(rows, end.verdicts)
      && rejected == NoticesOf(rows, end.verdicts)
      && (shared != null ==> shared.Value() == end.streak)
  {
    var thresholds := SanityThresholds(history);
    var ctx := Context(thresholds, now, options);
    var streak: SanityStreak;
    if shared == null {
      streak := new SanityStreak();
    } else {
      streak := shared;
    }
    var effectivePrev := prev;
    valid, rejected := [], [];
    ghost var start := Pass(prev, streak.Value(), []);
    ghost var p := start;
    for i := 0 to |rows|
      invariant p == Run(start, rows[..i], ctx) && |p.verdicts| == i
      invariant p.prev == effectivePrev && p.streak == streak.Value()
      invariant valid == KeptOf(rows[..i], p.verdicts)
      invariant rejected == NoticesOf(rows[..i], p.verdicts)
    {
      var row := rows[i];
      var v := CheckRow(effectivePrev, row, ctx, streak);
      AppendRow(rows, i, p, start, ctx);
      p := Step(p, row, ctx);
      if v.Drop? {
        rejected := rejected + [Reject(row, v.reason, v.register)];
        continue;
      }
      if v.KeepSustained? {
        rejected := rejected + [Reject(row, SanityJump, Sustained)];
      }
      valid := valid + [row];
      effectivePrev := Some(row);
    }
    assert rows[..|rows|] == rows;
  }

  /** One more row, in terms of the row's verdict. */
  lemma AppendRow(rows: seq<Reading>, i: nat, p: Pass, start: Pass, ctx: Context)
    requires i < |rows| && p == Run(start, rows[..i], ctx) && |p.verdicts| == i
    ensures var v := Judge(p.prev, p.streak, rows[i], ctx);
      && Run(start, rows[..i + 1], ctx) == Step(p, rows[i], ctx)
      && KeptOf(rows[..i + 1], p.verdicts + [v])
         == KeptOf(rows[..i], p.verdicts) + (if Kept(v) then [rows[i]] else [])
      && NoticesOf(rows[..i + 1], p.verdicts + [v])
         == NoticesOf(rows[..i], p.verdicts) +
            (match v
             case Keep => []
             case KeepSustained => [Reject(rows[i], SanityJump, Sustained)]
             case Drop(reason, register) => [Reject(rows[i], reason, register)])
  {
    assert rows[..i + 1][..i] == rows[..i];
    var v := Judge(p.prev, p.streak, rows[i], ctx);
    assert (p.verdicts + [v])[..i] == p.verdicts;
  }
}
