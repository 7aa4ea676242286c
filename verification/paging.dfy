/** How a chunk is cut into pages, and when that can matter
    (internal/ingest/fetch.go, internal/ingest/validate.go). */
module Paging {
  import opened Readings
  import opened Deduplication
  import opened Thresholds
  import opened Validation
  import opened ValidationProperties
  import opened Page

  /** The previous reading the next page starts from: the last row of the
      requested kind, when the page kept one. */
  function NextPrev(prev: Option<Reading>, valid: seq<Reading>, kind: Kind): Option<Reading> {
    var kindRows := OfKind(valid, kind);
    if kindRows == [] then prev else Some(kindRows[|kindRows| - 1])
  }

  datatype Outcome = Outcome(prev: Option<Reading>, streak: Streak, accepted: seq<Reading>, notices: seq<Rejection>)

  /** What one page adds to what the pages before it left. */
  ghost function TakePage(before: Outcome, page: seq<Reading>, analyzer: nat, kind: Kind, ctx: Context): Outcome {
    var accepted := Accepted(before.prev, before.streak, page, analyzer, kind, ctx);
    Outcome(NextPrev(before.prev, accepted, kind),
            PassOf(before.prev, before.streak, page, analyzer, kind, ctx).streak,
            before.accepted + accepted,
            before.notices + Notices(before.prev, before.streak, page, analyzer, kind, ctx))
  }

  /** One chunk, page after page. */
  ghost function RunPages(prev: Option<Reading>, streak: Streak, pages: seq<seq<Reading>>, analyzer: nat, kind: Kind,
                          ctx: Context): Outcome {
    if pages == [] then Outcome(prev, streak, [], [])
    else TakePage(RunPages(prev, streak, pages[..|pages| - 1], analyzer, kind, ctx), pages[|pages| - 1], analyzer, kind, ctx)
  }

  function Flatten(pages: seq<seq<Reading>>): seq<Reading> {
    if pages == [] then [] else Flatten(pages[..|pages| - 1]) + pages[|pages| - 1]
  }

  ghost function RunWhole(prev: Option<Reading>, streak: Streak, rows: seq<Reading>, ctx: Context): Outcome {
    var q := Run(Pass(prev, streak, []), rows, ctx);
    Outcome(q.prev, q.streak, KeptOf(rows, q.verdicts), NoticesOf(rows, q.verdicts))
  }

  /** Every row is of the requested analyzer and kind, and keys are distinct. */
  ghost predicate Plain(rows: seq<Reading>, analyzer: nat, kind: Kind) {
    && DistinctKeys(rows)
    && forall i :: 0 <= i < |rows| ==> rows[i].analyzer == analyzer && rows[i].kind == kind
  }

  lemma PlainParts(a: seq<Reading>, b: seq<Reading>, analyzer: nat, kind: Kind)
    requires Plain(a + b, analyzer, kind)
    ensures Plain(a, analyzer, kind) && Plain(b, analyzer, kind)
  {
    var whole := a + b;
    assert forall i :: 0 <= i < |a| ==> a[i] == whole[i];
    assert forall i :: 0 <= i < |b| ==> b[i] == whole[|a| + i];
    forall i, j | 0 <= i < j < |b| ensures KeyOf(b[i]) != KeyOf(b[j]) {
      assert KeyOf(whole[|a| + i]) != KeyOf(whole[|a| + j]);
    }
  }

  /** A plain page reaches validation as it is. */
  lemma PlainPageUnchanged(rows: seq<Reading>, analyzer: nat, kind: Kind)
    requires Plain(rows, analyzer, kind)
    ensures Candidates(rows, analyzer, kind) == rows
  {
    DistinctPageUnchanged(rows);
    AttributableUnchanged(rows, analyzer, kind);
  }

  /** Over a plain page, the next page's previous reading is the effective one. */
  lemma PlainPrev(prev: Option<Reading>, streak: Streak, rows: seq<Reading>, analyzer: nat, kind: Kind, ctx: Context)
    requires Plain(rows, analyzer, kind)
    ensures var q := Run(Pass(prev, streak, []), rows, ctx);
      NextPrev(prev, KeptOf(rows, q.verdicts), kind) == q.prev
  {
    var p := Pass(prev, streak, []);
    var kept := KeptOf(rows, Run(p, rows, ctx).verdicts);
    DistinctAfterValidation(rows, Run(p, rows, ctx).verdicts);
    forall i | 0 <= i < |kept| ensures kept[i].kind == kind {
      assert kept[i] in rows;
    }
    OfKindUnchanged(kept, kind);
    PrevIsLastKept(p, rows, ctx);
  }

  /** Validating a then b, each on its own, is validating a + b. */
  lemma WholeSplits(prev: Option<Reading>, streak: Streak, a: seq<Reading>, b: seq<Reading>, ctx: Context)
    ensures var first := RunWhole(prev, streak, a, ctx);
      var second := RunWhole(first.prev, first.streak, b, ctx);
      RunWhole(prev, streak, a + b, ctx)
        == Outcome(second.prev, second.streak, first.accepted + second.accepted, first.notices + second.notices)
  {
    var p := Pass(prev, streak, []);
    var q := Run(p, a, ctx);
    RunSplits(p, a, b, ctx);
    RunForgetsVerdicts(q, b, ctx);
    var r := Run(q.(verdicts := []), b, ctx);
    KeptOfConcat(a, q.verdicts, b, r.verdicts);
    NoticesOfConcat(a, q.verdicts, b, r.verdicts);
  }

  /** A chunk cut into pages gives what the uncut chunk gives. */
  lemma {:induction false} PagesEqualWhole(prev: Option<Reading>, streak: Streak, pages: seq<seq<Reading>>,
                                           analyzer: nat, kind: Kind, ctx: Context)
    requires Plain(Flatten(pages), analyzer, kind)
    ensures RunPages(prev, streak, pages, analyzer, kind, ctx) == RunWhole(prev, streak, Flatten(pages), ctx)
  {
    if pages != [] {
      var front, page := pages[..|pages| - 1], pages[|pages| - 1];
      PlainParts(Flatten(front), page, analyzer, kind);
      PagesEqualWhole(prev, streak, front, analyzer, kind, ctx);
      var before := RunWhole(prev, streak, Flatten(front), ctx);
      PlainPageUnchanged(page, analyzer, kind);
      PlainPrev(before.prev, before.streak, page, analyzer, kind, ctx);
      WholeSplits(prev, streak, Flatten(front), page, ctx);
    }
  }

  /** How a chunk of the requested kind with distinct keys is cut into pages
      never changes which rows are accepted, rejected or flagged. */
  lemma PagingDoesNotMatter(prev: Option<Reading>, streak: Streak, pages: seq<seq<Reading>>, other: seq<seq<Reading>>,
                            analyzer: nat, kind: Kind, ctx: Context)
    requires Flatten(pages) == Flatten(other) && Plain(Flatten(pages), analyzer, kind)
    ensures RunPages(prev, streak, pages, analyzer, kind, ctx) == RunPages(prev, streak, other, analyzer, kind, ctx)
  {
    PagesEqualWhole(prev, streak, pages, analyzer, kind, ctx);
    PagesEqualWhole(prev, streak, other, analyzer, kind, ctx);
  }

  // ----- A reset row makes the cut visible

  /** r is kept after a, b is kept after r, but b jumps when compared with a. */
  ghost predicate Hides(a: Reading, r: Reading, b: Reading, kind: Kind, ctx: Context) {
    && a.analyzer == r.analyzer == b.analyzer && DistinctKeys([a, r, b])
    && a.kind == b.kind == kind && r.kind == Reset && kind != Reset
    && Judge(None, FRESH, a, ctx).Keep? && Judge(Some(a), FRESH, r, ctx).Keep?
    && Judge(Some(r), FRESH, b, ctx).Keep? && SanityDrop(Judge(Some(a), FRESH, b, ctx))
  }

  lemma MixedUnchanged(rows: seq<Reading>, analyzer: nat, kind: Kind)
    requires DistinctKeys(rows) && AllAttributable(rows, analyzer, kind)
    ensures Candidates(rows, analyzer, kind) == rows
  {
    DistinctPageUnchanged(rows);
    AttributableUnchanged(rows, analyzer, kind);
  }

  lemma OneMore(prev: Option<Reading>, streak: Streak, rows: seq<Reading>, row: Reading, ctx: Context)
    ensures var before := RunWhole(prev, streak, rows, ctx);
      var v := Judge(before.prev, before.streak, row, ctx);
      RunWhole(prev, streak, rows + [row], ctx).accepted == before.accepted + (if Kept(v) then [row] else [])
    ensures var before := RunWhole(prev, streak, rows, ctx);
      var v := Judge(before.prev, before.streak, row, ctx);
      var after := RunWhole(prev, streak, rows + [row], ctx);
      after.prev == (if Kept(v) then Some(row) else before.prev) && after.streak == Advance(before.streak, v)
  {
    assert (rows + [row])[..|rows|] == rows;
    var q := Run(Pass(prev, streak, []), rows, ctx);
    assert Run(Pass(prev, streak, []), rows + [row], ctx).verdicts[..|rows|] == q.verdicts;
  }

  lemma OnePage(prev: Option<Reading>, streak: Streak, pages: seq<seq<Reading>>, page: seq<Reading>, analyzer: nat,
                kind: Kind, ctx: Context)
    requires DistinctKeys(page) && AllAttributable(page, analyzer, kind)
    ensures var before := RunPages(prev, streak, pages, analyzer, kind, ctx);
      var whole := RunWhole(before.prev, before.streak, page, ctx);
      var after := RunPages(prev, streak, pages + [page], analyzer, kind, ctx);
      && after.accepted == before.accepted + whole.accepted
      && after.prev == NextPrev(before.prev, whole.accepted, kind) && after.streak == whole.streak
  {
    assert (pages + [page])[..|pages|] == pages;
    MixedUnchanged(page, analyzer, kind);
  }

  lemma HidesRun(a: Reading, r: Reading, b: Reading, kind: Kind, ctx: Context)
    requires Hides(a, r, b, kind, ctx)
    ensures RunWhole(None, FRESH, [a, r], ctx).accepted == [a, r] && RunWhole(None, FRESH, [a, r], ctx).streak == FRESH
    ensures RunWhole(None, FRESH, [a, r, b], ctx).accepted == [a, r, b]
    ensures RunWhole(Some(a), FRESH, [b], ctx).accepted == []
  {
    OneMore(None, FRESH, [], a, ctx);
    assert [] + [a] == [a] && [a] + [r] == [a, r] && [a, r] + [b] == [a, r, b] && [] + [b] == [b];
    OneMore(None, FRESH, [a], r, ctx);
    OneMore(None, FRESH, [a, r], b, ctx);
    OneMore(Some(a), FRESH, [], b, ctx);
  }

  lemma LastOfKind(a: Reading, r: Reading)
    requires a.kind != r.kind
    ensures OfKind([a, r], a.kind) == [a]
  {
    assert [a][..0] == [];
    assert OfKind([a], a.kind) == [a];
    assert [a, r][..1] == [a];
  }

  /** Inside one page the reset row becomes the previous reading and hides the
      jump; cut after the reset row, the previous reading is the last row of the
      requested kind and the same row is rejected. */
  lemma ResetRowsMakePagingVisible(a: Reading, r: Reading, b: Reading, kind: Kind, ctx: Context)
    requires Hides(a, r, b, kind, ctx)
    ensures Flatten([[a, r, b]]) == Flatten([[a, r], [b]])
    ensures RunPages(None, FRESH, [[a, r, b]], a.analyzer, kind, ctx).accepted == [a, r, b]
    ensures RunPages(None, FRESH, [[a, r], [b]], a.analyzer, kind, ctx).accepted == [a, r]
  {
    FlattenPages([a, r], [b]);
    assert [a, r] + [b] == [a, r, b];
    UncutAccepts(a, r, b, kind, ctx);
    CutAccepts(a, r, b, [a, r], kind, ctx);
  }

  lemma UncutAccepts(a: Reading, r: Reading, b: Reading, kind: Kind, ctx: Context)
    requires Hides(a, r, b, kind, ctx)
    ensures RunPages(None, FRESH, [[a, r, b]], a.analyzer, kind, ctx).accepted == [a, r, b]
  {
    HidesRun(a, r, b, kind, ctx);
    OnePage(None, FRESH, [], [a, r, b], a.analyzer, kind, ctx);
    assert [] + [[a, r, b]] == [[a, r, b]];
  }

  lemma HeadPage(a: Reading, r: Reading, b: Reading, head: seq<Reading>, kind: Kind, ctx: Context)
    requires Hides(a, r, b, kind, ctx) && head == [a, r]
    ensures var first := RunPages(None, FRESH, [head], a.analyzer, kind, ctx);
      first.accepted == head && first.prev == Some(a) && first.streak == FRESH
  {
    HidesRun(a, r, b, kind, ctx);
    assert head == [a, r, b][..2];
    LastOfKind(a, r);
    OnePage(None, FRESH, [], head, a.analyzer, kind, ctx);
    assert [] + [head] == [head];
  }

  lemma CutAccepts(a: Reading, r: Reading, b: Reading, head: seq<Reading>, kind: Kind, ctx: Context)
    requires Hides(a, r, b, kind, ctx) && head == [a, r]
    ensures RunPages(None, FRESH, [head, [b]], a.analyzer, kind, ctx).accepted == head
  {
    var tail := [b];
    var first := RunPages(None, FRESH, [head], a.analyzer, kind, ctx);
    HeadPage(a, r, b, head, kind, ctx);
    assert RunWhole(Some(a), FRESH, tail, ctx).accepted == [] by {
      HidesRun(a, r, b, kind, ctx);
    }
    OnePage(None, FRESH, [head], tail, a.analyzer, kind, ctx);
    assert [head] + [tail] == [head, [b]];
  }

  lemma FlattenPages(head: seq<Reading>, tail: seq<Reading>)
    ensures Flatten([head + tail]) == head + tail && Flatten([head, tail]) == head + tail
  {
    assert [head, tail][..1] == [head] && [head][..0] == [] && [head + tail][..0] == [];
    assert Flatten([head]) == [] + head == head;
    assert Flatten([head + tail]) == [] + (head + tail) == head + tail;
  }

  /** A reading that reports one register. */
  function Single(ts: int, kind: Kind, reg: nat, value: real): Reading
    requires reg < ALL_REGISTERS
  {
    Reading(1, ts, kind, seq(ALL_REGISTERS, k requires 0 <= k < ALL_REGISTERS => if k == reg then Some(value) else None), 0)
  }

  /** One trusted register, rising by one unit a nanosecond. */
  function TightContext(): Context {
    Context(seq(CUMULATIVE_REGISTERS, k requires 0 <= k < CUMULATIVE_REGISTERS =>
              if k == 0 then Some(Threshold(1.0, 1)) else None),
            100, Options(0, 1.0))
  }

  lemma SingleIsClean(ts: int, kind: Kind, reg: nat, value: real)
    requires reg < ALL_REGISTERS && value >= 0.0 && 0 < ts <= 100
    ensures CleanRow(Single(ts, kind, reg, value), 100, Options(0, 1.0))
  {
    assert Single(ts, kind, reg, value).regs[reg].Some?;
  }

  lemma KeptUnlessJump(prev: Option<Reading>, row: Reading, ctx: Context)
    requires CleanRow(row, ctx.now, ctx.options)
    requires prev.Some? ==> forall k :: 0 <= k < CUMULATIVE_REGISTERS ==> !JumpsOn(prev.value, row, ctx, k)
    ensures Judge(prev, FRESH, row, ctx).Keep?
  {
    JudgeKeepsOnlyClean(prev, FRESH, row, ctx);
    if SanityDrop(Judge(prev, FRESH, row, ctx)) {
      SanityDropMeansBigRise(prev, FRESH, row, ctx);
    }
  }

  lemma DroppedOnJump(prev: Reading, row: Reading, ctx: Context)
    requires CleanRow(row, ctx.now, ctx.options) && prev.ts < row.ts && JumpsOn(prev, row, ctx, 0)
    ensures SanityDrop(Judge(Some(prev), FRESH, row, ctx))
  {
    var none := FirstJump(prev, row, ctx, 0);
    FirstJumpFound(prev, row, ctx, 0, CUMULATIVE_REGISTERS);
    JudgeKeepsOnlyClean(Some(prev), FRESH, row, ctx);
  }

  lemma KeptAcrossRegisters(prev: Reading, row: Reading)
    requires CleanRow(row, 100, Options(0, 1.0)) && (prev.regs[0].None? || row.regs[0].None?)
    ensures Judge(Some(prev), FRESH, row, TightContext()).Keep?
  {
    hide CleanRow, Judge;
    assert forall k: nat | k < CUMULATIVE_REGISTERS :: !JumpsOn(prev, row, TightContext(), k);
    KeptUnlessJump(Some(prev), row, TightContext());
  }

  lemma SteepRiseIsDropped(prev: Reading, row: Reading)
    requires CleanRow(row, 100, Options(0, 1.0)) && prev.ts + 2 == row.ts
    requires prev.regs[0] == Some(0.0) && row.regs[0] == Some(90.0)
    ensures SanityDrop(Judge(Some(prev), FRESH, row, TightContext()))
  {
    hide CleanRow, Judge;
    assert Limit(Threshold(1.0, 1), 1.0, 2) == 2.0;
    DroppedOnJump(prev, row, TightContext());
  }

  /** Such rows exist. */
  lemma SomeResetHidesAJump()
    ensures Hides(Single(1, LoadProfile, 0, 0.0), Single(2, Reset, 1, 5.0), Single(3, LoadProfile, 0, 90.0),
                  LoadProfile, TightContext())
  {
    hide CleanRow, Judge;
    var a, r, b, ctx := Single(1, LoadProfile, 0, 0.0), Single(2, Reset, 1, 5.0), Single(3, LoadProfile, 0, 90.0), TightContext();
    SingleIsClean(1, LoadProfile, 0, 0.0);
    SingleIsClean(2, Reset, 1, 5.0);
    SingleIsClean(3, LoadProfile, 0, 90.0);
    KeptUnlessJump(None, a, ctx);
    KeptAcrossRegisters(a, r);
    KeptAcrossRegisters(r, b);
    SteepRiseIsDropped(a, b);
  }
}
