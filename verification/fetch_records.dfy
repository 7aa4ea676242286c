/** What a run does to the anomaly table: it re-fetches the falls of its pages, in
    order, and nothing else (internal/ingest/fetch.go). */
module FetchRecords {
  import opened Readings
  import opened Page
  import opened NegativeDeltas
  import opened Anomalies
  import opened Fetch
  import opened FetchRun

  /** Checking and, where missing, creating a record of each of these falls. */
  function Refetches(analyzer: nat, falls: seq<NegativeDelta>, w: World, n: nat): seq<Op> {
    seq(|falls|, i requires 0 <= i < |falls| => Refetch(analyzer, falls[i], w.newId(n, falls[i])))
  }

  lemma {:induction false} RefetchesOf(table: seq<Anomaly>, analyzer: nat, falls: seq<NegativeDelta>, w: World, n: nat, k: nat)
    requires k <= |falls| && FallsPass(table, analyzer, falls, w, n, k)
    ensures RefetchAll(table, analyzer, falls[..k], w, n) == ApplyAll(table, Refetches(analyzer, falls, w, n)[..k])
  {
    var ops := Refetches(analyzer, falls, w, n);
    if k > 0 {
      RefetchesOf(table, analyzer, falls, w, n, k - 1);
      assert falls[..k][..k - 1] == falls[..k - 1] && ops[..k][..k - 1] == ops[..k - 1];
      assert FallPasses(RefetchAll(table, analyzer, falls[..k - 1], w, n), analyzer, falls[k - 1], w, n);
    }
  }

  // ----- What one page adds

  /** The record of a fall, as it is stored: its period in whole microseconds, open. */
  predicate IsRecordOf(a: Anomaly, analyzer: nat, d: NegativeDelta) {
    && a.analyzer == analyzer && a.negativeDelta && a.register == d.register && !a.resolved
    && a.start <= d.prevTs < a.start + 1_000 && a.start % 1_000 == 0
    && a.end <= d.curTs < a.end + 1_000 && a.end % 1_000 == 0
  }

  lemma NewRecordIsOf(id: nat, analyzer: nat, d: NegativeDelta)
    ensures IsRecordOf(NewAnomaly(id, analyzer, d), analyzer, d)
  {
  }

  /** Some record has the fall's analyzer, register and period, as it is or as stored. */
  ghost predicate IsRecorded(table: seq<Anomaly>, analyzer: nat, d: NegativeDelta) {
    exists i :: 0 <= i < |table| && table[i].analyzer == analyzer && table[i].negativeDelta && table[i].register == d.register
      && ((table[i].start == d.prevTs && table[i].end == d.curTs) || IsRecordOf(table[i], analyzer, d))
  }

  lemma IsRecordedStays(table: seq<Anomaly>, more: seq<Anomaly>, analyzer: nat, d: NegativeDelta)
    requires IsRecorded(table, analyzer, d)
    ensures IsRecorded(table + more, analyzer, d)
  {
    var i :| 0 <= i < |table| && table[i].analyzer == analyzer && table[i].negativeDelta && table[i].register == d.register
      && ((table[i].start == d.prevTs && table[i].end == d.curTs) || IsRecordOf(table[i], analyzer, d));
    assert (table + more)[i] == table[i];
  }

  /** What checking the first falls of a list adds: one record for each fall not recorded
      yet, behind the records that were there. */
  lemma {:induction false} RefetchAllAdds(table: seq<Anomaly>, analyzer: nat, falls: seq<NegativeDelta>, w: World, n: nat)
    returns (added: seq<Anomaly>)
    ensures RefetchAll(table, analyzer, falls, w, n) == table + added
    ensures forall a :: a in added ==> exists d :: d in falls && IsRecordOf(a, analyzer, d)
    ensures forall d :: d in falls ==> IsRecorded(table + added, analyzer, d)
  {
    hide IsRecorded, IsRecordOf;
    added := [];
    if falls != [] {
      var front, d := falls[..|falls| - 1], falls[|falls| - 1];
      added := RefetchAllAdds(table, analyzer, front, w, n);
      var before := table + added;
      assert falls == front + [d];
      if Found(before, analyzer, d) {
        FoundIsRecorded(before, analyzer, d);
      } else {
        var a := NewAnomaly(w.newId(n, d), analyzer, d);
        NewRecordIsOf(w.newId(n, d), analyzer, d);
        assert before + [a] == table + (added + [a]);
        forall x | x in front ensures IsRecorded(before + [a], analyzer, x) {
          IsRecordedStays(before, [a], analyzer, x);
        }
        NewestIsRecorded(before, a, analyzer, d);
        added := added + [a];
      }
    } else {
      assert table + [] == table;
    }
  }

  lemma FoundIsRecorded(table: seq<Anomaly>, analyzer: nat, d: NegativeDelta)
    requires Found(table, analyzer, d)
    ensures IsRecorded(table, analyzer, d)
  {
    var i :| 0 <= i < |table| && Listed(table, analyzer, d, i) && Anomalies.Records(table[i], analyzer, d);
    assert table[i].start == d.prevTs && table[i].end == d.curTs;
  }

  lemma NewestIsRecorded(table: seq<Anomaly>, a: Anomaly, analyzer: nat, d: NegativeDelta)
    requires IsRecordOf(a, analyzer, d)
    ensures IsRecorded(table + [a], analyzer, d)
  {
    assert (table + [a])[|table|] == a;
  }

  /** A page adds a record only for one of its falls; one that goes through with rows of
      the requested kind leaves every fall recorded. */
  lemma PageRecordsItsFalls(m: Mark, t: Mark, w: World, plan: Plan, advances: bool, p: PageIn, err: Option<FetchError>)
    returns (added: seq<Anomaly>)
    requires PageEnds(m, t, w, plan, advances, p, err)
    ensures t.anomalies == m.anomalies + added
    ensures forall a :: a in added ==> exists d :: d in FallsOf(w, plan, p) && IsRecordOf(a, plan.analyzer, d)
    ensures err.None? && OfKind(p.accepted, plan.kind) != [] ==>
      forall d :: d in FallsOf(w, plan, p) ==> IsRecorded(t.anomalies, plan.analyzer, d)
  {
    hide IsRecorded, IsRecordOf, RowsPass, PagePasses, RowsBreak, PageBreaks, RefetchAll, FallsOf;
    var falls := FallsOf(w, plan, p);
    var k := 0;
    if err.Some? {
      k := BrokenAfter(m, t, w, plan, advances, p, err.value);
    } else if OfKind(p.accepted, plan.kind) != [] {
      k := |falls|;
    }
    added := RefetchAllAdds(m.anomalies, plan.analyzer, falls[..k], w, p.n);
    assert k == |falls| ==> falls[..k] == falls;
    if k == 0 {
      NoneRefetched(m.anomalies, plan.analyzer, falls, w, p.n);
    }
  }

  lemma NoneRefetched(table: seq<Anomaly>, analyzer: nat, falls: seq<NegativeDelta>, w: World, n: nat)
    ensures RefetchAll(table, analyzer, falls[..0], w, n) == table
  {
    assert falls[..0] == [];
  }

  /** The falls checked before a page broke. */
  lemma BrokenAfter(m: Mark, t: Mark, w: World, plan: Plan, advances: bool, p: PageIn, e: FetchError) returns (k: nat)
    requires PageBreaks(m, t, w, plan, advances, p, e)
    ensures k <= |FallsOf(w, plan, p)|
    ensures t.anomalies == RefetchAll(m.anomalies, plan.analyzer, FallsOf(w, plan, p)[..k], w, p.n)
  {
    hide FallsOf, OfKind, RefetchAll, FallsPass, FallBreaks, PageBreaks;
    var falls := FallsOf(w, plan, p);
    NoneRefetched(m.anomalies, plan.analyzer, falls, w, p.n);
    WhatABrokenPageLeaves(m, t, w, plan, advances, p, e);
    k := 0;
    if t.anomalies != m.anomalies {
      if e.CallFailed? && (e.call.RecordSuccessCall? || e.call.TouchCall? || e.call.HourlyCall?) {
        k := |falls|;
        assert falls[..k] == falls;
      } else {
        k := BrokenInAFall(m, t, w, plan, advances, p, e);
      }
    }
  }

  lemma BrokenInAFall(m: Mark, t: Mark, w: World, plan: Plan, advances: bool, p: PageIn, e: FetchError) returns (k: nat)
    requires PageBreaks(m, t, w, plan, advances, p, e)
    requires e.InvalidRange? || (e.CallFailed? && !e.call.BulkInsertCall? && !e.call.HookCall? && !e.call.ResetRead?
      && !e.call.RecordSuccessCall? && !e.call.TouchCall? && !e.call.HourlyCall?)
    ensures k <= |FallsOf(w, plan, p)|
    ensures t.anomalies == RefetchAll(m.anomalies, plan.analyzer, FallsOf(w, plan, p)[..k], w, p.n)
  {
    hide FallsOf, OfKind, RefetchAll, FallsPass, FallBreaks;
    k :| FallsBreakAt(m.anomalies, t.anomalies, plan.analyzer, FallsOf(w, plan, p), w, p.n, e, k);
  }

  // ----- Page by page and chunk by chunk

  function PageOps(w: World, plan: Plan, p: PageIn): seq<Op> {
    if OfKind(p.accepted, plan.kind) == [] then [] else Refetches(plan.analyzer, FallsOf(w, plan, p), w, p.n)
  }

  ghost function ChunkOps(w: World, c: ChunkStart, plan: Plan, k: nat): seq<Op> {
    if k == 0 then [] else ChunkOps(w, c, plan, k - 1) + PageOps(w, plan, PageAt(w, c, plan, k - 1))
  }

  ghost function RunOps(m: Mark, w: World, plan: Plan, advances: bool, chunks: seq<Window>, counts: seq<nat>): seq<Op>
    requires |counts| <= |chunks|
  {
    if counts == [] then []
    else
      var i := |counts| - 1;
      RunOps(m, w, plan, advances, chunks, counts[..i])
      + ChunkOps(w, NextChunk(m, w, plan, advances, chunks, counts[..i]), plan, counts[i])
  }

  lemma PageRecords(table: seq<Anomaly>, w: World, plan: Plan, advances: bool, p: PageIn)
    requires RowsPass(table, w, plan, advances, p)
    ensures AnomaliesOf(table, w, plan, p) == ApplyAll(table, PageOps(w, plan, p))
  {
    var falls := FallsOf(w, plan, p);
    if OfKind(p.accepted, plan.kind) != [] {
      RefetchesOf(table, plan.analyzer, falls, w, p.n, |falls|);
      assert falls[..|falls|] == falls && PageOps(w, plan, p)[..|falls|] == PageOps(w, plan, p);
    }
  }

  lemma PassedPageRecords(table: seq<Anomaly>, w: World, plan: Plan, advances: bool, p: PageIn)
    requires PagePasses(table, w, plan, advances, p)
    ensures AnomaliesOf(table, w, plan, p) == ApplyAll(table, PageOps(w, plan, p))
  {
    hide RowsPass;
    if p.accepted == [] {
      assert OfKind(p.accepted, plan.kind) == [];
    } else {
      PageRecords(table, w, plan, advances, p);
    }
  }

  lemma {:induction false} ChunkRecords(m: Mark, w: World, plan: Plan, advances: bool, c: ChunkStart, k: nat)
    requires ChunkPasses(m, w, plan, advances, c, k)
    ensures ChunkMark(m, w, plan, advances, c, k).anomalies == ApplyAll(m.anomalies, ChunkOps(w, c, plan, k))
  {
    hide PagePasses, PageAt, AnomaliesOf, PageOps, ReplyAt, RequestFrom;
    if k > 0 {
      var before, p := ChunkMark(m, w, plan, advances, c, k - 1), PageAt(w, c, plan, k - 1);
      ChunkRecords(m, w, plan, advances, c, k - 1);
      assert StepPasses(m, w, plan, advances, c, k - 1);
      PassedPageRecords(before.anomalies, w, plan, advances, p);
      OpsInTurn(m.anomalies, ChunkOps(w, c, plan, k - 1), PageOps(w, plan, p));
    }
  }

  lemma {:induction false} ChunksRecord(m: Mark, w: World, plan: Plan, advances: bool, chunks: seq<Window>, counts: seq<nat>)
    requires |counts| <= |chunks| && AllPass(m, w, plan, advances, chunks, counts)
    ensures RunAfter(m, w, plan, advances, chunks, counts).mark.anomalies
      == ApplyAll(m.anomalies, RunOps(m, w, plan, advances, chunks, counts))
  {
    hide ChunkMark, ChunkOps, ChunkPasses, EndsAfter, OutcomeAfter;
    if counts != [] {
      var i := |counts| - 1;
      var before := RunAfter(m, w, plan, advances, chunks, counts[..i]);
      var c := NextChunk(m, w, plan, advances, chunks, counts[..i]);
      ChunksRecord(m, w, plan, advances, chunks, counts[..i]);
      ChunkRecords(before.mark, w, plan, advances, c, counts[i]);
      OpsInTurn(m.anomalies, RunOps(m, w, plan, advances, chunks, counts[..i]), ChunkOps(w, c, plan, counts[i]));
    }
  }

  // ----- Whole runs

  /** These re-fetches: of all pages of a finished run; of the pages before the one a
      run broke in, and of the first falls of that one. */
  ghost predicate AreTheRuns(m: Mark, w: World, plan: Plan, advances: bool, chunks: seq<Window>, err: Option<FetchError>,
                             ops: seq<Op>) {
    match err
    case None =>
      exists counts: seq<nat> :: |counts| == |chunks| && AllPass(m, w, plan, advances, chunks, counts)
        && ops == RunOps(m, w, plan, advances, chunks, counts)
    case Some(e) =>
      exists counts: seq<nat>, k: nat, i: nat :: AreUpTo(m, w, plan, advances, chunks, counts, k, i, ops)
  }

  ghost predicate AreUpTo(m: Mark, w: World, plan: Plan, advances: bool, chunks: seq<Window>, counts: seq<nat>, k: nat, i: nat,
                          ops: seq<Op>) {
    && Reaches(m, w, plan, advances, chunks, counts, k)
    && var c := NextChunk(m, w, plan, advances, chunks, counts);
       var last := PageOps(w, plan, PageAt(w, c, plan, k));
    && i <= |last|
    && ops == RunOps(m, w, plan, advances, chunks, counts) + (ChunkOps(w, c, plan, k) + last[..i])
  }

  lemma BrokenFalls(before: seq<Anomaly>, after: seq<Anomaly>, analyzer: nat, falls: seq<NegativeDelta>, w: World, n: nat,
                    e: FetchError) returns (i: nat)
    requires FallsEnd(before, after, analyzer, falls, w, n, Some(e))
    ensures i <= |falls| && after == ApplyAll(before, Refetches(analyzer, falls, w, n)[..i])
  {
    i :| FallsBreakAt(before, after, analyzer, falls, w, n, e, i);
    RefetchesOf(before, analyzer, falls, w, n, i);
  }

  lemma BrokenRows(s: Mark, t: Mark, w: World, plan: Plan, advances: bool, p: PageIn, e: FetchError) returns (i: nat)
    requires RowsBreak(s, t, w, plan, advances, p, e) && OfKind(p.accepted, plan.kind) != []
    ensures i <= |PageOps(w, plan, p)| && t.anomalies == ApplyAll(s.anomalies, PageOps(w, plan, p)[..i])
  {
    hide FallsEnd, FallsPass, ApplyAll;
    var falls := FallsOf(w, plan, p);
    var ops := PageOps(w, plan, p);
    if e == CallFailed(p.n, ResetRead) {
      i := 0;
      NothingApplied(s.anomalies, ops);
    } else if e == CallFailed(p.n, RecordSuccessCall) || e == CallFailed(p.n, TouchCall) {
      i := |falls|;
      RefetchesOf(s.anomalies, plan.analyzer, falls, w, p.n, i);
      assert falls[..i] == falls;
    } else {
      i := BrokenFalls(s.anomalies, t.anomalies, plan.analyzer, falls, w, p.n, e);
    }
  }

  lemma NothingApplied(table: seq<Anomaly>, ops: seq<Op>)
    ensures ApplyAll(table, ops[..0]) == table
  {
    assert ops[..0] == [];
  }

  lemma BrokenPage(m: Mark, t: Mark, w: World, plan: Plan, advances: bool, p: PageIn, e: FetchError) returns (i: nat)
    requires PageBreaks(m, t, w, plan, advances, p, e)
    ensures i <= |PageOps(w, plan, p)| && t.anomalies == ApplyAll(m.anomalies, PageOps(w, plan, p)[..i])
  {
    hide RowsBreak, RowsPass, PageOps, ApplyAll, AnomaliesOf;
    var ops := PageOps(w, plan, p);
    NothingApplied(m.anomalies, ops);
    if e == CallFailed(p.n, BulkInsertCall) || e == CallFailed(p.n, HookCall) {
      i := 0;
    } else if e == CallFailed(p.n, HourlyCall) {
      i := |ops|;
      PageRecords(m.anomalies, w, plan, advances, p);
      assert ops[..i] == ops;
    } else {
      i := BrokenRows(ServedMark(m, p), t, w, plan, advances, p, e);
    }
  }

  lemma BrokenStep(m: Mark, t: Mark, w: World, plan: Plan, advances: bool, c: ChunkStart, k: nat, e: FetchError)
    returns (i: nat)
    requires StepBreaks(m, t, w, plan, advances, c, k, e)
    ensures var at, ops := ChunkMark(m, w, plan, advances, c, k), PageOps(w, plan, PageAt(w, c, plan, k));
      i <= |ops| && t.anomalies == ApplyAll(at.anomalies, ops[..i])
  {
    hide PageBreaks, PagePasses, PageOps, ApplyAll, AnomaliesOf, ChunkMark, PageAt, ReplyAt, RequestFrom;
    var at, p := ChunkMark(m, w, plan, advances, c, k), PageAt(w, c, plan, k);
    var ops := PageOps(w, plan, p);
    NothingApplied(at.anomalies, ops);
    i := 0;
    if PageBreaks(at, t, w, plan, advances, p, e) {
      i := BrokenPage(at, t, w, plan, advances, p, e);
    } else if t.anomalies != at.anomalies {
      i := |ops|;
      PassedPageRecords(at.anomalies, w, plan, advances, p);
      assert ops[..i] == ops;
    }
  }

  /** A run, finished or not, does to the table exactly what re-fetching its falls in
      order does; so as long as no existing record is pushed off the page it is looked
      up on, the table keeps one record per period and register. */
  lemma RunsNeverDuplicate(m: Mark, t: Mark, w: World, plan: Plan, advances: bool, chunks: seq<Window>, err: Option<FetchError>)
    returns (ops: seq<Op>)
    requires RunTrace(m, t, w, plan, advances, chunks, err)
    ensures AreTheRuns(m, w, plan, advances, chunks, err, ops) && t.anomalies == ApplyAll(m.anomalies, ops)
    ensures OneRecordEach(m.anomalies) && TableOnWire(m.anomalies) && AlwaysVisible(m.anomalies, ops) ==>
      OneRecordEach(t.anomalies) && TableOnWire(t.anomalies)
  {
    hide AllPass, Reaches, RunAfter, AcceptedIn, StepBreaks, ChunkMark, PageAt, RunOps, ChunkOps, PageOps, ApplyAll, NextChunk;
    hide OneRecordEach, TableOnWire, AlwaysVisible;
    if err.None? {
      var counts :| RunEnds(m, t, w, plan, advances, chunks, counts);
      ops := RunOps(m, w, plan, advances, chunks, counts);
      ChunksRecord(m, w, plan, advances, chunks, counts);
    } else {
      var counts, k: nat :| RunBreaks(m, t, w, plan, advances, chunks, counts, k, err.value);
      ops := BrokenRun(m, t, w, plan, advances, chunks, counts, k, err.value);
    }
    if OneRecordEach(m.anomalies) && TableOnWire(m.anomalies) && AlwaysVisible(m.anomalies, ops) {
      RefetchesNeverDuplicate(m.anomalies, ops);
    }
  }

  lemma BrokenRun(m: Mark, t: Mark, w: World, plan: Plan, advances: bool, chunks: seq<Window>, counts: seq<nat>, k: nat,
                  e: FetchError) returns (ops: seq<Op>)
    requires RunBreaks(m, t, w, plan, advances, chunks, counts, k, e)
    ensures AreTheRuns(m, w, plan, advances, chunks, Some(e), ops) && t.anomalies == ApplyAll(m.anomalies, ops)
  {
    hide AllPass, GoesOn, ChunkPasses, RunAfter, StepBreaks, ChunkMark, PageAt, RunOps, ChunkOps, PageOps, ApplyAll, NextChunk;
    var before := RunAfter(m, w, plan, advances, chunks, counts).mark;
    var c := NextChunk(m, w, plan, advances, chunks, counts);
    var i := BrokenStep(before, t, w, plan, advances, c, k, e);
    var last := PageOps(w, plan, PageAt(w, c, plan, k));
    ChunksRecord(m, w, plan, advances, chunks, counts);
    ChunkRecords(before, w, plan, advances, c, k);
    OpsInTurn(before.anomalies, ChunkOps(w, c, plan, k), last[..i]);
    OpsInTurn(m.anomalies, RunOps(m, w, plan, advances, chunks, counts), ChunkOps(w, c, plan, k) + last[..i]);
    ops := RunOps(m, w, plan, advances, chunks, counts) + (ChunkOps(w, c, plan, k) + last[..i]);
    assert AreUpTo(m, w, plan, advances, chunks, counts, k, i, ops);
  }
}
