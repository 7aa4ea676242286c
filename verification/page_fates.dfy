/** Which row of a page goes where: the page's own indices followed through
    deduplication, attribution and validation (internal/ingest/fetch.go). */
module PageFates {
  import opened Readings
  import opened Deduplication
  import opened Validation
  import opened Page

  // ----- Splitting a list of indices

  /** The positions whose flag is the wanted one, in order. */
  function Positions(flags: seq<bool>, want: bool): (idx: seq<nat>)
    ensures forall k :: 0 <= k < |idx| ==> idx[k] < |flags|
  {
    if flags == [] then []
    else
      var last := |flags| - 1;
      Positions(flags[..last], want) + if flags[last] == want then [last] else []
  }

  lemma {:induction false} PositionsMeaning(flags: seq<bool>, want: bool)
    ensures Increasing(Positions(flags, want))
    ensures forall i :: 0 <= i < |flags| ==> (i in Positions(flags, want) <==> flags[i] == want)
  {
    if flags != [] {
      var last := |flags| - 1;
      PositionsMeaning(flags[..last], want);
      assert forall i :: 0 <= i < last ==> flags[..last][i] == flags[i];
    }
  }

  lemma SelectMeaning(idx: seq<nat>, flags: seq<bool>, want: bool, k: nat)
    requires Increasing(idx) && |idx| == |flags| && k < |idx|
    ensures idx[k] in Select(idx, Positions(flags, want)) <==> flags[k] == want
  {
    var at := Positions(flags, want);
    PositionsMeaning(flags, want);
    if k in at {
      var u :| 0 <= u < |at| && at[u] == k;
      assert Select(idx, at)[u] == idx[k];
    }
    if idx[k] in Select(idx, at) {
      var u :| 0 <= u < |at| && Select(idx, at)[u] == idx[k];
      assert at[u] == k && at[u] in at;
    }
  }

  lemma SelectWithin(idx: seq<nat>, flags: seq<bool>, want: bool, i: nat)
    requires |idx| == |flags| && i in Select(idx, Positions(flags, want))
    ensures i in idx
  {
    var at := Positions(flags, want);
    var u :| 0 <= u < |at| && Select(idx, at)[u] == i;
    assert idx[at[u]] == i;
  }

  /** The two halves of a split share nothing and leave nothing out. */
  lemma SplitPartitions(idx: seq<nat>, flags: seq<bool>)
    requires Increasing(idx) && |idx| == |flags|
    ensures var yes, no := Select(idx, Positions(flags, true)), Select(idx, Positions(flags, false));
      Increasing(yes) && Increasing(no) && Elements(yes) !! Elements(no) && Elements(yes) + Elements(no) == Elements(idx)
  {
    hide Positions;
    var yes, no := Select(idx, Positions(flags, true)), Select(idx, Positions(flags, false));
    PositionsMeaning(flags, true);
    PositionsMeaning(flags, false);
    forall i ensures (i in idx <==> i in yes || i in no) && !(i in yes && i in no) {
      if i in yes {
        SelectWithin(idx, flags, true, i);
      }
      if i in no {
        SelectWithin(idx, flags, false, i);
      }
      if k :| 0 <= k < |idx| && idx[k] == i {
        SelectMeaning(idx, flags, true, k);
        SelectMeaning(idx, flags, false, k);
      }
    }
  }

  // ----- Each stage selects

  function AttributionFlags(rows: seq<Reading>, analyzer: nat, kind: Kind): (flags: seq<bool>)
    ensures |flags| == |rows|
  {
    seq(|rows|, i requires 0 <= i < |rows| => Attributable(rows[i], analyzer, kind))
  }

  function KeptFlags(verdicts: seq<Verdict>): (flags: seq<bool>)
    ensures |flags| == |verdicts|
  {
    seq(|verdicts|, i requires 0 <= i < |verdicts| => Kept(verdicts[i]))
  }

  function Misattribution(r: Reading, analyzer: nat): Rejection {
    Reject(r, if r.analyzer != analyzer then WrongAnalyzer else WrongKind, NoRegister)
  }

  function Misattributions(rows: seq<Reading>, idx: seq<nat>, analyzer: nat): (s: seq<Rejection>)
    requires forall k :: 0 <= k < |idx| ==> idx[k] < |rows|
    ensures |s| == |idx|
    ensures forall k :: 0 <= k < |idx| ==>
      s[k] == Rejection(rows[idx[k]].ts, rows[idx[k]].kind, if rows[idx[k]].analyzer != analyzer then WrongAnalyzer else WrongKind,
                        NoRegister)
  {
    seq(|idx|, k requires 0 <= k < |idx| => Misattribution(rows[idx[k]], analyzer))
  }

  /** What the verdicts say about the rows they were passed on. */
  function Refusals(rows: seq<Reading>, verdicts: seq<Verdict>): (s: seq<Rejection>)
    requires |rows| == |verdicts|
    ensures |s| == |rows|
    ensures forall k :: 0 <= k < |rows| ==>
      s[k] == if verdicts[k].Drop? then Rejection(rows[k].ts, rows[k].kind, verdicts[k].reason, verdicts[k].register)
              else Rejection(rows[k].ts, rows[k].kind, SanityJump, Sustained)
  {
    seq(|rows|, k requires 0 <= k < |rows| => NoticeOf(rows[k], verdicts[k]))
  }

  lemma SelectLast<T>(rows: seq<T>, flags: seq<bool>, want: bool)
    requires |rows| == |flags| && rows != []
    ensures var last := |rows| - 1;
      Select(rows, Positions(flags, want))
        == Select(rows[..last], Positions(flags[..last], want)) + if flags[last] == want then [rows[last]] else []
  {
  }

  lemma MisattributionsLast(rows: seq<Reading>, flags: seq<bool>, analyzer: nat)
    requires |rows| == |flags| && rows != []
    ensures var last := |rows| - 1;
      Misattributions(rows, Positions(flags, false), analyzer)
        == Misattributions(rows[..last], Positions(flags[..last], false), analyzer)
         + if flags[last] then [] else [Misattribution(rows[last], analyzer)]
  {
  }

  lemma AttributeLast(rows: seq<Reading>, analyzer: nat, kind: Kind)
    requires rows != []
    ensures var last, fits := |rows| - 1, Attributable(rows[|rows| - 1], analyzer, kind);
      && Attributed(rows, analyzer, kind) == Attributed(rows[..last], analyzer, kind) + (if fits then [rows[last]] else [])
      && Misattributed(rows, analyzer, kind)
         == Misattributed(rows[..last], analyzer, kind) + if fits then [] else [Misattribution(rows[last], analyzer)]
  {
  }

  lemma NoneToAttribute(analyzer: nat, kind: Kind)
    ensures Attributed([], analyzer, kind) == [] && Misattributed([], analyzer, kind) == []
  {
  }

  lemma {:induction false} AttributionSelects(rows: seq<Reading>, analyzer: nat, kind: Kind)
    ensures var flags := AttributionFlags(rows, analyzer, kind);
      && Attributed(rows, analyzer, kind) == Select(rows, Positions(flags, true))
      && Misattributed(rows, analyzer, kind) == Misattributions(rows, Positions(flags, false), analyzer)
  {
    hide Positions, Attributed, Misattributed, Misattribution, Attributable;
    var flags := AttributionFlags(rows, analyzer, kind);
    if rows == [] {
      NoneToAttribute(analyzer, kind);
      NoPositions(flags, true);
      NoPositions(flags, false);
    } else {
      var last := |rows| - 1;
      AttributionSelects(rows[..last], analyzer, kind);
      AttributeLast(rows, analyzer, kind);
      assert AttributionFlags(rows[..last], analyzer, kind) == flags[..last];
      SelectLast(rows, flags, true);
      MisattributionsLast(rows, flags, analyzer);
    }
  }

  lemma {:induction false} KeptSelects(rows: seq<Reading>, verdicts: seq<Verdict>)
    requires |rows| == |verdicts|
    ensures KeptOf(rows, verdicts) == Select(rows, Positions(KeptFlags(verdicts), true))
  {
    hide Positions;
    if rows != [] {
      var last := |rows| - 1;
      KeptSelects(rows[..last], verdicts[..last]);
      assert KeptFlags(verdicts[..last]) == KeptFlags(verdicts)[..last];
      SelectLast(rows, KeptFlags(verdicts), true);
    } else {
      assert |Positions(KeptFlags(verdicts), true)| == 0 by {
        NoPositions(KeptFlags(verdicts), true);
      }
    }
  }

  lemma NoPositions(flags: seq<bool>, want: bool)
    ensures flags == [] ==> Positions(flags, want) == []
  {
  }

  lemma GenuineOfLast(rows: seq<Reading>, verdicts: seq<Verdict>)
    requires |rows| == |verdicts| && rows != [] && Honest(verdicts)
    ensures var last := |rows| - 1;
      GenuineOf(NoticesOf(rows, verdicts))
        == GenuineOf(NoticesOf(rows[..last], verdicts[..last]))
         + if Kept(verdicts[last]) then [] else [NoticeOf(rows[last], verdicts[last])]
  {
    hide GenuineOf, NoticesOf;
    var last := |rows| - 1;
    NoticesOfLast(rows, verdicts);
    AppendNotice(NoticesOf(rows[..last], verdicts[..last]), NoticeOf(rows[last], verdicts[last]));
  }

  lemma RefusalsLast(rows: seq<Reading>, verdicts: seq<Verdict>)
    requires |rows| == |verdicts| && rows != []
    ensures var last := |rows| - 1;
      Select(Refusals(rows, verdicts), Positions(KeptFlags(verdicts), false))
        == Select(Refusals(rows[..last], verdicts[..last]), Positions(KeptFlags(verdicts[..last]), false))
         + if Kept(verdicts[last]) then [] else [NoticeOf(rows[last], verdicts[last])]
  {
    hide Positions, NoticeOf, Kept;
    var last := |rows| - 1;
    assert KeptFlags(verdicts[..last]) == KeptFlags(verdicts)[..last];
    assert Refusals(rows[..last], verdicts[..last]) == Refusals(rows, verdicts)[..last];
    SelectLast(Refusals(rows, verdicts), KeptFlags(verdicts), false);
  }

  lemma NothingToSelect(rows: seq<Reading>, verdicts: seq<Verdict>)
    requires rows == [] && verdicts == []
    ensures GenuineOf(NoticesOf(rows, verdicts)) == Select(Refusals(rows, verdicts), Positions(KeptFlags(verdicts), false))
  {
  }

  lemma {:induction false} GenuineSelects(rows: seq<Reading>, verdicts: seq<Verdict>)
    requires |rows| == |verdicts| && Honest(verdicts)
    ensures GenuineOf(NoticesOf(rows, verdicts)) == Select(Refusals(rows, verdicts), Positions(KeptFlags(verdicts), false))
  {
    hide Positions, GenuineOf, NoticesOf, Refusals, KeptFlags, NoticeOf, Kept;
    if rows == [] {
      NothingToSelect(rows, verdicts);
    } else {
      var last := |rows| - 1;
      GenuineSelects(rows[..last], verdicts[..last]);
      GenuineOfLast(rows, verdicts);
      RefusalsLast(rows, verdicts);
    }
  }

  function SustainedFlags(verdicts: seq<Verdict>): (flags: seq<bool>)
    ensures |flags| == |verdicts|
  {
    seq(|verdicts|, i requires 0 <= i < |verdicts| => verdicts[i].KeepSustained?)
  }

  lemma FlagsOfLast(rows: seq<Reading>, verdicts: seq<Verdict>)
    requires |rows| == |verdicts| && rows != [] && Honest(verdicts)
    ensures var last := |rows| - 1;
      FlagsOf(NoticesOf(rows, verdicts))
        == FlagsOf(NoticesOf(rows[..last], verdicts[..last]))
         + if verdicts[last].KeepSustained? then [NoticeOf(rows[last], verdicts[last])] else []
  {
    hide FlagsOf, NoticesOf;
    var last := |rows| - 1;
    NoticesOfLast(rows, verdicts);
    AppendNotice(NoticesOf(rows[..last], verdicts[..last]), NoticeOf(rows[last], verdicts[last]));
  }

  /** The flags raised are those of the rows at the sustained verdicts, each naming its
      row, in order. */
  lemma {:induction false} FlagsSelect(rows: seq<Reading>, verdicts: seq<Verdict>)
    requires |rows| == |verdicts| && Honest(verdicts)
    ensures FlagsOf(NoticesOf(rows, verdicts)) == Select(Refusals(rows, verdicts), Positions(SustainedFlags(verdicts), true))
  {
    hide Positions, FlagsOf, NoticesOf, NoticeOf;
    if rows == [] {
      NoFlagsRaised(rows, verdicts);
    } else {
      var last := |rows| - 1;
      FlagsSelect(rows[..last], verdicts[..last]);
      FlagsOfLast(rows, verdicts);
      assert SustainedFlags(verdicts[..last]) == SustainedFlags(verdicts)[..last];
      assert Refusals(rows[..last], verdicts[..last]) == Refusals(rows, verdicts)[..last];
      SelectLast(Refusals(rows, verdicts), SustainedFlags(verdicts), true);
      assert Refusals(rows, verdicts)[last] == NoticeOf(rows[last], verdicts[last]) by {
        NoticeMeaning(rows[last], verdicts[last]);
      }
    }
  }

  lemma NoticeMeaning(row: Reading, v: Verdict)
    ensures NoticeOf(row, v) == if v.Drop? then Rejection(row.ts, row.kind, v.reason, v.register)
                                else Rejection(row.ts, row.kind, SanityJump, Sustained)
  {
  }

  lemma NoFlagsRaised(rows: seq<Reading>, verdicts: seq<Verdict>)
    requires rows == [] && verdicts == []
    ensures FlagsOf(NoticesOf(rows, verdicts)) == Select(Refusals(rows, verdicts), Positions(SustainedFlags(verdicts), true))
  {
  }

  // ----- The five fates of a page's rows

  ghost function KeptWhere(rows: seq<Reading>, analyzer: nat, kind: Kind, attributable: bool): (idx: seq<nat>)
    ensures Within(rows, idx)
  {
    Select(KeptIndices(rows), Positions(AttributionFlags(KeptRows(rows), analyzer, kind), attributable))
  }

  /** Rows kept by deduplication and attributable. */
  ghost function CandidateIndices(rows: seq<Reading>, analyzer: nat, kind: Kind): (idx: seq<nat>)
    ensures Within(rows, idx)
  {
    KeptWhere(rows, analyzer, kind, true)
  }

  /** Rows kept by deduplication and of another analyzer or kind. */
  ghost function MisattributedIndices(rows: seq<Reading>, analyzer: nat, kind: Kind): (idx: seq<nat>)
    ensures Within(rows, idx)
  {
    KeptWhere(rows, analyzer, kind, false)
  }

  lemma CandidatesAreAtTheirIndices(rows: seq<Reading>, analyzer: nat, kind: Kind)
    ensures Candidates(rows, analyzer, kind) == Select(rows, CandidateIndices(rows, analyzer, kind))
    ensures Misattributed(KeptRows(rows), analyzer, kind)
      == Misattributions(rows, MisattributedIndices(rows, analyzer, kind), analyzer)
  {
    hide Positions;
    var flags := AttributionFlags(KeptRows(rows), analyzer, kind);
    AttributionSelects(KeptRows(rows), analyzer, kind);
  }

  /** Candidates the verdicts keep, or drop. */
  ghost function Judged(rows: seq<Reading>, analyzer: nat, kind: Kind, verdicts: seq<Verdict>, kept: bool): (idx: seq<nat>)
    requires |verdicts| == |CandidateIndices(rows, analyzer, kind)|
    ensures Within(rows, idx)
  {
    Select(CandidateIndices(rows, analyzer, kind), Positions(KeptFlags(verdicts), kept))
  }

  /** Where the rows of a page end up. */
  datatype Fates = Fates(accepted: seq<nat>, conflicting: seq<nat>, misattributed: seq<nat>, invalid: seq<nat>,
                         redundant: set<nat>)

  lemma VerdictsFit(prev: Option<Reading>, streak: Streak, rows: seq<Reading>, analyzer: nat, kind: Kind, ctx: Context)
    ensures |PassOf(prev, streak, rows, analyzer, kind, ctx).verdicts| == |CandidateIndices(rows, analyzer, kind)|
  {
    CandidatesAreAtTheirIndices(rows, analyzer, kind);
  }

  ghost function FatesOf(rows: seq<Reading>, analyzer: nat, kind: Kind, verdicts: seq<Verdict>): (f: Fates)
    requires |verdicts| == |CandidateIndices(rows, analyzer, kind)|
    ensures Within(rows, f.accepted) && Within(rows, f.conflicting) && Within(rows, f.misattributed) && Within(rows, f.invalid)
  {
    Fates(Judged(rows, analyzer, kind, verdicts, true), ConflictIndices(rows), MisattributedIndices(rows, analyzer, kind),
          Judged(rows, analyzer, kind, verdicts, false), RedundantRows(rows))
  }

  ghost function AllFates(f: Fates): set<nat> {
    Elements(f.accepted) + Elements(f.conflicting) + Elements(f.misattributed) + Elements(f.invalid) + f.redundant
  }

  /** No index is listed twice, none under two fates, and every row of the page has one. */
  ghost predicate EachOnce(f: Fates, n: nat) {
    && Increasing(f.accepted) && NoRepeats(f.conflicting) && Increasing(f.misattributed) && Increasing(f.invalid)
    && Elements(f.accepted) !! Elements(f.conflicting) !! Elements(f.misattributed) !! Elements(f.invalid) !! f.redundant
    && forall i :: i in AllFates(f) <==> 0 <= i < n
  }

  lemma FatesPartition(rows: seq<Reading>, analyzer: nat, kind: Kind, verdicts: seq<Verdict>)
    requires |verdicts| == |CandidateIndices(rows, analyzer, kind)|
    ensures EachOnce(FatesOf(rows, analyzer, kind, verdicts), |rows|)
  {
    hide Positions, Elements, KeptIndices, ConflictIndices, RedundantRows;
    hide KeptRows, AttributionFlags, KeptFlags, Increasing, NoRepeats;
    KeptMeaning(rows);
    ConflictMeaning(rows);
    EveryRowHasOneFate(rows, Elements(KeptIndices(rows)), Elements(ConflictIndices(rows)));
    assert |KeptRows(rows)| == |KeptIndices(rows)| by {
      KeptRowsLength(rows);
    }
    SplitPartitions(KeptIndices(rows), AttributionFlags(KeptRows(rows), analyzer, kind));
    SplitPartitions(CandidateIndices(rows, analyzer, kind), KeptFlags(verdicts));
    var f := FatesOf(rows, analyzer, kind, verdicts);
    var candidates := Elements(CandidateIndices(rows, analyzer, kind));
    assert candidates == Elements(f.accepted) + Elements(f.invalid);
    assert Elements(KeptIndices(rows)) == candidates + Elements(f.misattributed);
    assert AllFates(f) == Elements(KeptIndices(rows)) + Elements(f.conflicting) + f.redundant;
  }

  lemma KeptRowsLength(rows: seq<Reading>)
    ensures |KeptRows(rows)| == |KeptIndices(rows)|
  {
  }

  /** Every row of a page is exactly one of accepted, conflicting, misattributed,
      invalid or a redundant copy; the accepted rows and the rejections are those
      of the rows at the respective indices, in order. */
  lemma EveryPageRowHasOneFate(prev: Option<Reading>, streak: Streak, rows: seq<Reading>, analyzer: nat, kind: Kind,
                               ctx: Context)
    ensures var verdicts := PassOf(prev, streak, rows, analyzer, kind, ctx).verdicts;
      && |verdicts| == |CandidateIndices(rows, analyzer, kind)|
      && var f := FatesOf(rows, analyzer, kind, verdicts);
         var dropped := Select(verdicts, Positions(KeptFlags(verdicts), false));
      && EachOnce(f, |rows|)
      && Accepted(prev, streak, rows, analyzer, kind, ctx) == Select(rows, f.accepted)
      && |dropped| == |f.invalid| && (forall v :: v in dropped ==> v.Drop?)
      && Refused(prev, streak, rows, analyzer, kind, ctx)
         == Rejections(rows, f.conflicting) + Misattributions(rows, f.misattributed, analyzer)
          + Refusals(Select(rows, f.invalid), dropped)
  {
    hide Positions, Run, Honest, GenuineOf, NoticesOf, KeptOf, EachOnce, Attributed, Misattributed, KeptIndices, ConflictIndices;
    var verdicts := PassOf(prev, streak, rows, analyzer, kind, ctx).verdicts;
    VerdictsFit(prev, streak, rows, analyzer, kind, ctx);
    FatesPartition(rows, analyzer, kind, verdicts);
    CandidatesAreAtTheirIndices(rows, analyzer, kind);
    ValidationFates(prev, streak, rows, analyzer, kind, ctx, CandidateIndices(rows, analyzer, kind));
    DroppedAreDrops(verdicts);
  }

  lemma DroppedAreDrops(verdicts: seq<Verdict>)
    ensures forall v :: v in Select(verdicts, Positions(KeptFlags(verdicts), false)) ==> v.Drop?
  {
    var at := Positions(KeptFlags(verdicts), false);
    PositionsMeaning(KeptFlags(verdicts), false);
    forall k | 0 <= k < |at| ensures verdicts[at[k]].Drop? {
      assert at[k] in at;
    }
  }

  lemma ValidationFates(prev: Option<Reading>, streak: Streak, rows: seq<Reading>, analyzer: nat, kind: Kind, ctx: Context,
                        idx: seq<nat>)
    requires Within(rows, idx) && Candidates(rows, analyzer, kind) == Select(rows, idx)
    ensures var verdicts := PassOf(prev, streak, rows, analyzer, kind, ctx).verdicts;
      var yes, no := Positions(KeptFlags(verdicts), true), Positions(KeptFlags(verdicts), false);
      && Accepted(prev, streak, rows, analyzer, kind, ctx) == Select(rows, Select(idx, yes))
      && GenuineOf(Notices(prev, streak, rows, analyzer, kind, ctx))
         == Refusals(Select(rows, Select(idx, no)), Select(verdicts, no))
  {
    hide Positions, Run, GenuineOf, NoticesOf, KeptOf, Candidates;
    var candidates := Candidates(rows, analyzer, kind);
    var verdicts := PassOf(prev, streak, rows, analyzer, kind, ctx).verdicts;
    RunIsHonest(Pass(prev, streak, []), candidates, ctx);
    KeptSelects(candidates, verdicts);
    GenuineSelects(candidates, verdicts);
  }
}
