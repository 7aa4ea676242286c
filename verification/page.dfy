/** What one fetched page turns into: deduplicated, attributed, validated and
    sorted into rows to store and rows refused (internal/ingest/fetch.go,
    internal/ingest/report.go). */
module Page {
  import opened Readings
  import opened Deduplication
  import opened Thresholds
  import opened Validation
  import opened ValidationProperties

  // ----- Attribution

  predicate Attributable(r: Reading, analyzer: nat, kind: Kind) {
    r.analyzer == analyzer && (r.kind == kind || r.kind == Reset)
  }

  function Attributed(rows: seq<Reading>, analyzer: nat, kind: Kind): seq<Reading> {
    if rows == [] then []
    else
      Attributed(rows[..|rows| - 1], analyzer, kind) +
      if Attributable(rows[|rows| - 1], analyzer, kind) then [rows[|rows| - 1]] else []
  }

  function Misattributed(rows: seq<Reading>, analyzer: nat, kind: Kind): seq<Rejection> {
    if rows == [] then []
    else
      var r := rows[|rows| - 1];
      Misattributed(rows[..|rows| - 1], analyzer, kind) +
      if r.analyzer != analyzer then [Reject(r, WrongAnalyzer, NoRegister)]
      else if r.kind != kind && r.kind != Reset then [Reject(r, WrongKind, NoRegister)]
      else []
  }

  method FilterAttribution(rows: seq<Reading>, analyzer: nat, kind: Kind)
    returns (kept: seq<Reading>, rejected: seq<Rejection>)
    ensures kept == Attributed(rows, analyzer, kind)
    ensures rejected == Misattributed(rows, analyzer, kind)
  {
    kept, rejected := [], [];
    for i := 0 to |rows|
      invariant kept == Attributed(rows[..i], analyzer, kind)
      invariant rejected == Misattributed(rows[..i], analyzer, kind)
    {
      var r := rows[i];
      assert rows[..i + 1][..i] == rows[..i];
      if r.analyzer != analyzer {
        rejected := rejected + [Reject(r, WrongAnalyzer, NoRegister)];
      } else if r.kind != kind && r.kind != Reset {
        rejected := rejected + [Reject(r, WrongKind, NoRegister)];
      } else {
        kept := kept + [r];
      }
    }
    assert rows[..|rows|] == rows;
  }

  ghost predicate AllAttributable(rows: seq<Reading>, analyzer: nat, kind: Kind) {
    forall i :: 0 <= i < |rows| ==> Attributable(rows[i], analyzer, kind)
  }

  lemma {:induction false} AttributionPartitions(rows: seq<Reading>, analyzer: nat, kind: Kind)
    ensures |Attributed(rows, analyzer, kind)| + |Misattributed(rows, analyzer, kind)| == |rows|
    ensures AllAttributable(Attributed(rows, analyzer, kind), analyzer, kind)
    ensures forall r :: r in Attributed(rows, analyzer, kind) <==> r in rows && Attributable(r, analyzer, kind)
  {
    if rows != [] {
      AttributionPartitions(rows[..|rows| - 1], analyzer, kind);
      assert rows == rows[..|rows| - 1] + [rows[|rows| - 1]];
    }
  }

  lemma {:induction false} AttributableUnchanged(rows: seq<Reading>, analyzer: nat, kind: Kind)
    requires AllAttributable(rows, analyzer, kind)
    ensures Attributed(rows, analyzer, kind) == rows && Misattributed(rows, analyzer, kind) == []
  {
    if rows != [] {
      AttributableUnchanged(rows[..|rows| - 1], analyzer, kind);
    }
  }

  // ----- Sanity flags

  predicate IsFlag(r: Rejection) {
    r.reason == SanityJump && r.register == Sustained
  }

  function FlagsOf(rejected: seq<Rejection>): seq<Rejection> {
    if rejected == [] then []
    else
      FlagsOf(rejected[..|rejected| - 1]) +
      if IsFlag(rejected[|rejected| - 1]) then [rejected[|rejected| - 1]] else []
  }

  function GenuineOf(rejected: seq<Rejection>): seq<Rejection> {
    if rejected == [] then []
    else
      GenuineOf(rejected[..|rejected| - 1]) +
      if IsFlag(rejected[|rejected| - 1]) then [] else [rejected[|rejected| - 1]]
  }

  method PartitionSanityFlags(rejected: seq<Rejection>) returns (genuine: seq<Rejection>, flags: seq<Rejection>)
    ensures genuine == GenuineOf(rejected) && flags == FlagsOf(rejected)
  {
    genuine, flags := [], [];
    for i := 0 to |rejected|
      invariant genuine == GenuineOf(rejected[..i]) && flags == FlagsOf(rejected[..i])
    {
      assert rejected[..i + 1][..i] == rejected[..i];
      if rejected[i].reason == SanityJump && rejected[i].register == Sustained {
        flags := flags + [rejected[i]];
        continue;
      }
      genuine := genuine + [rejected[i]];
    }
    assert rejected[..|rejected|] == rejected;
  }

  lemma AppendNotice(rejected: seq<Rejection>, r: Rejection)
    ensures GenuineOf(rejected + [r]) == GenuineOf(rejected) + if IsFlag(r) then [] else [r]
    ensures FlagsOf(rejected + [r]) == FlagsOf(rejected) + if IsFlag(r) then [r] else []
  {
    assert (rejected + [r])[..|rejected|] == rejected;
  }

  /** No check but the streak names a register "sustained". */
  ghost predicate Honest(verdicts: seq<Verdict>) {
    forall i :: 0 <= i < |verdicts| && verdicts[i].Drop? ==> verdicts[i].register != Sustained
  }

  lemma {:induction false} RunIsHonest(p: Pass, rows: seq<Reading>, ctx: Context)
    requires Honest(p.verdicts)
    ensures Honest(Run(p, rows, ctx).verdicts)
  {
    if rows != [] {
      RunIsHonest(p, rows[..|rows| - 1], ctx);
    }
  }

  function CountSustained(verdicts: seq<Verdict>): nat {
    if verdicts == [] then 0
    else CountSustained(verdicts[..|verdicts| - 1]) + if verdicts[|verdicts| - 1].KeepSustained? then 1 else 0
  }

  function NoticeOf(row: Reading, v: Verdict): Rejection {
    match v
    case Drop(reason, register) => Reject(row, reason, register)
    case _ => Reject(row, SanityJump, Sustained)
  }

  lemma NoticesOfLast(rows: seq<Reading>, verdicts: seq<Verdict>)
    requires |rows| == |verdicts| && rows != []
    ensures var last := |rows| - 1;
      var before := NoticesOf(rows[..last], verdicts[..last]);
      NoticesOf(rows, verdicts)
        == if verdicts[last].Keep? then before else before + [NoticeOf(rows[last], verdicts[last])]
  {
  }

  lemma KeptOfLast(rows: seq<Reading>, verdicts: seq<Verdict>)
    requires |rows| == |verdicts| && rows != []
    ensures var last := |rows| - 1;
      |KeptOf(rows, verdicts)| == |KeptOf(rows[..last], verdicts[..last])| + if verdicts[last].Drop? then 0 else 1
  {
  }

  /** Kept rows and genuine rejections add up to the validated rows; there are as
      many flags as sustained verdicts. */
  lemma {:induction false} NoticesPartition(rows: seq<Reading>, verdicts: seq<Verdict>)
    requires |rows| == |verdicts| && Honest(verdicts)
    ensures |KeptOf(rows, verdicts)| + |GenuineOf(NoticesOf(rows, verdicts))| == |rows|
    ensures |FlagsOf(NoticesOf(rows, verdicts))| == CountSustained(verdicts)
  {
    if rows != [] {
      var last := |rows| - 1;
      NoticesPartition(rows[..last], verdicts[..last]);
      KeptOfLast(rows, verdicts);
      NoticesOfLast(rows, verdicts);
      var before := NoticesOf(rows[..last], verdicts[..last]);
      var v := verdicts[last];
      if v.Keep? {
        assert NoticesOf(rows, verdicts) == before;
      } else {
        AppendNotice(before, NoticeOf(rows[last], v));
        assert IsFlag(NoticeOf(rows[last], v)) <==> v.KeepSustained?;
      }
    }
  }

  // ----- Rows of one kind

  function OfKind(rows: seq<Reading>, kind: Kind): (s: seq<Reading>) {
    if rows == [] then []
    else
      OfKind(rows[..|rows| - 1], kind) +
      if rows[|rows| - 1].kind == kind then [rows[|rows| - 1]] else []
  }

  method ReadingsOfKind(rows: seq<Reading>, kind: Kind) returns (out: seq<Reading>)
    ensures out == OfKind(rows, kind)
  {
    out := [];
    for i := 0 to |rows|
      invariant out == OfKind(rows[..i], kind)
    {
      assert rows[..i + 1][..i] == rows[..i];
      if rows[i].kind == kind {
        out := out + [rows[i]];
      }
    }
    assert rows[..|rows|] == rows;
  }

  lemma {:induction false} OfKindMembers(rows: seq<Reading>, kind: Kind)
    ensures forall r :: r in OfKind(rows, kind) <==> r in rows && r.kind == kind
  {
    if rows != [] {
      OfKindMembers(rows[..|rows| - 1], kind);
      assert rows == rows[..|rows| - 1] + [rows[|rows| - 1]];
    }
  }

  lemma {:induction false} OfKindUnchanged(rows: seq<Reading>, kind: Kind)
    requires forall i :: 0 <= i < |rows| ==> rows[i].kind == kind
    ensures OfKind(rows, kind) == rows
  {
    if rows != [] {
      OfKindUnchanged(rows[..|rows| - 1], kind);
    }
  }

  function EarliestTs(rows: seq<Reading>): int
    requires rows != []
  {
    if |rows| == 1 then rows[0].ts else Min(EarliestTs(rows[..|rows| - 1]), rows[|rows| - 1].ts)
  }

  function LatestTs(rows: seq<Reading>): int
    requires rows != []
  {
    if |rows| == 1 then rows[0].ts else Max(LatestTs(rows[..|rows| - 1]), rows[|rows| - 1].ts)
  }

  /** The earliest and latest timestamps bound every row and are both taken. */
  lemma {:induction false} TsBoundsMeaning(rows: seq<Reading>)
    requires rows != []
    ensures forall i :: 0 <= i < |rows| ==> EarliestTs(rows) <= rows[i].ts <= LatestTs(rows)
    ensures exists i :: 0 <= i < |rows| && rows[i].ts == EarliestTs(rows)
    ensures exists i :: 0 <= i < |rows| && rows[i].ts == LatestTs(rows)
  {
    var front, last := rows[..|rows| - 1], rows[|rows| - 1];
    if |rows| == 1 {
      assert rows[0].ts == EarliestTs(rows) == LatestTs(rows);
    } else {
      TsBoundsMeaning(front);
      var lo :| 0 <= lo < |front| && front[lo].ts == EarliestTs(front);
      var hi :| 0 <= hi < |front| && front[hi].ts == LatestTs(front);
      assert rows[lo].ts == EarliestTs(front) && rows[hi].ts == LatestTs(front) && rows[|rows| - 1] == last;
    }
  }

  method ReadingTsBounds(rows: seq<Reading>) returns (min: int, max: int)
    requires rows != []
    ensures min == EarliestTs(rows) && max == LatestTs(rows)
  {
    min, max := rows[0].ts, rows[0].ts;
    assert rows[..1] == [rows[0]];
    for i := 1 to |rows|
      invariant min == EarliestTs(rows[..i]) && max == LatestTs(rows[..i])
    {
      assert rows[..i + 1][..i] == rows[..i];
      if rows[i].ts < min {
        min := rows[i].ts;
      }
      if rows[i].ts > max {
        max := rows[i].ts;
      }
    }
    assert rows[..|rows|] == rows;
  }

  // ----- The page pipeline

  /** The rows that reach validation. */
  ghost function Candidates(rows: seq<Reading>, analyzer: nat, kind: Kind): seq<Reading> {
    Attributed(KeptRows(rows), analyzer, kind)
  }

  ghost function PassOf(prev: Option<Reading>, streak: Streak, rows: seq<Reading>, analyzer: nat, kind: Kind,
                        ctx: Context): (p: Pass)
    ensures |p.verdicts| == |Candidates(rows, analyzer, kind)|
  {
    Run(Pass(prev, streak, []), Candidates(rows, analyzer, kind), ctx)
  }

  ghost function Accepted(prev: Option<Reading>, streak: Streak, rows: seq<Reading>, analyzer: nat, kind: Kind,
                          ctx: Context): seq<Reading> {
    KeptOf(Candidates(rows, analyzer, kind), PassOf(prev, streak, rows, analyzer, kind, ctx).verdicts)
  }

  ghost function Notices(prev: Option<Reading>, streak: Streak, rows: seq<Reading>, analyzer: nat, kind: Kind,
                         ctx: Context): seq<Rejection> {
    NoticesOf(Candidates(rows, analyzer, kind), PassOf(prev, streak, rows, analyzer, kind, ctx).verdicts)
  }

  ghost function Refused(prev: Option<Reading>, streak: Streak, rows: seq<Reading>, analyzer: nat, kind: Kind,
                         ctx: Context): seq<Rejection> {
    ConflictRejections(rows) + Misattributed(KeptRows(rows), analyzer, kind)
    + GenuineOf(Notices(prev, streak, rows, analyzer, kind, ctx))
  }

  method CheckPage(prev: Option<Reading>, history: seq<Reading>, rows: seq<Reading>, analyzer: nat, kind: Kind,
                   now: int, options: Options, streak: SanityStreak)
    returns (valid: seq<Reading>, refused: seq<Rejection>, flags: seq<Rejection>)
    modifies streak
    ensures var ctx := Context(ThresholdsOf(history), now, options);
      && valid == Accepted(prev, old(streak.Value()), rows, analyzer, kind, ctx)
      && refused == Refused(prev, old(streak.Value()), rows, analyzer, kind, ctx)
      && flags == FlagsOf(Notices(prev, old(streak.Value()), rows, analyzer, kind, ctx))
      && streak.Value() == PassOf(prev, old(streak.Value()), rows, analyzer, kind, ctx).streak
  {
    var kept, dedupeRejected := Dedupe(rows);
    var attributed, attributionRejected := FilterAttribution(kept, analyzer, kind);
    var validateRejected;
    valid, validateRejected := Validate(prev, history, attributed, now, options, streak);
    var realRejected;
    realRejected, flags := PartitionSanityFlags(validateRejected);
    refused := dedupeRejected + attributionRejected + realRejected;
  }

  // ----- What a batch holds and where every row goes

  /** A batch the database can take as it is. */
  ghost predicate GoodBatch(batch: seq<Reading>, analyzer: nat, kind: Kind, now: int, options: Options) {
    && DistinctKeys(batch)
    && AllAttributable(batch, analyzer, kind)
    && forall r :: r in batch ==> CleanRow(r, now, options)
  }

  lemma {:induction false} DistinctAfterAttribution(rows: seq<Reading>, analyzer: nat, kind: Kind)
    requires DistinctKeys(rows)
    ensures DistinctKeys(Attributed(rows, analyzer, kind))
  {
    if rows != [] {
      var front, last := rows[..|rows| - 1], rows[|rows| - 1];
      DistinctAfterAttribution(front, analyzer, kind);
      AttributionPartitions(front, analyzer, kind);
      var kept := Attributed(front, analyzer, kind);
      forall i | 0 <= i < |kept| ensures KeyOf(kept[i]) != KeyOf(last) {
        assert kept[i] in front;
      }
    }
  }

  lemma {:induction false} DistinctAfterValidation(rows: seq<Reading>, verdicts: seq<Verdict>)
    requires |rows| == |verdicts| && DistinctKeys(rows)
    ensures DistinctKeys(KeptOf(rows, verdicts))
    ensures forall r :: r in KeptOf(rows, verdicts) ==> r in rows
  {
    if rows != [] {
      var last := |rows| - 1;
      var front, kept := rows[..last], KeptOf(rows[..last], verdicts[..last]);
      DistinctAfterValidation(front, verdicts[..last]);
      assert DistinctKeys(kept + [rows[last]]) by {
        forall i | 0 <= i < |kept| ensures KeyOf(kept[i]) != KeyOf(rows[last]) {
          assert kept[i] in front;
        }
      }
      assert rows == front + [rows[last]];
    }
  }

  /** Every accepted page is a good batch made of the page's own rows. */
  lemma AcceptedIsGood(prev: Option<Reading>, streak: Streak, rows: seq<Reading>, analyzer: nat, kind: Kind, ctx: Context)
    ensures GoodBatch(Accepted(prev, streak, rows, analyzer, kind, ctx), analyzer, kind, ctx.now, ctx.options)
    ensures forall r :: r in Accepted(prev, streak, rows, analyzer, kind, ctx) ==> r in rows
  {
    var candidates := Candidates(rows, analyzer, kind);
    KeptKeysDistinct(rows);
    DistinctAfterAttribution(KeptRows(rows), analyzer, kind);
    AttributionPartitions(KeptRows(rows), analyzer, kind);
    DistinctAfterValidation(candidates, PassOf(prev, streak, rows, analyzer, kind, ctx).verdicts);
    KeptAreClean(Pass(prev, streak, []), candidates, ctx);
  }

  /** Accepted rows, rejections and redundant copies add up to the page. */
  lemma PagePartitions(prev: Option<Reading>, streak: Streak, rows: seq<Reading>, analyzer: nat, kind: Kind, ctx: Context)
    ensures |Accepted(prev, streak, rows, analyzer, kind, ctx)|
      + |Refused(prev, streak, rows, analyzer, kind, ctx)|
      + |RedundantRows(rows)| == |rows|
  {
    DedupePartitions(rows);
    AttributionPartitions(KeptRows(rows), analyzer, kind);
    RunIsHonest(Pass(prev, streak, []), Candidates(rows, analyzer, kind), ctx);
    NoticesPartition(Candidates(rows, analyzer, kind), PassOf(prev, streak, rows, analyzer, kind, ctx).verdicts);
  }
}
