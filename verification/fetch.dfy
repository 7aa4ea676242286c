/** One run of FetchReadings (internal/ingest/fetch.go): the window, the chunks,
    the pages, and every point where the run can fail. */
module Fetch {
  import opened Readings
  import opened Thresholds
  import opened Validation
  import opened ValidationProperties
  import opened Page
  import opened Paging
  import opened NegativeDeltas
  import opened Anomalies
  import opened RunLog

  // ----- What surrounds a run

  /** The calls of one page that can fail. */
  datatype Call =
    | LatestRead | HistoryRead | AdapterFetch | BulkInsertCall | HookCall | ResetRead
    | AnomalyRead(delta: NegativeDelta) | AnomalyCreate(delta: NegativeDelta)
    | RecordSuccessCall | TouchCall | HourlyCall

  /** What ends a run early. */
  datatype FetchError =
    | CallFailed(n: nat, call: Call)
    | InvalidRange(delta: NegativeDelta)
    | BadNextCursor(n: nat, req: Window)
    | TooManyPages(n: nat)

  datatype Reply = Reply(rows: seq<Reading>, next: Option<int>)

  /** Everything the run is told, page by page: adapter replies, store reads,
      failures, new ids, and where a chunk starting at an instant ends. */
  datatype World = World(
    fetch: (nat, Window) -> Reply,
    latest: nat -> Option<Reading>,
    history: nat -> seq<Reading>,
    resets: nat -> seq<Reading>,
    fails: (nat, Call) -> bool,
    newId: (nat, NegativeDelta) -> nat,
    boundary: int -> int)

  function PageEnd(req: Window, reply: Reply): int {
    if reply.next.Some? then reply.next.value else req.to
  }

  /** The adapter's rows lie in [req.from, next page or req.to); a row whose
      timestamp could not be parsed carries none. */
  ghost predicate AdapterKeepsWindow(w: World) {
    forall n, req, i :: 0 <= i < |w.fetch(n, req).rows| && w.fetch(n, req).rows[i].ts != 0 ==>
      In(w.fetch(n, req).rows[i].ts, Window(req.from, PageEnd(req, w.fetch(n, req))))
  }

  /** What one run is asked to do. */
  datatype Plan = Plan(analyzer: nat, kind: Kind, explicit: Option<Window>, now: int, options: Options,
                       initialLookback: int, maxPages: nat, hasEnqueuer: bool, refreshEnabled: bool)

  /** The shared tables as far as one analyzer and kind are concerned. */
  class Store {
    var readings: map<Key, Reading>
    var cursor: Option<int>
    var lastReadingAt: Option<int>
    var anomalies: seq<Anomaly>
  }

  /** The running counts of one run. */
  class Accumulator {
    var processed: nat
    var skipped: nat
    var anomaliesCreated: nat
    var affectedFrom: Option<int>
    var affectedTo: Option<int>
    var hasLoadProfile: bool

    constructor ()
      ensures processed == skipped == anomaliesCreated == 0
      ensures affectedFrom == None && affectedTo == None && !hasLoadProfile
    {
      processed, skipped, anomaliesCreated := 0, 0, 0;
      affectedFrom, affectedTo, hasLoadProfile := None, None, false;
    }

    method TouchAffected(from: int, to: int)
      modifies this`affectedFrom, this`affectedTo
      ensures affectedFrom == Some(if old(affectedFrom).None? then from else Min(from, old(affectedFrom).value))
      ensures affectedTo == Some(if old(affectedTo).None? then to else Max(to, old(affectedTo).value))
    {
      if affectedFrom.None? || from < affectedFrom.value {
        affectedFrom := Some(from);
      }
      if affectedTo.None? || to > affectedTo.value {
        affectedTo := Some(to);
      }
    }
  }

  // ----- What a run leaves behind

  /** `stored`: the batches handed to the database, in order; `hooked`: those
      whose hooks also succeeded. */
  datatype Trail = Trail(log: seq<Event>, stored: seq<seq<Reading>>, hooked: seq<seq<Reading>>, verdicts: seq<Verdict>)

  function Upserted(table: map<Key, Reading>, batch: seq<Reading>): map<Key, Reading> {
    if batch == [] then table
    else
      var last := batch[|batch| - 1];
      Upserted(table, batch[..|batch| - 1])[KeyOf(last) := last]
  }

  function UpsertedAll(table: map<Key, Reading>, batches: seq<seq<Reading>>): map<Key, Reading> {
    if batches == [] then table
    else Upserted(UpsertedAll(table, batches[..|batches| - 1]), batches[|batches| - 1])
  }

  lemma {:induction false} OtherKeysKept(table: map<Key, Reading>, batch: seq<Reading>, k: Key)
    requires forall i :: 0 <= i < |batch| ==> KeyOf(batch[i]) != k
    ensures k in Upserted(table, batch) <==> k in table
    ensures k in table ==> Upserted(table, batch)[k] == table[k]
  {
    if batch != [] {
      OtherKeysKept(table, batch[..|batch| - 1], k);
    }
  }

  lemma {:induction false} OwnKeysWritten(table: map<Key, Reading>, batch: seq<Reading>, i: nat)
    requires DistinctKeys(batch) && i < |batch|
    ensures KeyOf(batch[i]) in Upserted(table, batch) && Upserted(table, batch)[KeyOf(batch[i])] == batch[i]
  {
    if i < |batch| - 1 {
      OwnKeysWritten(table, batch[..|batch| - 1], i);
      assert KeyOf(batch[i]) != KeyOf(batch[|batch| - 1]);
    }
  }

  /** A batch of distinct keys: each of its rows is stored under its key, and every
      other key is as it was. */
  lemma UpsertedHolds(table: map<Key, Reading>, batch: seq<Reading>)
    requires DistinctKeys(batch)
    ensures var t := Upserted(table, batch);
      && (forall i :: 0 <= i < |batch| ==> KeyOf(batch[i]) in t && t[KeyOf(batch[i])] == batch[i])
      && (forall k :: (forall i :: 0 <= i < |batch| ==> KeyOf(batch[i]) != k) ==>
           (k in t <==> k in table) && (k in t ==> t[k] == table[k]))
  {
    hide Upserted;
    forall i | 0 <= i < |batch|
      ensures KeyOf(batch[i]) in Upserted(table, batch) && Upserted(table, batch)[KeyOf(batch[i])] == batch[i]
    {
      OwnKeysWritten(table, batch, i);
    }
    forall k | forall i :: 0 <= i < |batch| ==> KeyOf(batch[i]) != k
      ensures k in Upserted(table, batch) <==> k in table
      ensures k in table ==> Upserted(table, batch)[k] == table[k]
    {
      OtherKeysKept(table, batch, k);
    }
  }

  /** Row i of batch b is the last stored under its key. */
  ghost predicate LastUnderItsKey(batches: seq<seq<Reading>>, b: int, i: int) {
    && 0 <= b < |batches| && 0 <= i < |batches[b]|
    && forall c, j :: b < c < |batches| && 0 <= j < |batches[c]| ==> KeyOf(batches[c][j]) != KeyOf(batches[b][i])
  }

  /** The table holds the last row stored under each key, what it held under every
      other, and nothing else. */
  ghost predicate HoldsStored(before: map<Key, Reading>, after: map<Key, Reading>, batches: seq<seq<Reading>>) {
    && (forall b, i :: LastUnderItsKey(batches, b, i) ==>
         KeyOf(batches[b][i]) in after && after[KeyOf(batches[b][i])] == batches[b][i])
    && (forall k :: k in after ==>
         (k in before && after[k] == before[k])
         || exists b, i :: LastUnderItsKey(batches, b, i) && KeyOf(batches[b][i]) == k && batches[b][i] == after[k])
    && (forall k :: k in before ==> k in after)
  }

  lemma LastOfMore(front: seq<seq<Reading>>, batch: seq<Reading>, b: int, i: int)
    ensures LastUnderItsKey(front + [batch], b, i) <==>
      if b == |front| then 0 <= i < |batch|
      else LastUnderItsKey(front, b, i) && forall j :: 0 <= j < |batch| ==> KeyOf(batch[j]) != KeyOf(front[b][i])
  {
    var batches := front + [batch];
    if 0 <= b < |front| && LastUnderItsKey(batches, b, i) {
      assert batches[|front|] == batch;
      forall c, j | b < c < |front| && 0 <= j < |front[c]| ensures KeyOf(front[c][j]) != KeyOf(front[b][i]) {
        assert batches[c] == front[c];
      }
    }
  }

  lemma OneMoreHeld(before: map<Key, Reading>, table: map<Key, Reading>, front: seq<seq<Reading>>, batch: seq<Reading>)
    requires HoldsStored(before, table, front) && DistinctKeys(batch)
    ensures HoldsStored(before, Upserted(table, batch), front + [batch])
  {
    hide Upserted, LastUnderItsKey, DistinctKeys;
    var batches, after := front + [batch], Upserted(table, batch);
    UpsertedHolds(table, batch);
    forall b, i | LastUnderItsKey(batches, b, i)
      ensures 0 <= b < |batches| && 0 <= i < |batches[b]|
      ensures KeyOf(batches[b][i]) in after && after[KeyOf(batches[b][i])] == batches[b][i]
    {
      LastOfMore(front, batch, b, i);
      InBounds(batches, b, i);
    }
    forall k | k in after
      ensures (k in before && after[k] == before[k])
        || exists b, i :: LastUnderItsKey(batches, b, i) && KeyOf(batches[b][i]) == k && batches[b][i] == after[k]
    {
      HeldFrom(before, table, front, batch, k);
    }
  }

  lemma InBounds(batches: seq<seq<Reading>>, b: int, i: int)
    requires LastUnderItsKey(batches, b, i)
    ensures 0 <= b < |batches| && 0 <= i < |batches[b]|
  {
  }

  lemma HeldFrom(before: map<Key, Reading>, table: map<Key, Reading>, front: seq<seq<Reading>>, batch: seq<Reading>, k: Key)
    requires HoldsStored(before, table, front) && DistinctKeys(batch) && k in Upserted(table, batch)
    ensures var batches, after := front + [batch], Upserted(table, batch);
      (k in before && after[k] == before[k])
      || exists b, i :: LastUnderItsKey(batches, b, i) && KeyOf(batches[b][i]) == k && batches[b][i] == after[k]
  {
    hide Upserted, DistinctKeys;
    var batches, after := front + [batch], Upserted(table, batch);
    UpsertedHolds(table, batch);
    if j :| 0 <= j < |batch| && KeyOf(batch[j]) == k {
      LastOfMore(front, batch, |front|, j);
      assert LastUnderItsKey(batches, |front|, j) && batches[|front|][j] == batch[j];
    } else if !(k in before && table[k] == before[k]) {
      var b, i :| LastUnderItsKey(front, b, i) && KeyOf(front[b][i]) == k && front[b][i] == table[k];
      LastOfMore(front, batch, b, i);
      assert batches[b][i] == front[b][i];
    }
  }

  /** Every row a run stored is in the table under its key, unless a later one replaced
      it, and the table holds nothing but these rows and what it held before. */
  lemma {:induction false} TableHoldsStored(table: map<Key, Reading>, batches: seq<seq<Reading>>, plan: Plan)
    requires AllGood(batches, plan)
    ensures HoldsStored(table, UpsertedAll(table, batches), batches)
  {
    if batches != [] {
      hide HoldsStored, Upserted;
      TableHoldsStored(table, batches[..|batches| - 1], plan);
      OneMoreHeld(table, UpsertedAll(table, batches[..|batches| - 1]), batches[..|batches| - 1], batches[|batches| - 1]);
      assert batches[..|batches| - 1] + [batches[|batches| - 1]] == batches;
    } else {
      NothingHeld(table);
    }
  }

  lemma NothingHeld(table: map<Key, Reading>)
    ensures HoldsStored(table, table, [])
  {
  }

  function RowCount(batches: seq<seq<Reading>>): nat {
    if batches == [] then 0 else RowCount(batches[..|batches| - 1]) + |batches[|batches| - 1]|
  }

  lemma {:induction false} RowCountCountsRows(batches: seq<seq<Reading>>)
    ensures RowCount(batches) == |Flatten(batches)|
  {
    if batches != [] {
      RowCountCountsRows(batches[..|batches| - 1]);
    }
  }

  /** Every batch is non-empty and fit for the table. */
  ghost predicate AllGood(batches: seq<seq<Reading>>, plan: Plan) {
    batches == [] ||
    (AllGood(batches[..|batches| - 1], plan) && batches[|batches| - 1] != []
     && GoodBatch(batches[|batches| - 1], plan.analyzer, plan.kind, plan.now, plan.options))
  }

  /** The least and greatest timestamps of all batches. */
  function FromOf(batches: seq<seq<Reading>>): Option<int> {
    if batches == [] then None
    else
      var before, last := FromOf(batches[..|batches| - 1]), batches[|batches| - 1];
      if last == [] then before
      else Some(if before.None? then EarliestTs(last) else Min(EarliestTs(last), before.value))
  }

  function ToOf(batches: seq<seq<Reading>>): Option<int> {
    if batches == [] then None
    else
      var before, last := ToOf(batches[..|batches| - 1]), batches[|batches| - 1];
      if last == [] then before
      else Some(if before.None? then LatestTs(last) else Max(LatestTs(last), before.value))
  }

  predicate HasKind(batches: seq<seq<Reading>>, kind: Kind) {
    batches != [] && (HasKind(batches[..|batches| - 1], kind) || OfKind(batches[|batches| - 1], kind) != [])
  }

  ghost predicate StoredOf(base: Base, store: Store, trail: Trail)
    reads store`readings, store`cursor
  {
    && store.readings == UpsertedAll(base.readings, trail.stored)
    && CursorOk(base, store.cursor, trail.log)
  }

  ghost predicate CountsOf(acc: Accumulator, plan: Plan, trail: Trail)
    reads acc`processed, acc`affectedFrom, acc`affectedTo, acc`hasLoadProfile
  {
    CountsMatch(acc.processed, acc.affectedFrom, acc.affectedTo, acc.hasLoadProfile, plan.kind, trail.stored, trail.hooked)
  }

  ghost predicate CountsMatch(processed: nat, affectedFrom: Option<int>, affectedTo: Option<int>, hasLoadProfile: bool,
                              kind: Kind, stored: seq<seq<Reading>>, hooked: seq<seq<Reading>>) {
    && processed == RowCount(stored)
    && affectedFrom == FromOf(stored) && affectedTo == ToOf(stored)
    && (hasLoadProfile <==> kind == LoadProfile && HasKind(hooked, kind))
  }

  ghost predicate TrailOk(plan: Plan, streak: Streak, trail: Trail) {
    && AllGood(trail.stored, plan)
    && Obeys(FRESH, trail.verdicts) && After(FRESH, trail.verdicts) == streak
    && HooksServed(trail)
  }

  /** The hooked batches are exactly those of the pages the log served, and each
      was stored. */
  ghost predicate HooksServed(trail: Trail) {
    trail.hooked == BatchesOf(trail.log) && forall i :: 0 <= i < |trail.hooked| ==> trail.hooked[i] in trail.stored
  }

  /** The state a run started from. */
  datatype Base = Base(readings: map<Key, Reading>, cursor: Option<int>, last: Option<int>, start: Progress)

  /** What holds at every point of a run, wherever it fails. */
  ghost predicate RunInv(store: Store, acc: Accumulator, streak: SanityStreak, plan: Plan, base: Base, trail: Trail)
    reads store, acc, streak
  {
    && StoredOf(base, store, trail)
    && CountsOf(acc, plan, trail)
    && TrailOk(plan, streak.Value(), trail)
  }

  // ----- The refresh a run asks for

  const REFRESH_THRESHOLD: int := 29 * DAY

  predicate ShouldEnqueueConsumptionRefresh(hasEnqueuer: bool, enabled: bool, hasLoadProfile: bool,
                                            affectedFrom: Option<int>, now: int) {
    if !hasEnqueuer || !enabled || !hasLoadProfile || affectedFrom.None? then false
    else affectedFrom.value < now - REFRESH_THRESHOLD
  }

  /** The affected range with an exclusive end. */
  function RefreshRangeFor(affectedFrom: int, affectedTo: int): Window {
    Window(affectedFrom, affectedTo + MICROSECOND)
  }

  ghost predicate StoresBefore(batches: seq<seq<Reading>>, t: int) {
    exists b, i :: 0 <= b < |batches| && 0 <= i < |batches[b]| && batches[b][i].ts < t
  }

  /** A run asks for a refresh iff the seam is on, a page with load-profile rows
      passed its hooks, and some stored row is older than the threshold. */
  ghost predicate AsksForRefresh(plan: Plan, trail: Trail) {
    && plan.hasEnqueuer && plan.refreshEnabled
    && plan.kind == LoadProfile && HasKind(trail.hooked, plan.kind)
    && StoresBefore(trail.stored, plan.now - REFRESH_THRESHOLD)
  }

  lemma {:induction false} HasKindMeaning(batches: seq<seq<Reading>>, kind: Kind)
    ensures HasKind(batches, kind) <==>
      exists b, i :: 0 <= b < |batches| && 0 <= i < |batches[b]| && batches[b][i].kind == kind
  {
    if batches != [] {
      var front, last := batches[..|batches| - 1], batches[|batches| - 1];
      HasKindMeaning(front, kind);
      OfKindMembers(last, kind);
      if HasKind(front, kind) {
        var b, i :| 0 <= b < |front| && 0 <= i < |front[b]| && front[b][i].kind == kind;
        assert batches[b][i].kind == kind;
      }
      if OfKind(last, kind) != [] {
        var r := OfKind(last, kind)[0];
        assert r in OfKind(last, kind);
        var i :| 0 <= i < |last| && last[i] == r;
        assert batches[|front|][i].kind == kind;
      }
      if b, i :| 0 <= b < |batches| && 0 <= i < |batches[b]| && batches[b][i].kind == kind {
        if b < |front| {
          assert front[b][i].kind == kind;
        } else {
          assert last[i] in OfKind(last, kind);
        }
      }
    }
  }

  lemma {:induction false} BatchIsGood(batches: seq<seq<Reading>>, plan: Plan, b: nat)
    requires AllGood(batches, plan) && b < |batches|
    ensures GoodBatch(batches[b], plan.analyzer, plan.kind, plan.now, plan.options)
  {
    if b < |batches| - 1 {
      BatchIsGood(batches[..|batches| - 1], plan, b);
    }
  }

  /** A stored load-profile row older than the threshold gets no refresh exactly
      when no load-profile row of the run passed its hooks, with the seam on. */
  lemma OldRowMissesItsRefreshIff(plan: Plan, trail: Trail, b: nat, i: nat)
    requires AllGood(trail.stored, plan) && plan.hasEnqueuer && plan.refreshEnabled
    requires b < |trail.stored| && i < |trail.stored[b]|
    requires trail.stored[b][i].kind == LoadProfile && trail.stored[b][i].ts < plan.now - REFRESH_THRESHOLD
    ensures !AsksForRefresh(plan, trail) <==>
      forall c, j :: 0 <= c < |trail.hooked| && 0 <= j < |trail.hooked[c]| ==> trail.hooked[c][j].kind != LoadProfile
  {
    BatchIsGood(trail.stored, plan, b);
    assert Attributable(trail.stored[b][i], plan.analyzer, plan.kind);
    HasKindMeaning(trail.hooked, plan.kind);
  }

  ghost predicate CoversStored(w: Window, batches: seq<seq<Reading>>) {
    forall b, i :: 0 <= b < |batches| && 0 <= i < |batches[b]| ==> In(batches[b][i].ts, w)
  }

  /** In terms of the rows: the seam is wired and enabled, a row of the load profile
      passed its hooks, and a row older than 29 days was stored. */
  lemma AsksForRefreshIff(plan: Plan, trail: Trail)
    ensures AsksForRefresh(plan, trail) <==>
      && plan.hasEnqueuer && plan.refreshEnabled && plan.kind == LoadProfile
      && (exists b, i :: 0 <= b < |trail.hooked| && 0 <= i < |trail.hooked[b]| && trail.hooked[b][i].kind == LoadProfile)
      && (exists b, i :: 0 <= b < |trail.stored| && 0 <= i < |trail.stored[b]| && trail.stored[b][i].ts < plan.now - 29 * DAY)
  {
    HasKindMeaning(trail.hooked, LoadProfile);
  }

  ghost predicate AllBetween(batches: seq<seq<Reading>>, lo: int, hi: int) {
    forall b, i :: 0 <= b < |batches| && 0 <= i < |batches[b]| ==> lo <= batches[b][i].ts <= hi
  }

  ghost predicate Takes(batches: seq<seq<Reading>>, t: int) {
    exists b, i :: 0 <= b < |batches| && 0 <= i < |batches[b]| && batches[b][i].ts == t
  }

  /** The range starts at the first stored instant and ends a microsecond past the last. */
  ghost predicate SpansStored(w: Window, batches: seq<seq<Reading>>) {
    AllBetween(batches, w.from, w.to - 1_000) && Takes(batches, w.from) && Takes(batches, w.to - 1_000)
  }

  lemma BetweenMore(front: seq<seq<Reading>>, last: seq<Reading>, lo: int, hi: int)
    requires AllBetween(front, lo, hi) && forall i :: 0 <= i < |last| ==> lo <= last[i].ts <= hi
    ensures AllBetween(front + [last], lo, hi)
  {
  }

  lemma TakesMore(front: seq<seq<Reading>>, last: seq<Reading>, t: int)
    requires Takes(front, t) || exists i :: 0 <= i < |last| && last[i].ts == t
    ensures Takes(front + [last], t)
  {
    var batches: seq<seq<Reading>> := front + [last];
    if b, i :| 0 <= b < |front| && 0 <= i < |front[b]| && front[b][i].ts == t {
      assert batches[b][i].ts == t;
    } else {
      var i :| 0 <= i < |last| && last[i].ts == t;
      assert batches[|front|][i].ts == t;
    }
  }

  lemma WiderBounds(batches: seq<seq<Reading>>, lo: int, hi: int, from: int, to: int)
    requires AllBetween(batches, lo, hi) && from <= lo && hi <= to
    ensures AllBetween(batches, from, to)
  {
  }

  lemma SpanOfMore(front: seq<seq<Reading>>, last: seq<Reading>)
    requires last != []
    requires if front == [] then FromOf(front).None? && ToOf(front).None?
      else FromOf(front).Some? && ToOf(front).Some? && SpansStored(RefreshRangeFor(FromOf(front).value, ToOf(front).value), front)
    ensures FromOf(front + [last]).Some? && ToOf(front + [last]).Some?
    ensures SpansStored(RefreshRangeFor(FromOf(front + [last]).value, ToOf(front + [last]).value), front + [last])
  {
    hide EarliestTs, LatestTs, Takes;
    TsBoundsMeaning(last);
    assert (front + [last])[..|front|] == front;
    var from, to := FromOf(front + [last]).value, ToOf(front + [last]).value;
    if front != [] {
      WiderBounds(front, FromOf(front).value, ToOf(front).value, from, to);
    }
    BetweenMore(front, last, from, to);
    TakesMore(front, last, from);
    TakesMore(front, last, to);
  }

  lemma {:induction false} AffectedSpans(batches: seq<seq<Reading>>, plan: Plan)
    requires AllGood(batches, plan) && batches != []
    ensures FromOf(batches).Some? && ToOf(batches).Some?
    ensures SpansStored(RefreshRangeFor(FromOf(batches).value, ToOf(batches).value), batches)
  {
    hide SpansStored, FromOf, ToOf;
    var front := batches[..|batches| - 1];
    if front != [] {
      AffectedSpans(front, plan);
    } else {
      assert FromOf(front).None? && ToOf(front).None? by {
        AffectedMeaning(front, plan);
      }
    }
    SpanOfMore(front, batches[|batches| - 1]);
    assert front + [batches[|batches| - 1]] == batches;
  }

  /** The affected range spans exactly the stored rows. */
  lemma {:induction false} AffectedMeaning(batches: seq<seq<Reading>>, plan: Plan)
    requires AllGood(batches, plan)
    ensures FromOf(batches).None? <==> batches == []
    ensures ToOf(batches).None? <==> batches == []
    ensures batches != [] ==> CoversStored(RefreshRangeFor(FromOf(batches).value, ToOf(batches).value), batches)
    ensures forall t :: StoresBefore(batches, t) <==> batches != [] && FromOf(batches).value < t
  {
    if batches != [] {
      var front, last := batches[..|batches| - 1], batches[|batches| - 1];
      AffectedMeaning(front, plan);
      TsBoundsMeaning(last);
      assert batches == front + [last];
      CoversOneMore(front, last);
      forall t ensures StoresBefore(batches, t) <==> FromOf(batches).value < t {
        StoresBeforeOneMore(front, last, t);
      }
    }
  }

  lemma CoversOneMore(front: seq<seq<Reading>>, last: seq<Reading>)
    requires last != []
    requires front == [] || (FromOf(front).Some? && ToOf(front).Some?
      && CoversStored(RefreshRangeFor(FromOf(front).value, ToOf(front).value), front))
    ensures FromOf(front + [last]).Some? && ToOf(front + [last]).Some?
    ensures CoversStored(RefreshRangeFor(FromOf(front + [last]).value, ToOf(front + [last]).value), front + [last])
  {
    TsBoundsMeaning(last);
    var batches: seq<seq<Reading>> := front + [last];
    assert batches[..|front|] == front;
    forall b, i | 0 <= b < |batches| && 0 <= i < |batches[b]|
      ensures In(batches[b][i].ts, RefreshRangeFor(FromOf(batches).value, ToOf(batches).value))
    {
      if b < |front| {
        assert batches[b] == front[b];
        assert In(front[b][i].ts, RefreshRangeFor(FromOf(front).value, ToOf(front).value));
      }
    }
  }

  lemma StoresBeforeOneMore(front: seq<seq<Reading>>, last: seq<Reading>, t: int)
    requires last != []
    ensures StoresBefore(front + [last], t) <==> StoresBefore(front, t) || EarliestTs(last) < t
  {
    TsBoundsMeaning(last);
    var batches: seq<seq<Reading>> := front + [last];
    if StoresBefore(front, t) {
      var b, i :| 0 <= b < |front| && 0 <= i < |front[b]| && front[b][i].ts < t;
      assert batches[b][i].ts < t;
    }
    if EarliestTs(last) < t {
      var i :| 0 <= i < |last| && last[i].ts == EarliestTs(last);
      assert batches[|front|][i].ts < t;
    }
  }

  method MaybeEnqueueConsumptionRefresh(plan: Plan, acc: Accumulator, ghost trail: Trail) returns (refresh: Option<Window>)
    requires CountsOf(acc, plan, trail) && AllGood(trail.stored, plan)
    ensures refresh.Some? <==> AsksForRefresh(plan, trail)
    ensures refresh.Some? ==> SpansStored(refresh.value, trail.stored) && refresh.value.from < refresh.value.to
  {
    hide SpansStored;
    AffectedMeaning(trail.stored, plan);
    if trail.stored != [] {
      AffectedSpans(trail.stored, plan);
    }
    if !ShouldEnqueueConsumptionRefresh(plan.hasEnqueuer, plan.refreshEnabled, acc.hasLoadProfile, acc.affectedFrom, plan.now) {
      return None;
    }
    AffectedOrdered(trail.stored);
    return Some(RefreshRangeFor(acc.affectedFrom.value, acc.affectedTo.value));
  }

  lemma {:induction false} AffectedOrdered(batches: seq<seq<Reading>>)
    ensures FromOf(batches).Some? <==> ToOf(batches).Some?
    ensures FromOf(batches).Some? ==> FromOf(batches).value <= ToOf(batches).value
  {
    if batches != [] {
      AffectedOrdered(batches[..|batches| - 1]);
      if batches[|batches| - 1] != [] {
        TsBoundsMeaning(batches[|batches| - 1]);
      }
    }
  }

  // ----- Chunks

  /** normalize.Chunk: consecutive half-open windows; a boundary that does not
      move forward yields no more windows. */
  function Chunk(from: int, to: int, boundary: int -> int): seq<Window>
    decreases Max(to - from, 0)
  {
    if from >= to || boundary(from) <= from then []
    else
      var end := Min(boundary(from), to);
      [Window(from, end)] + Chunk(end, to, boundary)
  }

  ghost predicate Tiles(chunks: seq<Window>, from: int) {
    && (chunks != [] ==> chunks[0].from == from)
    && (forall i :: 0 <= i < |chunks| - 1 ==> chunks[i].to == chunks[i + 1].from)
    && (forall i :: 0 <= i < |chunks| ==> chunks[i].from < chunks[i].to)
  }

  /** When every boundary moves forward, the last window ends where the run does. */
  lemma {:induction false} ChunkReachesEnd(from: int, to: int, boundary: int -> int)
    requires from < to && forall t :: from <= t < to ==> boundary(t) > t
    ensures var chunks := Chunk(from, to, boundary); chunks != [] && chunks[|chunks| - 1].to == to
    decreases Max(to - from, 0)
  {
    var end := Min(boundary(from), to);
    if end < to {
      ChunkReachesEnd(end, to, boundary);
    }
  }

  lemma {:induction false} ChunkTiles(from: int, to: int, boundary: int -> int)
    ensures Tiles(Chunk(from, to, boundary), from)
    decreases Max(to - from, 0)
  {
    if from < to && boundary(from) > from {
      ChunkTiles(Min(boundary(from), to), to, boundary);
    }
  }

  /** Day d starts at midnight(d); instant t lies in day dayOf(t). */
  ghost predicate IsCalendar(midnight: int -> int, dayOf: int -> int) {
    (forall d :: midnight(d) < midnight(d + 1)) && (forall t :: midnight(dayOf(t)) <= t < midnight(dayOf(t) + 1))
  }

  /** Where a window starting at t ends when it may be `max` long: below a day it
      stops at the next local midnight, else it counts whole calendar days. */
  function LocalBoundary(midnight: int -> int, dayOf: int -> int, max: int, t: int): int {
    if max < DAY then Min(midnight(dayOf(t) + 1), t + max) else midnight(dayOf(t) + max / DAY)
  }

  lemma {:induction false} MidnightsGrow(midnight: int -> int, dayOf: int -> int, d: int, n: nat)
    requires IsCalendar(midnight, dayOf)
    ensures midnight(d) <= midnight(d + n)
  {
    if n > 0 {
      MidnightsGrow(midnight, dayOf, d, n - 1);
      assert midnight(d + (n - 1)) < midnight(d + (n - 1) + 1);
    }
  }

  lemma LocalBoundaryMovesOn(midnight: int -> int, dayOf: int -> int, max: int, t: int)
    requires IsCalendar(midnight, dayOf) && max > 0
    ensures t < LocalBoundary(midnight, dayOf, max, t)
  {
    if max >= DAY {
      MidnightsGrow(midnight, dayOf, dayOf(t) + 1, max / DAY - 1);
    }
  }

  /** A window is as long as it may be: below a day it ends at the next midnight or
      after `max`, else `max` calendar days on, or where the run ends if that is first. */
  ghost predicate KeepsDays(w: Window, midnight: int -> int, dayOf: int -> int, max: int, to: int) {
    w.to == if max < DAY then Min(to, Min(midnight(dayOf(w.from) + 1), w.from + max))
            else Min(to, midnight(dayOf(w.from) + max / DAY))
  }

  /** With local midnights the windows tile the whole range and each keeps its days. */
  lemma LocalChunks(from: int, to: int, midnight: int -> int, dayOf: int -> int, max: int)
    requires IsCalendar(midnight, dayOf) && max > 0 && from < to
    ensures var chunks := Chunk(from, to, t => LocalBoundary(midnight, dayOf, max, t));
      && Tiles(chunks, from) && chunks != [] && chunks[|chunks| - 1].to == to
      && forall i :: 0 <= i < |chunks| ==> KeepsDays(chunks[i], midnight, dayOf, max, to)
  {
    var boundary := t => LocalBoundary(midnight, dayOf, max, t);
    forall t | from <= t < to ensures boundary(t) > t {
      LocalBoundaryMovesOn(midnight, dayOf, max, t);
    }
    ChunkTiles(from, to, boundary);
    ChunkReachesEnd(from, to, boundary);
    ChunksKeepDays(from, to, midnight, dayOf, max, boundary);
  }

  lemma {:induction false} ChunksKeepDays(from: int, to: int, midnight: int -> int, dayOf: int -> int, max: int,
                                          boundary: int -> int)
    requires boundary == (t => LocalBoundary(midnight, dayOf, max, t))
    ensures forall i :: 0 <= i < |Chunk(from, to, boundary)| ==> KeepsDays(Chunk(from, to, boundary)[i], midnight, dayOf, max, to)
    decreases Max(to - from, 0)
  {
    if from < to && boundary(from) > from {
      ChunksKeepDays(Min(boundary(from), to), to, midnight, dayOf, max, boundary);
    }
  }

  // ----- One page

  /** Stores one batch; a failing insert stores nothing. */
  method BulkInsert(store: Store, batch: seq<Reading>)
    modifies store`readings
    ensures store.readings == Upserted(old(store.readings), batch)
  {
    for i := 0 to |batch|
      invariant store.readings == Upserted(old(store.readings), batch[..i])
    {
      assert batch[..i + 1][..i] == batch[..i];
      store.readings := store.readings[KeyOf(batch[i]) := batch[i]];
    }
    assert batch[..|batch|] == batch;
  }

  lemma StoreOneMore(table: map<Key, Reading>, batches: seq<seq<Reading>>, batch: seq<Reading>)
    ensures UpsertedAll(table, batches + [batch]) == Upserted(UpsertedAll(table, batches), batch)
    ensures RowCount(batches + [batch]) == RowCount(batches) + |batch|
  {
    assert (batches + [batch])[..|batches|] == batches;
  }

  /** Inserts a batch and notes the range it touched. */
  method Persist(store: Store, acc: Accumulator, valid: seq<Reading>, ghost stored: seq<seq<Reading>>)
    requires valid != [] && acc.affectedFrom == FromOf(stored) && acc.affectedTo == ToOf(stored)
    requires acc.affectedFrom.None? <==> acc.affectedTo.None?
    modifies store`readings, acc`processed, acc`affectedFrom, acc`affectedTo
    ensures store.readings == Upserted(old(store.readings), valid)
    ensures acc.processed == old(acc.processed) + |valid|
    ensures acc.affectedFrom == FromOf(stored + [valid]) && acc.affectedTo == ToOf(stored + [valid])
  {
    BulkInsert(store, valid);
    acc.processed := acc.processed + |valid|;
    var pageMin, pageMax := ReadingTsBounds(valid);
    assert (stored + [valid])[..|stored|] == stored;
    acc.TouchAffected(pageMin, pageMax);
  }

  /** The anomaly table after the first deltas of a page were recorded. */
  function RefetchAll(table: seq<Anomaly>, analyzer: nat, deltas: seq<NegativeDelta>, w: World, n: nat): seq<Anomaly> {
    if deltas == [] then table
    else
      var d := deltas[|deltas| - 1];
      AfterRefetch(RefetchAll(table, analyzer, deltas[..|deltas| - 1], w, n), analyzer, d, w.newId(n, d))
  }

  /** Checking one fall passes: its record is read and, if missing, created, and its
      period is one the reading accepts. */
  predicate FallPasses(table: seq<Anomaly>, analyzer: nat, d: NegativeDelta, w: World, n: nat) {
    && !w.fails(n, AnomalyRead(d)) && ValidRange(CheckRange(d))
    && (Found(table, analyzer, d) || !w.fails(n, AnomalyCreate(d)))
  }

  /** Or it does not, and this is why. */
  predicate FallBreaks(table: seq<Anomaly>, analyzer: nat, d: NegativeDelta, w: World, n: nat, e: FetchError) {
    if w.fails(n, AnomalyRead(d)) then e == CallFailed(n, AnomalyRead(d))
    else if !ValidRange(CheckRange(d)) then e == InvalidRange(d)
    else !Found(table, analyzer, d) && w.fails(n, AnomalyCreate(d)) && e == CallFailed(n, AnomalyCreate(d))
  }

  /** The first k falls pass, each over the table the ones before it left. */
  ghost predicate FallsPass(table: seq<Anomaly>, analyzer: nat, deltas: seq<NegativeDelta>, w: World, n: nat, k: nat)
    requires k <= |deltas|
  {
    forall i: nat | i < k :: FallPasses(RefetchAll(table, analyzer, deltas[..i], w, n), analyzer, deltas[i], w, n)
  }

  /** Fall i is the first that does not pass: those before it are recorded. */
  ghost predicate FallsBreakAt(before: seq<Anomaly>, after: seq<Anomaly>, analyzer: nat, deltas: seq<NegativeDelta>, w: World,
                               n: nat, e: FetchError, i: nat) {
    && i < |deltas| && FallsPass(before, analyzer, deltas, w, n, i)
    && after == RefetchAll(before, analyzer, deltas[..i], w, n)
    && FallBreaks(after, analyzer, deltas[i], w, n, e)
  }

  ghost predicate FallsEnd(before: seq<Anomaly>, after: seq<Anomaly>, analyzer: nat, deltas: seq<NegativeDelta>, w: World,
                           n: nat, err: Option<FetchError>) {
    match err
    case None => after == RefetchAll(before, analyzer, deltas, w, n) && FallsPass(before, analyzer, deltas, w, n, |deltas|)
    case Some(e) => exists i: nat :: FallsBreakAt(before, after, analyzer, deltas, w, n, e, i)
  }

  lemma OneMoreFall(before: seq<Anomaly>, analyzer: nat, deltas: seq<NegativeDelta>, w: World, n: nat, i: nat)
    requires i < |deltas| && FallsPass(before, analyzer, deltas, w, n, i)
    ensures var table := RefetchAll(before, analyzer, deltas[..i], w, n);
      && (FallPasses(table, analyzer, deltas[i], w, n) ==> FallsPass(before, analyzer, deltas, w, n, i + 1))
      && RefetchAll(before, analyzer, deltas[..i + 1], w, n) == AfterRefetch(table, analyzer, deltas[i], w.newId(n, deltas[i]))
      && forall e :: FallBreaks(table, analyzer, deltas[i], w, n, e) ==>
        FallsEnd(before, table, analyzer, deltas, w, n, Some(e))
  {
    hide FallPasses, FallBreaks, AfterRefetch;
    var table := RefetchAll(before, analyzer, deltas[..i], w, n);
    assert deltas[..i + 1][..i] == deltas[..i];
    forall e | FallBreaks(table, analyzer, deltas[i], w, n, e) ensures FallsEnd(before, table, analyzer, deltas, w, n, Some(e)) {
      assert FallsBreakAt(before, table, analyzer, deltas, w, n, e, i);
    }
  }

  lemma NoFallsYet(before: seq<Anomaly>, analyzer: nat, deltas: seq<NegativeDelta>, w: World, n: nat)
    ensures RefetchAll(before, analyzer, deltas[..0], w, n) == before && FallsPass(before, analyzer, deltas, w, n, 0)
  {
  }

  lemma AllFallsPassed(before: seq<Anomaly>, analyzer: nat, deltas: seq<NegativeDelta>, w: World, n: nat)
    requires FallsPass(before, analyzer, deltas, w, n, |deltas|)
    ensures FallsEnd(before, RefetchAll(before, analyzer, deltas[..|deltas|], w, n), analyzer, deltas, w, n, None)
  {
    assert deltas[..|deltas|] == deltas;
  }

  /** Records each delta not recorded yet, and stops at the first failure. */
  method RecordAnomalies(store: Store, acc: Accumulator, w: World, n: nat, analyzer: nat, deltas: seq<NegativeDelta>)
    returns (err: Option<FetchError>)
    modifies store`anomalies, acc`anomaliesCreated
    ensures FallsEnd(old(store.anomalies), store.anomalies, analyzer, deltas, w, n, err)
    ensures acc.anomaliesCreated - old(acc.anomaliesCreated) == |store.anomalies| - |old(store.anomalies)|
  {
    hide RefetchAll, FallsPass, FallsEnd, Found;
    ghost var before := store.anomalies;
    NoFallsYet(before, analyzer, deltas, w, n);
    for i := 0 to |deltas|
      invariant store.anomalies == RefetchAll(before, analyzer, deltas[..i], w, n)
      invariant FallsPass(before, analyzer, deltas, w, n, i)
      invariant acc.anomaliesCreated - old(acc.anomaliesCreated) == |store.anomalies| - |before|
    {
      OneMoreFall(before, analyzer, deltas, w, n, i);
      var d := deltas[i];
      if w.fails(n, AnomalyRead(d)) {
        return Some(CallFailed(n, AnomalyRead(d)));
      }
      var found := NegativeDeltaAnomalyExists(store.anomalies, analyzer, d);
      if found.None? {
        return Some(InvalidRange(d));
      }
      if found.value {
        continue;
      }
      if w.fails(n, AnomalyCreate(d)) {
        return Some(CallFailed(n, AnomalyCreate(d)));
      }
      store.anomalies := store.anomalies + [NewAnomaly(w.newId(n, d), analyzer, d)];
      acc.anomaliesCreated := acc.anomaliesCreated + 1;
    }
    AllFallsPassed(before, analyzer, deltas, w, n);
    return None;
  }

  /** The cursor is what the log makes of it, and the log is disciplined. */
  ghost predicate CursorOk(base: Base, cursor: Option<int>, log: seq<Event>) {
    cursor == CursorAfter(base.cursor, log) && Disciplined(base.start, log)
  }

  /** The last served page has rows of the kind the cursor was not told of yet. */
  ghost predicate Owing(log: seq<Event>, kind: Kind, advances: bool) {
    log != [] && log[|log| - 1].Served? && advances && OfKind(log[|log| - 1].rows, kind) != []
  }

  /** The cursor was told the latest timestamp of each served page with rows of
      the kind, right after the page, and nothing else; only the last may be owing. */
  ghost predicate WellRecorded(log: seq<Event>, kind: Kind, advances: bool) {
    log == [] ||
    match log[|log| - 1]
    case Served(_, _, _) => WellRecorded(log[..|log| - 1], kind, advances) && !Owing(log[..|log| - 1], kind, advances)
    case Recorded(ts) =>
      && Owing(log[..|log| - 1], kind, advances) && WellRecorded(log[..|log| - 1], kind, advances)
      && ts == LatestTs(OfKind(log[|log| - 2].rows, kind))
  }

  lemma ServedWell(log: seq<Event>, lo: int, hi: int, rows: seq<Reading>, kind: Kind, advances: bool)
    requires WellRecorded(log, kind, advances) && !Owing(log, kind, advances)
    ensures WellRecorded(log + [Served(lo, hi, rows)], kind, advances)
    ensures Owing(log + [Served(lo, hi, rows)], kind, advances) <==> advances && OfKind(rows, kind) != []
  {
    assert (log + [Served(lo, hi, rows)])[..|log|] == log;
  }

  lemma RecordedWell(log: seq<Event>, kind: Kind, advances: bool)
    requires WellRecorded(log, kind, advances) && Owing(log, kind, advances)
    ensures var ts := LatestTs(OfKind(log[|log| - 1].rows, kind));
      WellRecorded(log + [Recorded(ts)], kind, advances) && !Owing(log + [Recorded(ts)], kind, advances)
  {
    var ts := LatestTs(OfKind(log[|log| - 1].rows, kind));
    assert (log + [Recorded(ts)])[..|log|] == log;
  }

  /** Nothing is owing, and the last-reading watermark was told the same. */
  ghost predicate UpToDate(base: Base, last: Option<int>, kind: Kind, log: seq<Event>) {
    WellRecorded(log, kind, base.start.advances) && !Owing(log, kind, base.start.advances) && last == CursorAfter(base.last, log)
  }

  /** Event i served rows of the kind. */
  predicate ServedRows(log: seq<Event>, kind: Kind, i: int)
    requires 0 <= i < |log|
  {
    log[i].Served? && OfKind(log[i].rows, kind) != []
  }

  /** When nothing is owing the cursor is at least at every row of the kind that
      was served, and at one of them or where it started. */
  lemma {:induction false} CursorReachesServedRows(cursor: Option<int>, log: seq<Event>, kind: Kind)
    requires WellRecorded(log, kind, true)
    ensures var c := CursorAfter(cursor, log);
      && (forall i :: 0 <= i < |log| - (if Owing(log, kind, true) then 1 else 0) && ServedRows(log, kind, i) ==>
           c.Some? && LatestTs(OfKind(log[i].rows, kind)) <= c.value)
      && (c == cursor || exists i | 0 <= i < |log| && ServedRows(log, kind, i) :: c == Some(LatestTs(OfKind(log[i].rows, kind))))
  {
    hide OfKind, LatestTs;
    if log != [] {
      CursorReachesServedRows(cursor, log[..|log| - 1], kind);
    }
  }

  lemma RecordedOneMore(base: Base, cursor: Option<int>, log: seq<Event>, ts: int)
    requires CursorOk(base, cursor, log) && CanDo(Replay(base.start, log), Recorded(ts))
    ensures CursorOk(base, Greatest(cursor, ts), log + [Recorded(ts)])
  {
    DisciplinedExtends(base.start, log, Recorded(ts));
    assert (log + [Recorded(ts)])[..|log|] == log;
  }

  // ----- What a page does, and where it can break

  /** One page: its number in the run, the reading before it, its bounds, and the
      rows it accepted. */
  datatype PageIn = PageIn(n: nat, prev: Option<Reading>, lo: int, hi: int, accepted: seq<Reading>)

  /** How far a run has come: its log, the batches stored, the anomaly table and the
      last-reading watermark. */
  datatype Mark = Mark(log: seq<Event>, stored: seq<seq<Reading>>, anomalies: seq<Anomaly>, last: Option<int>)

  ghost function Here(store: Store, log: seq<Event>, stored: seq<seq<Reading>>): Mark
    reads store`anomalies, store`lastReadingAt
  {
    Mark(log, stored, store.anomalies, store.lastReadingAt)
  }

  ghost function MarkOf(store: Store, trail: Trail): Mark
    reads store`anomalies, store`lastReadingAt
  {
    Here(store, trail.log, trail.stored)
  }

  /** The timestamp a page tells the cursor, when the run may move it. */
  function Records(accepted: seq<Reading>, kind: Kind, advances: bool): seq<Event> {
    var kindRows := OfKind(accepted, kind);
    if advances && kindRows != [] then [Recorded(LatestTs(kindRows))] else []
  }

  function BatchesIn(accepted: seq<Reading>): seq<seq<Reading>> {
    if accepted == [] then [] else [accepted]
  }

  function PageDeltas(prev: Option<Reading>, valid: seq<Reading>, kindRows: seq<Reading>, ranged: seq<Reading>): seq<NegativeDelta> {
    Deltas(WithPrev(prev, kindRows), OfKind(valid, Reset) + ranged, CUMULATIVE_REGISTERS)
  }

  function FallsOf(w: World, plan: Plan, p: PageIn): seq<NegativeDelta> {
    PageDeltas(p.prev, p.accepted, OfKind(p.accepted, plan.kind), w.resets(p.n))
  }

  /** d is the fall of one register between two readings of one kind. */
  predicate IsFallBetween(a: Reading, b: Reading, d: NegativeDelta) {
    && d.register < 12 && d.prevTs == a.ts && d.curTs == b.ts && a.kind == b.kind
    && a.regs[d.register].Some? && b.regs[d.register].Some?
    && b.regs[d.register].value < a.regs[d.register].value
  }

  /** No reading of the list lies in (after, upTo]. */
  predicate ClearOf(resets: seq<Reading>, after: int, upTo: int) {
    forall r :: r in resets ==> r.ts <= after || upTo < r.ts
  }

  lemma ClearOfKind(rows: seq<Reading>, kind: Kind, after: int, upTo: int)
    ensures ClearOf(OfKind(rows, kind), after, upTo) <==>
      forall r :: r in rows && r.kind == kind ==> r.ts <= after || upTo < r.ts
  {
    OfKindMembers(rows, kind);
  }

  lemma ClearOfBoth(a: seq<Reading>, b: seq<Reading>, after: int, upTo: int)
    ensures ClearOf(a + b, after, upTo) <==> ClearOf(a, after, upTo) && ClearOf(b, after, upTo)
  {
    assert forall r :: r in a + b <==> r in a || r in b;
  }

  lemma DeltasIff(s: seq<Reading>, resets: seq<Reading>, d: NegativeDelta)
    ensures d in Deltas(s, resets, CUMULATIVE_REGISTERS) <==>
      ClearOf(resets, d.prevTs, d.curTs) && exists i :: 0 < i < |s| && IsFallBetween(s[i - 1], s[i], d)
  {
    hide Deltas;
    DeltasExact(s, resets, CUMULATIVE_REGISTERS, d);
    forall i | 0 < i < |s|
      ensures ReportedAt(s, resets, CUMULATIVE_REGISTERS, d, i) <==> ClearOf(resets, d.prevTs, d.curTs) && IsFallBetween(s[i - 1], s[i], d)
    {
      ReportedIff(s, resets, d, i);
    }
    hide ReportedAt, IsFallBetween, ClearOf;
    if d in Deltas(s, resets, CUMULATIVE_REGISTERS) {
      var i :| 0 < i < |s| && ReportedAt(s, resets, CUMULATIVE_REGISTERS, d, i);
      assert IsFallBetween(s[i - 1], s[i], d);
    } else if i :| 0 < i < |s| && IsFallBetween(s[i - 1], s[i], d) {
      assert !ReportedAt(s, resets, CUMULATIVE_REGISTERS, d, i);
    }
  }

  lemma ReportedIff(s: seq<Reading>, resets: seq<Reading>, d: NegativeDelta, i: nat)
    requires 0 < i < |s|
    ensures ReportedAt(s, resets, CUMULATIVE_REGISTERS, d, i) <==>
      ClearOf(resets, d.prevTs, d.curTs) && IsFallBetween(s[i - 1], s[i], d)
  {
    if forall k :: 0 <= k < |resets| ==> resets[k].ts <= d.prevTs || resets[k].ts > d.curTs {
      forall r | r in resets ensures r.ts <= d.prevTs || d.curTs < r.ts {
        var k :| 0 <= k < |resets| && resets[k] == r;
      }
    }
    assert forall k :: 0 <= k < |resets| ==> resets[k] in resets;
  }

  /** A page's falls are exactly those between neighbours among the previous reading and
      the accepted rows of the requested kind that no reset explains: neither a reset row
      accepted with the page nor a stored one lies in (previous, current]. */
  lemma FallsAreUnexplained(w: World, plan: Plan, p: PageIn, d: NegativeDelta)
    ensures var s := (if p.prev.Some? then [p.prev.value] else []) + OfKind(p.accepted, plan.kind);
      d in FallsOf(w, plan, p) <==>
        && (exists i :: 0 < i < |s| && IsFallBetween(s[i - 1], s[i], d))
        && (forall r :: r in p.accepted && r.kind == Reset ==> r.ts <= d.prevTs || d.curTs < r.ts)
        && (forall r :: r in w.resets(p.n) ==> r.ts <= d.prevTs || d.curTs < r.ts)
  {
    hide Deltas, OfKind, IsFallBetween;
    var s := WithPrev(p.prev, OfKind(p.accepted, plan.kind));
    var own := OfKind(p.accepted, Reset);
    DeltasIff(s, own + w.resets(p.n), d);
    ClearOfBoth(own, w.resets(p.n), d.prevTs, d.curTs);
    ClearOfKind(p.accepted, Reset, d.prevTs, d.curTs);
    assert d in FallsOf(w, plan, p) <==> d in Deltas(s, own + w.resets(p.n), CUMULATIVE_REGISTERS);
    hide FallsOf;
    assert ClearOf(w.resets(p.n), d.prevTs, d.curTs) <==> forall r :: r in w.resets(p.n) ==> r.ts <= d.prevTs || d.curTs < r.ts;
    hide ClearOf;
  }

  function AnomaliesOf(table: seq<Anomaly>, w: World, plan: Plan, p: PageIn): seq<Anomaly> {
    if OfKind(p.accepted, plan.kind) == [] then table else RefetchAll(table, plan.analyzer, FallsOf(w, plan, p), w, p.n)
  }

  /** The page's rows are stored and its hooks done: it is served. */
  function ServedMark(m: Mark, p: PageIn): Mark {
    m.(log := m.log + [Served(p.lo, p.hi, p.accepted)], stored := m.stored + BatchesIn(p.accepted))
  }

  /** Its falls are recorded and the cursor and the watermark told its last row. */
  function AfterRows(s: Mark, w: World, plan: Plan, advances: bool, p: PageIn): Mark {
    var records := Records(p.accepted, plan.kind, advances);
    s.(log := s.log + records, anomalies := AnomaliesOf(s.anomalies, w, plan, p), last := CursorAfter(s.last, records))
  }

  /** A page that went through to its end. */
  function AfterPage(m: Mark, w: World, plan: Plan, advances: bool, p: PageIn): Mark {
    AfterRows(ServedMark(m, p), w, plan, advances, p)
  }

  /** The first of the two calls to fail, if one does. */
  function AdvanceError(w: World, n: nat): Option<FetchError> {
    if w.fails(n, RecordSuccessCall) then Some(CallFailed(n, RecordSuccessCall))
    else if w.fails(n, TouchCall) then Some(CallFailed(n, TouchCall))
    else None
  }

  /** No call for the rows of the requested kind fails, and no fall breaks. */
  ghost predicate RowsPass(table: seq<Anomaly>, w: World, plan: Plan, advances: bool, p: PageIn) {
    OfKind(p.accepted, plan.kind) != [] ==>
      && !w.fails(p.n, ResetRead)
      && FallsPass(table, plan.analyzer, FallsOf(w, plan, p), w, p.n, |FallsOf(w, plan, p)|)
      && (advances ==> AdvanceError(w, p.n).None?)
  }

  /** Nothing keeps the page from its end. */
  ghost predicate PagePasses(table: seq<Anomaly>, w: World, plan: Plan, advances: bool, p: PageIn) {
    p.accepted != [] ==>
      && !w.fails(p.n, BulkInsertCall) && !w.fails(p.n, HookCall)
      && RowsPass(table, w, plan, advances, p)
      && !w.fails(p.n, HourlyCall)
  }

  /** The served page s breaks with this error over its rows of the requested kind:
      what comes before the failing call is done and nothing after it. */
  ghost predicate RowsBreak(s: Mark, t: Mark, w: World, plan: Plan, advances: bool, p: PageIn, e: FetchError) {
    var n, falls := p.n, FallsOf(w, plan, p);
    var recorded := s.(anomalies := AnomaliesOf(s.anomalies, w, plan, p));
    if e == CallFailed(n, ResetRead) then w.fails(n, ResetRead) && t == s
    else
      && !w.fails(n, ResetRead)
      && if e == CallFailed(n, RecordSuccessCall) || e == CallFailed(n, TouchCall) then
           && advances && FallsPass(s.anomalies, plan.analyzer, falls, w, n, |falls|) && AdvanceError(w, n) == Some(e)
           && t == if e == CallFailed(n, TouchCall) then recorded.(log := s.log + Records(p.accepted, plan.kind, advances))
                   else recorded
         else
           && t == s.(anomalies := t.anomalies)
           && FallsEnd(s.anomalies, t.anomalies, plan.analyzer, falls, w, n, Some(e))
  }

  ghost predicate FinishBreaks(s: Mark, t: Mark, w: World, plan: Plan, advances: bool, p: PageIn, e: FetchError) {
    if e == CallFailed(p.n, HourlyCall) then
      w.fails(p.n, HourlyCall) && RowsPass(s.anomalies, w, plan, advances, p) && t == AfterRows(s, w, plan, advances, p)
    else OfKind(p.accepted, plan.kind) != [] && RowsBreak(s, t, w, plan, advances, p, e)
  }

  /** The page breaks with this error: a refused insert leaves everything as it was, a
      failing hook the rows stored and the page unserved. */
  ghost predicate PageBreaks(m: Mark, t: Mark, w: World, plan: Plan, advances: bool, p: PageIn, e: FetchError) {
    && p.accepted != []
    && if e == CallFailed(p.n, BulkInsertCall) then w.fails(p.n, BulkInsertCall) && t == m
       else
         && !w.fails(p.n, BulkInsertCall)
         && if e == CallFailed(p.n, HookCall) then w.fails(p.n, HookCall) && t == m.(stored := m.stored + [p.accepted])
            else !w.fails(p.n, HookCall) && FinishBreaks(ServedMark(m, p), t, w, plan, advances, p, e)
  }

  ghost predicate RowsEnd(s: Mark, t: Mark, w: World, plan: Plan, advances: bool, p: PageIn, err: Option<FetchError>) {
    match err
    case None => RowsPass(s.anomalies, w, plan, advances, p) && t == AfterRows(s, w, plan, advances, p)
    case Some(e) => RowsBreak(s, t, w, plan, advances, p, e)
  }

  ghost predicate FinishEnds(s: Mark, t: Mark, w: World, plan: Plan, advances: bool, p: PageIn, err: Option<FetchError>) {
    match err
    case None =>
      RowsPass(s.anomalies, w, plan, advances, p) && !w.fails(p.n, HourlyCall) && t == AfterRows(s, w, plan, advances, p)
    case Some(e) => FinishBreaks(s, t, w, plan, advances, p, e)
  }

  /** How a page ends, from mark m to mark t. */
  ghost predicate PageEnds(m: Mark, t: Mark, w: World, plan: Plan, advances: bool, p: PageIn, err: Option<FetchError>) {
    match err
    case None => PagePasses(m.anomalies, w, plan, advances, p) && t == AfterPage(m, w, plan, advances, p)
    case Some(e) => PageBreaks(m, t, w, plan, advances, p, e)
  }

  lemma FallsPassOrBreak(before: seq<Anomaly>, after: seq<Anomaly>, analyzer: nat, deltas: seq<NegativeDelta>, w: World, n: nat,
                         e: FetchError)
    requires FallsEnd(before, after, analyzer, deltas, w, n, Some(e))
    ensures !FallsPass(before, analyzer, deltas, w, n, |deltas|)
  {
    var i: nat :| FallsBreakAt(before, after, analyzer, deltas, w, n, e, i);
    assert !FallPasses(RefetchAll(before, analyzer, deltas[..i], w, n), analyzer, deltas[i], w, n);
  }

  lemma FallsEndOneWay(before: seq<Anomaly>, t: seq<Anomaly>, u: seq<Anomaly>, analyzer: nat, deltas: seq<NegativeDelta>,
                       w: World, n: nat, e: FetchError, f: FetchError)
    requires FallsEnd(before, t, analyzer, deltas, w, n, Some(e)) && FallsEnd(before, u, analyzer, deltas, w, n, Some(f))
    ensures t == u && e == f
  {
    var i: nat :| FallsBreakAt(before, t, analyzer, deltas, w, n, e, i);
    var j: nat :| FallsBreakAt(before, u, analyzer, deltas, w, n, f, j);
    assert !FallPasses(RefetchAll(before, analyzer, deltas[..i], w, n), analyzer, deltas[i], w, n);
    assert !FallPasses(RefetchAll(before, analyzer, deltas[..j], w, n), analyzer, deltas[j], w, n);
  }

  /** The errors that come from checking a fall. */
  predicate IsFallError(e: FetchError) {
    e.InvalidRange? || (e.CallFailed? && (e.call.AnomalyRead? || e.call.AnomalyCreate?))
  }

  lemma FallErrors(before: seq<Anomaly>, after: seq<Anomaly>, analyzer: nat, deltas: seq<NegativeDelta>, w: World, n: nat,
                   e: FetchError)
    requires FallsEnd(before, after, analyzer, deltas, w, n, Some(e))
    ensures IsFallError(e)
  {
    var i: nat :| FallsBreakAt(before, after, analyzer, deltas, w, n, e, i);
  }

  lemma RowErrors(s: Mark, t: Mark, w: World, plan: Plan, advances: bool, p: PageIn, e: FetchError)
    requires RowsBreak(s, t, w, plan, advances, p, e)
    ensures IsFallError(e) || (e.CallFailed? && (e.call.ResetRead? || e.call.RecordSuccessCall? || e.call.TouchCall?))
  {
    hide FallsEnd, FallsPass, FallsOf, OfKind, Records, AnomaliesOf;
    if FallsEnd(s.anomalies, t.anomalies, plan.analyzer, FallsOf(w, plan, p), w, p.n, Some(e)) {
      FallErrors(s.anomalies, t.anomalies, plan.analyzer, FallsOf(w, plan, p), w, p.n, e);
    }
  }

  /** Every fall of the page has a period the reading of its record accepts. */
  ghost predicate FallsValid(w: World, plan: Plan, p: PageIn) {
    OfKind(p.accepted, plan.kind) != [] ==>
      forall d :: d in FallsOf(w, plan, p) ==> d.prevTs != 0 && d.curTs + 1 != 0 && d.prevTs <= d.curTs
  }

  /** The calls a page makes, over the anomaly table it finds. */
  ghost predicate Makes(table: seq<Anomaly>, w: World, plan: Plan, advances: bool, p: PageIn, call: Call) {
    var forRows, falls := OfKind(p.accepted, plan.kind) != [], FallsOf(w, plan, p);
    p.accepted != [] &&
    match call
    case BulkInsertCall => true
    case HookCall => true
    case HourlyCall => true
    case ResetRead => forRows
    case RecordSuccessCall => forRows && advances
    case TouchCall => forRows && advances
    case AnomalyRead(d) => forRows && d in falls
    case AnomalyCreate(d) =>
      forRows && exists i :: 0 <= i < |falls| && falls[i] == d &&
                             !Found(RefetchAll(table, plan.analyzer, falls[..i], w, p.n), plan.analyzer, d)
    case _ => false
  }

  lemma FallsPassIff(table: seq<Anomaly>, w: World, plan: Plan, p: PageIn)
    ensures var falls := FallsOf(w, plan, p);
      FallsPass(table, plan.analyzer, falls, w, p.n, |falls|) <==>
        && (forall d :: d in falls ==> d.prevTs != 0 && d.curTs + 1 != 0 && d.prevTs <= d.curTs && !w.fails(p.n, AnomalyRead(d)))
        && (forall i :: 0 <= i < |falls| && !Found(RefetchAll(table, plan.analyzer, falls[..i], w, p.n), plan.analyzer, falls[i]) ==>
             !w.fails(p.n, AnomalyCreate(falls[i])))
  {
    hide FallsOf, Found, RefetchAll;
    var falls := FallsOf(w, plan, p);
    if FallsPass(table, plan.analyzer, falls, w, p.n, |falls|) {
      forall i: nat | i < |falls|
        ensures FallPasses(RefetchAll(table, plan.analyzer, falls[..i], w, p.n), plan.analyzer, falls[i], w, p.n)
      {
      }
    }
  }

  /** A page goes through exactly when none of the calls it makes fails and its falls
      have valid periods. */
  lemma PassesIffNoCallFails(table: seq<Anomaly>, w: World, plan: Plan, advances: bool, p: PageIn)
    ensures PagePasses(table, w, plan, advances, p) <==>
      FallsValid(w, plan, p) && forall call :: Makes(table, w, plan, advances, p, call) ==> !w.fails(p.n, call)
  {
    hide FallsOf, FallsPass, Found, RefetchAll;
    FallsPassIff(table, w, plan, p);
    if FallsValid(w, plan, p) && (forall call :: Makes(table, w, plan, advances, p, call) ==> !w.fails(p.n, call)) {
      if p.accepted != [] {
        NoCallOfItFails(table, w, plan, advances, p);
      }
    }
    assert p.accepted == [] ==> OfKind(p.accepted, plan.kind) == [];
  }

  lemma NoCallOfItFails(table: seq<Anomaly>, w: World, plan: Plan, advances: bool, p: PageIn)
    requires p.accepted != [] && FallsValid(w, plan, p)
    requires forall call :: Makes(table, w, plan, advances, p, call) ==> !w.fails(p.n, call)
    ensures PagePasses(table, w, plan, advances, p)
  {
    hide FallsOf, FallsPass, Found, RefetchAll;
    var falls := FallsOf(w, plan, p);
    FallsPassIff(table, w, plan, p);
    assert Makes(table, w, plan, advances, p, BulkInsertCall) && Makes(table, w, plan, advances, p, HookCall)
      && Makes(table, w, plan, advances, p, HourlyCall);
    if OfKind(p.accepted, plan.kind) != [] {
      assert Makes(table, w, plan, advances, p, ResetRead);
      assert advances ==> Makes(table, w, plan, advances, p, RecordSuccessCall) && Makes(table, w, plan, advances, p, TouchCall);
      forall d | d in falls ensures !w.fails(p.n, AnomalyRead(d)) {
        assert Makes(table, w, plan, advances, p, AnomalyRead(d));
      }
      forall i | 0 <= i < |falls| && !Found(RefetchAll(table, plan.analyzer, falls[..i], w, p.n), plan.analyzer, falls[i])
        ensures !w.fails(p.n, AnomalyCreate(falls[i]))
      {
        assert Makes(table, w, plan, advances, p, AnomalyCreate(falls[i]));
      }
    }
  }

  /** What a page that breaks leaves, by the call that failed: the rows are stored before
      the hooks run, the page is logged after them, then come the falls, the cursor, the
      watermark and the hourly values. */
  lemma WhatABrokenPageLeaves(m: Mark, t: Mark, w: World, plan: Plan, advances: bool, p: PageIn, e: FetchError)
    requires PageBreaks(m, t, w, plan, advances, p, e)
    ensures var kindRows := OfKind(p.accepted, plan.kind);
      var told := if advances && kindRows != [] then [Recorded(LatestTs(kindRows))] else [];
      var call := if e.CallFailed? then Some(e.call) else None;
      && (e.CallFailed? ==> e.n == p.n && w.fails(p.n, e.call)) && (e.CallFailed? || e.InvalidRange?)
      && t.stored == (if call == Some(BulkInsertCall) then m.stored else m.stored + [p.accepted])
      && t.log == (if call == Some(BulkInsertCall) || call == Some(HookCall) then m.log
                   else if call == Some(TouchCall) || call == Some(HourlyCall) then m.log + [Served(p.lo, p.hi, p.accepted)] + told
                   else m.log + [Served(p.lo, p.hi, p.accepted)])
      && t.last == (if call == Some(HourlyCall) && told != [] then Greatest(m.last, LatestTs(kindRows)) else m.last)
      && (call == Some(BulkInsertCall) || call == Some(HookCall) || call == Some(ResetRead) ==> t.anomalies == m.anomalies)
      && (call == Some(RecordSuccessCall) || call == Some(TouchCall) || call == Some(HourlyCall) ==>
           t.anomalies == if kindRows == [] then m.anomalies
                          else RefetchAll(m.anomalies, plan.analyzer, FallsOf(w, plan, p), w, p.n))
  {
    hide FallsEnd, FallsPass, FallsOf, OfKind, RefetchAll, LatestTs;
    var kindRows := OfKind(p.accepted, plan.kind);
    ToldOnce(m.last, m.log + [Served(p.lo, p.hi, p.accepted)], p.accepted, plan.kind, advances);
    if FallsEnd(m.anomalies, t.anomalies, plan.analyzer, FallsOf(w, plan, p), w, p.n, Some(e)) {
      FallFailsHere(m.anomalies, t.anomalies, plan.analyzer, FallsOf(w, plan, p), w, p.n, e);
    }
  }

  lemma ToldOnce(last: Option<int>, log: seq<Event>, accepted: seq<Reading>, kind: Kind, advances: bool)
    ensures var kindRows, told := OfKind(accepted, kind), Records(accepted, kind, advances);
      && told == (if advances && kindRows != [] then [Recorded(LatestTs(kindRows))] else [])
      && CursorAfter(last, told) == (if told != [] then Greatest(last, LatestTs(kindRows)) else last)
      && (told == [] ==> log + told == log)
  {
    var told := Records(accepted, kind, advances);
    assert told != [] ==> told[..0] == [];
  }

  lemma FallFailsHere(before: seq<Anomaly>, after: seq<Anomaly>, analyzer: nat, deltas: seq<NegativeDelta>, w: World, n: nat,
                      e: FetchError)
    requires FallsEnd(before, after, analyzer, deltas, w, n, Some(e))
    ensures IsFallError(e) && (e.CallFailed? ==> e.n == n && w.fails(n, e.call))
  {
    var i: nat :| FallsBreakAt(before, after, analyzer, deltas, w, n, e, i);
  }

  /** A page passes or breaks, never both. */
  lemma PassesOrBreaks(m: Mark, t: Mark, w: World, plan: Plan, advances: bool, p: PageIn, e: FetchError)
    requires PageBreaks(m, t, w, plan, advances, p, e)
    ensures !PagePasses(m.anomalies, w, plan, advances, p)
  {
    hide FallsEnd, FallsPass, FallsOf, OfKind, Records;
    if FallsEnd(m.anomalies, t.anomalies, plan.analyzer, FallsOf(w, plan, p), w, p.n, Some(e)) {
      FallsPassOrBreak(m.anomalies, t.anomalies, plan.analyzer, FallsOf(w, plan, p), w, p.n, e);
    }
  }

  /** Where a page ends, and with which error, is decided by what it is told. */
  lemma PageEndsOneWay(m: Mark, t: Mark, u: Mark, w: World, plan: Plan, advances: bool, p: PageIn, err: Option<FetchError>,
                       fault: Option<FetchError>)
    requires PageEnds(m, t, w, plan, advances, p, err) && PageEnds(m, u, w, plan, advances, p, fault)
    ensures t == u && err == fault
  {
    hide FallsEnd, FallsPass, FallsOf, OfKind, Records, PagePasses;
    if err.Some? {
      PassesOrBreaks(m, t, w, plan, advances, p, err.value);
    }
    if fault.Some? {
      PassesOrBreaks(m, u, w, plan, advances, p, fault.value);
    }
    if err.Some? && fault.Some? {
      BreaksOneWay(m, t, u, w, plan, advances, p, err.value, fault.value);
    }
  }

  lemma BreaksOneWay(m: Mark, t: Mark, u: Mark, w: World, plan: Plan, advances: bool, p: PageIn, e: FetchError, f: FetchError)
    requires PageBreaks(m, t, w, plan, advances, p, e) && PageBreaks(m, u, w, plan, advances, p, f)
    ensures t == u && e == f
  {
    hide FallsEnd, FallsPass, FallsOf, OfKind, Records;
    var falls := FallsOf(w, plan, p);
    if FallsEnd(m.anomalies, t.anomalies, plan.analyzer, falls, w, p.n, Some(e)) {
      FallsPassOrBreak(m.anomalies, t.anomalies, plan.analyzer, falls, w, p.n, e);
      if FallsEnd(m.anomalies, u.anomalies, plan.analyzer, falls, w, p.n, Some(f)) {
        FallsEndOneWay(m.anomalies, t.anomalies, u.anomalies, plan.analyzer, falls, w, p.n, e, f);
      }
    }
    if FallsEnd(m.anomalies, u.anomalies, plan.analyzer, falls, w, p.n, Some(f)) {
      FallsPassOrBreak(m.anomalies, u.anomalies, plan.analyzer, falls, w, p.n, f);
    }
  }

  // ----- Storing a page and moving the cursor

  /** Moves the cursor and the last-reading watermark to the page's last row. */
  method AdvanceCursor(store: Store, w: World, n: nat, ts: int, ghost base: Base, ghost log: seq<Event>)
    returns (err: Option<FetchError>, ghost after: seq<Event>)
    requires CursorOk(base, store.cursor, log) && CanDo(Replay(base.start, log), Recorded(ts))
    modifies store`cursor, store`lastReadingAt
    ensures CursorOk(base, store.cursor, after)
    ensures err == if w.fails(n, RecordSuccessCall) then Some(CallFailed(n, RecordSuccessCall))
                   else if w.fails(n, TouchCall) then Some(CallFailed(n, TouchCall)) else None
    ensures after == if err == Some(CallFailed(n, RecordSuccessCall)) then log else log + [Recorded(ts)]
    ensures store.cursor == if after == log then old(store.cursor) else Greatest(old(store.cursor), ts)
    ensures store.lastReadingAt == if err.None? then Greatest(old(store.lastReadingAt), ts) else old(store.lastReadingAt)
  {
    if w.fails(n, RecordSuccessCall) {
      return Some(CallFailed(n, RecordSuccessCall)), log;
    }
    RecordedOneMore(base, store.cursor, log, ts);
    store.cursor := Greatest(store.cursor, ts);
    after := log + [Recorded(ts)];
    if w.fails(n, TouchCall) {
      return Some(CallFailed(n, TouchCall)), after;
    }
    store.lastReadingAt := Greatest(store.lastReadingAt, ts);
    return None, after;
  }

  /** Moves the cursor to the page's last row of the requested kind, when this
      run may move it at all. */
  method MaybeAdvance(store: Store, w: World, n: nat, plan: Plan, valid: seq<Reading>, kindRows: seq<Reading>,
                      advances: bool, ghost base: Base, ghost log: seq<Event>)
    returns (err: Option<FetchError>, ghost after: seq<Event>)
    requires kindRows == OfKind(valid, plan.kind) && kindRows != []
    requires CursorOk(base, store.cursor, log)
    requires advances ==> forall r :: r in valid ==> CanDo(Replay(base.start, log), Recorded(r.ts))
    modifies store`cursor, store`lastReadingAt
    ensures CursorOk(base, store.cursor, after)
    ensures err == if advances then AdvanceError(w, n) else None
    ensures after == if err == Some(CallFailed(n, RecordSuccessCall)) then log else log + Records(valid, plan.kind, advances)
    ensures store.lastReadingAt
      == if err.None? then CursorAfter(old(store.lastReadingAt), Records(valid, plan.kind, advances)) else old(store.lastReadingAt)
  {
    if !advances {
      assert log + [] == log;
      return None, log;
    }
    var kindMin, kindMax := ReadingTsBounds(kindRows);
    OfKindMembers(valid, plan.kind);
    TsBoundsMeaning(kindRows);
    err, after := AdvanceCursor(store, w, n, kindMax, base, log);
    assert [Recorded(kindMax)][..0] == [];
  }

  /** Finds the page's unexplained falls and records them; resets come from the
      page itself and from the store. */
  method CheckDeltas(store: Store, acc: Accumulator, w: World, n: nat, analyzer: nat, prev: Option<Reading>,
                     valid: seq<Reading>, kindRows: seq<Reading>)
    returns (err: Option<FetchError>)
    modifies store`anomalies, acc`anomaliesCreated
    ensures if w.fails(n, ResetRead) then err == Some(CallFailed(n, ResetRead)) && store.anomalies == old(store.anomalies)
      else FallsEnd(old(store.anomalies), store.anomalies, analyzer, PageDeltas(prev, valid, kindRows, w.resets(n)), w, n, err)
  {
    var resets := ReadingsOfKind(valid, Reset);
    if w.fails(n, ResetRead) {
      return Some(CallFailed(n, ResetRead));
    }
    var deltas := DetectNegativeDeltas(prev, kindRows, resets + w.resets(n), CUMULATIVE_REGISTERS);
    err := RecordAnomalies(store, acc, w, n, analyzer, deltas);
  }

  /** The page's rows of the requested kind: reset-aware falls, then the cursor,
      then the previous reading of the next page. */
  method ServeKindRows(store: Store, acc: Accumulator, w: World, plan: Plan, advances: bool, p: PageIn, kindRows: seq<Reading>,
                       ghost base: Base, ghost log: seq<Event>, ghost stored: seq<seq<Reading>>)
    returns (err: Option<FetchError>, newPrev: Option<Reading>, ghost after: seq<Event>)
    requires kindRows == OfKind(p.accepted, plan.kind) && kindRows != []
    requires CursorOk(base, store.cursor, log)
    requires advances ==> forall r :: r in p.accepted ==> CanDo(Replay(base.start, log), Recorded(r.ts))
    modifies store`cursor, store`lastReadingAt, store`anomalies, acc`anomaliesCreated
    ensures CursorOk(base, store.cursor, after)
    ensures after == log || after == log + Records(p.accepted, plan.kind, advances)
    ensures err.None? ==> newPrev == NextPrev(p.prev, p.accepted, plan.kind)
    ensures RowsEnd(old(Here(store, log, stored)), Here(store, after, stored), w, plan, advances, p, err)
  {
    hide FallsEnd, FallsPass, CursorOk, GoodBatch, LatestTs;
    after, newPrev := log, p.prev;
    err := CheckDeltas(store, acc, w, p.n, plan.analyzer, p.prev, p.accepted, kindRows);
    if err.Some? {
      if !w.fails(p.n, ResetRead) {
        FallErrors(old(store.anomalies), store.anomalies, plan.analyzer, FallsOf(w, plan, p), w, p.n, err.value);
      }
      return;
    }
    err, after := MaybeAdvance(store, w, p.n, plan, p.accepted, kindRows, advances, base, log);
    if err.Some? {
      return;
    }
    newPrev := Some(kindRows[|kindRows| - 1]);
  }

  lemma HookedOneMore(hooked: seq<seq<Reading>>, batch: seq<Reading>, kind: Kind)
    ensures HasKind(hooked + [batch], kind) <==> HasKind(hooked, kind) || OfKind(batch, kind) != []
  {
    assert (hooked + [batch])[..|hooked|] == hooked;
  }

  lemma ServedOneMore(base: Base, cursor: Option<int>, log: seq<Event>, lo: int, hi: int, rows: seq<Reading>)
    requires CursorOk(base, cursor, log)
    requires base.start.from <= lo <= Replay(base.start, log).frontier
    ensures CursorOk(base, cursor, log + [Served(lo, hi, rows)])
    ensures Replay(base.start, log + [Served(lo, hi, rows)]) == Do(Replay(base.start, log), Served(lo, hi, rows))
  {
    DisciplinedExtends(base.start, log, Served(lo, hi, rows));
    var more := log + [Served(lo, hi, rows)];
    assert more[..|more| - 1] == log;
    assert CursorAfter(base.cursor, more) == CursorAfter(base.cursor, log);
  }

  /** The three outcomes of storing an accepted page: nothing stored, stored
      with a failing hook, stored and served. */
  ghost predicate StoredPage(w: World, n: nat, trail: Trail, after: Trail, valid: seq<Reading>, req: Window, hi: int,
                             err: Option<FetchError>) {
    if w.fails(n, BulkInsertCall) then after == trail && err == Some(CallFailed(n, BulkInsertCall))
    else if w.fails(n, HookCall) then after == Stored(trail, valid) && err == Some(CallFailed(n, HookCall))
    else after == Hooked(trail, valid, req, hi) && err == None
  }

  function Stored(trail: Trail, batch: seq<Reading>): Trail {
    trail.(stored := trail.stored + [batch])
  }

  function Hooked(trail: Trail, batch: seq<Reading>, req: Window, hi: int): Trail {
    trail.(stored := trail.stored + [batch], hooked := trail.hooked + [batch], log := trail.log + [Served(req.from, hi, batch)])
  }

  lemma HooksAfterStore(trail: Trail, batch: seq<Reading>, req: Window, hi: int)
    requires HooksServed(trail) && batch != []
    ensures HooksServed(Stored(trail, batch)) && HooksServed(Hooked(trail, batch, req, hi))
  {
    BatchesExtend(trail.log, Served(req.from, hi, batch));
    var stored, hooked := trail.stored + [batch], trail.hooked + [batch];
    assert stored[|trail.stored|] == batch;
    forall i | 0 <= i < |hooked| ensures hooked[i] in stored {
      if i < |trail.hooked| {
        assert trail.hooked[i] in trail.stored;
      }
    }
  }

  /** Inserts the accepted rows and runs the hooks; only then is the page served. */
  method StorePage(store: Store, acc: Accumulator, w: World, n: nat, plan: Plan, req: Window, hi: int,
                   valid: seq<Reading>, kindRows: seq<Reading>, ghost base: Base, ghost trail: Trail)
    returns (err: Option<FetchError>, ghost after: Trail)
    requires valid != [] && kindRows == OfKind(valid, plan.kind)
    requires StoredOf(base, store, trail)
    requires CountsOf(acc, plan, trail)
    requires base.start.from <= req.from <= Replay(base.start, trail.log).frontier
    requires HooksServed(trail)
    modifies store`readings, acc`processed, acc`affectedFrom, acc`affectedTo, acc`hasLoadProfile
    ensures HooksServed(after)
    ensures StoredPage(w, n, trail, after, valid, req, hi, err)
    ensures StoredOf(base, store, after)
    ensures CountsOf(acc, plan, after)
  {
    hide HooksServed, CursorOk, UpsertedAll, RowCount, FromOf, ToOf, HasKind, Replay, OfKind;
    if w.fails(n, BulkInsertCall) {
      return Some(CallFailed(n, BulkInsertCall)), trail;
    }
    AffectedOrdered(trail.stored);
    Persist(store, acc, valid, trail.stored);
    StoreOneMore(base.readings, trail.stored, valid);
    after := Stored(trail, valid);
    HooksAfterStore(trail, valid, req, hi);
    if w.fails(n, HookCall) {
      return Some(CallFailed(n, HookCall)), after;
    }
    HookedOneMore(trail.hooked, valid, plan.kind);
    ServedOneMore(base, store.cursor, trail.log, req.from, hi, valid);
    if plan.kind == LoadProfile && |kindRows| > 0 {
      acc.hasLoadProfile := true;
    }
    return None, Hooked(trail, valid, req, hi);
  }

  /** The verdicts of a page extend the run's obedient trace. */
  lemma VerdictsOneMore(verdicts: seq<Verdict>, streak: Streak, prev: Option<Reading>, rows: seq<Reading>, analyzer: nat,
                        kind: Kind, ctx: Context)
    requires Obeys(FRESH, verdicts) && After(FRESH, verdicts) == streak
    ensures var p := PassOf(prev, streak, rows, analyzer, kind, ctx);
      Obeys(FRESH, verdicts + p.verdicts) && After(FRESH, verdicts + p.verdicts) == p.streak
  {
    RunObeys(Pass(prev, streak, verdicts), Candidates(rows, analyzer, kind), ctx, FRESH);
    RunForgetsVerdicts(Pass(prev, streak, verdicts), Candidates(rows, analyzer, kind), ctx);
  }

  lemma RecordableRows(rows: seq<Reading>, p: Progress, e: Event, plan: Plan)
    requires e.Served? && p.advances
    requires GoodBatch(rows, plan.analyzer, plan.kind, plan.now, plan.options)
    requires forall r :: r in rows && r.ts != 0 ==> In(r.ts, Window(e.lo, e.hi))
    ensures forall r :: r in rows ==> CanDo(Do(p, e), Recorded(r.ts))
  {
  }

  function ContextOf(w: World, n: nat, plan: Plan): Context {
    Context(ThresholdsOf(w.history(n)), plan.now, plan.options)
  }

  /** A page is judged by the run's clock and options and the thresholds of the history
      loaded with its chunk. */
  lemma JudgedByItsHistory(w: World, n: nat, plan: Plan, reg: nat)
    requires reg < CUMULATIVE_REGISTERS
    ensures var ctx := ContextOf(w, n, plan);
      ctx.now == plan.now && ctx.options == plan.options && ctx.thresholds[reg] == ThresholdOf(w.history(n), reg)
  {
  }

  /** Checks a page and counts what it refuses. */
  method CheckAndCount(acc: Accumulator, streak: SanityStreak, w: World, loadedAt: nat, plan: Plan, prev: Option<Reading>,
                       rows: seq<Reading>, ghost verdicts: seq<Verdict>)
    returns (valid: seq<Reading>, ghost after: seq<Verdict>)
    requires Obeys(FRESH, verdicts) && After(FRESH, verdicts) == streak.Value()
    modifies acc`skipped, streak
    ensures valid == Accepted(prev, old(streak.Value()), rows, plan.analyzer, plan.kind, ContextOf(w, loadedAt, plan))
    ensures GoodBatch(valid, plan.analyzer, plan.kind, plan.now, plan.options) && forall r :: r in valid ==> r in rows
    ensures after == verdicts
      + PassOf(prev, old(streak.Value()), rows, plan.analyzer, plan.kind, ContextOf(w, loadedAt, plan)).verdicts
    ensures acc.skipped == old(acc.skipped)
      + |Refused(prev, old(streak.Value()), rows, plan.analyzer, plan.kind, ContextOf(w, loadedAt, plan))|
    ensures streak.Value() == PassOf(prev, old(streak.Value()), rows, plan.analyzer, plan.kind, ContextOf(w, loadedAt, plan)).streak
    ensures Obeys(FRESH, after) && After(FRESH, after) == streak.Value()
  {
    ghost var ctx := ContextOf(w, loadedAt, plan);
    VerdictsOneMore(verdicts, streak.Value(), prev, rows, plan.analyzer, plan.kind, ctx);
    AcceptedIsGood(prev, streak.Value(), rows, plan.analyzer, plan.kind, ctx);
    after := verdicts + PassOf(prev, streak.Value(), rows, plan.analyzer, plan.kind, ctx).verdicts;
    var refused, flags;
    valid, refused, flags := CheckPage(prev, w.history(loadedAt), rows, plan.analyzer, plan.kind, plan.now, plan.options, streak);
    acc.skipped := acc.skipped + |refused|;
  }

  /** What a page does to the log: the frontier never moves back, and a served
      page takes it to the page's end. */
  ghost predicate LogAfter(base: Base, before: seq<Event>, after: seq<Event>, hi: int, ok: bool) {
    && Replay(base.start, after).frontier >= Replay(base.start, before).frontier
    && (ok ==> Replay(base.start, after).frontier >= hi)
  }

  lemma LogAfterServed(base: Base, before: seq<Event>, lo: int, hi: int, valid: seq<Reading>)
    ensures Replay(base.start, before + [Served(lo, hi, valid)]) == Do(Replay(base.start, before), Served(lo, hi, valid))
    ensures LogAfter(base, before, before + [Served(lo, hi, valid)], hi, true)
  {
    DisciplinedExtends(base.start, before, Served(lo, hi, valid));
  }

  /** The page's timestamp was recorded, or not yet. */
  predicate MayRecord(before: seq<Event>, after: seq<Event>, rows: seq<Reading>, kind: Kind, advances: bool) {
    after == before || after == before + Records(rows, kind, advances)
  }

  lemma LogAfterRecorded(base: Base, before: seq<Event>, served: seq<Event>, after: seq<Event>, hi: int, rows: seq<Reading>,
                         kind: Kind, advances: bool)
    requires LogAfter(base, before, served, hi, true)
    requires MayRecord(served, after, rows, kind, advances)
    ensures LogAfter(base, before, after, hi, true) && BatchesOf(after) == BatchesOf(served)
  {
    if after != served {
      var e := Records(rows, kind, advances)[0];
      assert after == served + [e];
      BatchesExtend(served, e);
      DisciplinedExtends(base.start, served, e);
    }
  }

  lemma ServedWatermark(base: Base, log: seq<Event>, lo: int, hi: int, valid: seq<Reading>)
    ensures CursorAfter(base.last, log + [Served(lo, hi, valid)]) == CursorAfter(base.last, log)
  {
    assert (log + [Served(lo, hi, valid)])[..|log|] == log;
  }

  lemma RecordedUpToDate(log: seq<Event>, after: seq<Event>, valid: seq<Reading>, kind: Kind, advances: bool)
    requires WellRecorded(log, kind, advances) && log != [] && log[|log| - 1].Served? && log[|log| - 1].rows == valid
    requires MayRecord(log, after, valid, kind, advances)
    ensures WellRecorded(after, kind, advances)
    ensures after == log + Records(valid, kind, advances) ==> !Owing(after, kind, advances)
    ensures forall last :: after == log + Records(valid, kind, advances) ==>
      CursorAfter(last, after) == CursorAfter(CursorAfter(last, log), Records(valid, kind, advances))
  {
    var records := Records(valid, kind, advances);
    assert records == [] ==> log + records == log;
    if after != log {
      RecordedWell(log, kind, advances);
      assert after == log + [records[0]] && after[..|log|] == log && records[..0] == [];
    }
  }

  // ----- A page to its end, or to the call that fails

  /** After a page was stored and its hooks succeeded: falls, cursor, hourly values. */
  method FinishPage(store: Store, acc: Accumulator, w: World, plan: Plan, advances: bool, p: PageIn, kindRows: seq<Reading>,
                    ghost base: Base, ghost before: seq<Event>, ghost log: seq<Event>, ghost stored: seq<seq<Reading>>)
    returns (err: Option<FetchError>, newPrev: Option<Reading>, ghost after: seq<Event>)
    requires kindRows == OfKind(p.accepted, plan.kind)
    requires CursorOk(base, store.cursor, log) && log == before + [Served(p.lo, p.hi, p.accepted)]
    requires base.start.advances == advances
    requires GoodBatch(p.accepted, plan.analyzer, plan.kind, plan.now, plan.options)
    requires forall r :: r in p.accepted && r.ts != 0 ==> In(r.ts, Window(p.lo, p.hi))
    requires UpToDate(base, store.lastReadingAt, plan.kind, before)
    modifies store`cursor, store`lastReadingAt, store`anomalies, acc`anomaliesCreated
    ensures WellRecorded(after, plan.kind, advances)
    ensures err.None? ==> UpToDate(base, store.lastReadingAt, plan.kind, after)
    ensures CursorOk(base, store.cursor, after)
    ensures LogAfter(base, before, after, p.hi, true) && BatchesOf(after) == BatchesOf(log)
    ensures err.None? ==> newPrev == NextPrev(p.prev, p.accepted, plan.kind)
    ensures FinishEnds(old(Here(store, log, stored)), Here(store, after, stored), w, plan, advances, p, err)
  {
    hide RowsBreak, RowsPass, CursorOk, WellRecorded, Owing, LogAfter, BatchesOf, AnomaliesOf, GoodBatch;
    err, newPrev, after := None, p.prev, log;
    ServedWell(before, p.lo, p.hi, p.accepted, plan.kind, advances);
    ServedWatermark(base, before, p.lo, p.hi, p.accepted);
    LogAfterServed(base, before, p.lo, p.hi, p.accepted);
    if |kindRows| > 0 {
      if advances {
        RecordableRows(p.accepted, Replay(base.start, before), Served(p.lo, p.hi, p.accepted), plan);
      }
      err, newPrev, after := ServeKindRows(store, acc, w, plan, advances, p, kindRows, base, log, stored);
      if err.Some? {
        RowErrors(old(Here(store, log, stored)), Here(store, after, stored), w, plan, advances, p, err.value);
        LogAfterRecorded(base, before, log, after, p.hi, p.accepted, plan.kind, advances);
        RecordedUpToDate(log, after, p.accepted, plan.kind, advances);
        return;
      }
    } else {
      NoRows(Here(store, log, stored), w, plan, advances, p);
    }
    LogAfterRecorded(base, before, log, after, p.hi, p.accepted, plan.kind, advances);
    RecordedUpToDate(log, after, p.accepted, plan.kind, advances);
    err := if w.fails(p.n, HourlyCall) then Some(CallFailed(p.n, HourlyCall)) else None;
  }

  lemma NoRows(s: Mark, w: World, plan: Plan, advances: bool, p: PageIn)
    requires OfKind(p.accepted, plan.kind) == []
    ensures RowsPass(s.anomalies, w, plan, advances, p) && AfterRows(s, w, plan, advances, p) == s
  {
    assert s.log + [] == s.log;
  }

  /** What one page adds to the batches: nothing when it accepted nothing or the
      insert failed; otherwise its accepted rows, hooked or not. */
  ghost predicate BatchStep(trail: Trail, after: Trail, valid: seq<Reading>, ok: bool) {
    && after.verdicts == trail.verdicts
    && (after.stored == trail.stored || (valid != [] && after.stored == trail.stored + [valid]))
    && (after.hooked == trail.hooked
        || (valid != [] && after.stored == trail.stored + [valid] && after.hooked == trail.hooked + [valid]))
    && (ok && valid != [] ==> after.stored == trail.stored + [valid] && after.hooked == trail.hooked + [valid])
  }

  lemma HooksKept(trail: Trail, log: seq<Event>)
    requires HooksServed(trail) && BatchesOf(log) == BatchesOf(trail.log)
    ensures HooksServed(trail.(log := log))
  {
  }

  /** A page with accepted rows. */
  method ServeBatch(store: Store, acc: Accumulator, w: World, n: nat, plan: Plan, prev: Option<Reading>,
                       req: Window, hi: int, valid: seq<Reading>, advances: bool, ghost base: Base, ghost trail: Trail)
    returns (err: Option<FetchError>, newPrev: Option<Reading>, ghost after: Trail)
    requires valid != [] && StoredOf(base, store, trail)
    requires CountsOf(acc, plan, trail) && HooksServed(trail) && base.start.advances == advances
    requires base.start.from <= req.from <= Replay(base.start, trail.log).frontier
    requires GoodBatch(valid, plan.analyzer, plan.kind, plan.now, plan.options)
    requires forall r :: r in valid && r.ts != 0 ==> In(r.ts, Window(req.from, hi))
    requires UpToDate(base, store.lastReadingAt, plan.kind, trail.log)
    modifies store, acc`processed, acc`affectedFrom, acc`affectedTo, acc`hasLoadProfile, acc`anomaliesCreated
    ensures StoredOf(base, store, after)
    ensures CountsOf(acc, plan, after) && HooksServed(after)
    ensures LogAfter(base, trail.log, after.log, hi, err.None?)
    ensures err.None? ==> newPrev == NextPrev(prev, valid, plan.kind)
    ensures BatchStep(trail, after, valid, err.None?)
    ensures PageEnds(old(MarkOf(store, trail)), MarkOf(store, after), w, plan, advances, PageIn(n, prev, req.from, hi, valid), err)
    ensures WellRecorded(after.log, plan.kind, advances)
    ensures err.None? ==> UpToDate(base, store.lastReadingAt, plan.kind, after.log)
  {
    hide HooksServed, CountsMatch, CursorOk, BatchesOf, UpsertedAll, WellRecorded, FinishBreaks, RowsPass, AfterRows;
    newPrev := prev;
    var p := PageIn(n, prev, req.from, hi, valid);
    var kindRows := ReadingsOfKind(valid, plan.kind);
    err, after := StorePage(store, acc, w, n, plan, req, hi, valid, kindRows, base, trail);
    if err.Some? {
      return;
    }
    ghost var log;
    err, newPrev, log := FinishPage(store, acc, w, plan, advances, p, kindRows, base, trail.log, after.log, after.stored);
    HooksKept(after, log);
    after := after.(log := log);
    FinishIsNoStoring(old(MarkOf(store, trail)), MarkOf(store, after), w, plan, advances, p, err);
  }

  lemma FinishIsNoStoring(m: Mark, t: Mark, w: World, plan: Plan, advances: bool, p: PageIn, err: Option<FetchError>)
    requires FinishEnds(ServedMark(m, p), t, w, plan, advances, p, err) && p.accepted != []
    requires !w.fails(p.n, BulkInsertCall) && !w.fails(p.n, HookCall)
    ensures PageEnds(m, t, w, plan, advances, p, err)
  {
    hide FallsPass, FallsOf, OfKind, Records, RowsBreak, RowsPass;
    if err.Some? && RowsBreak(ServedMark(m, p), t, w, plan, advances, p, err.value) {
      RowErrors(ServedMark(m, p), t, w, plan, advances, p, err.value);
    }
  }

  /** Stores and serves the accepted rows of a page. */
  method ServeAccepted(store: Store, acc: Accumulator, w: World, n: nat, plan: Plan, prev: Option<Reading>,
                       req: Window, hi: int, valid: seq<Reading>, advances: bool, ghost base: Base, ghost trail: Trail)
    returns (err: Option<FetchError>, newPrev: Option<Reading>, ghost after: Trail)
    requires StoredOf(base, store, trail)
    requires CountsOf(acc, plan, trail) && HooksServed(trail) && base.start.advances == advances
    requires base.start.from <= req.from <= Replay(base.start, trail.log).frontier
    requires GoodBatch(valid, plan.analyzer, plan.kind, plan.now, plan.options)
    requires forall r :: r in valid && r.ts != 0 ==> In(r.ts, Window(req.from, hi))
    requires UpToDate(base, store.lastReadingAt, plan.kind, trail.log)
    modifies store, acc`processed, acc`affectedFrom, acc`affectedTo, acc`hasLoadProfile, acc`anomaliesCreated
    ensures StoredOf(base, store, after)
    ensures CountsOf(acc, plan, after) && HooksServed(after)
    ensures LogAfter(base, trail.log, after.log, hi, err.None?)
    ensures err.None? ==> newPrev == NextPrev(prev, valid, plan.kind)
    ensures BatchStep(trail, after, valid, err.None?)
    ensures PageEnds(old(MarkOf(store, trail)), MarkOf(store, after), w, plan, advances, PageIn(n, prev, req.from, hi, valid), err)
    ensures WellRecorded(after.log, plan.kind, advances)
    ensures err.None? ==> UpToDate(base, store.lastReadingAt, plan.kind, after.log)
  {
    if |valid| > 0 {
      err, newPrev, after := ServeBatch(store, acc, w, n, plan, prev, req, hi, valid, advances, base, trail);
      return;
    }
    ServedOneMore(base, store.cursor, trail.log, req.from, hi, valid);
    LogAfterServed(base, trail.log, req.from, hi, valid);
    BatchesExtend(trail.log, Served(req.from, hi, valid));
    ServedWell(trail.log, req.from, hi, valid, plan.kind, advances);
    ServedWatermark(base, trail.log, req.from, hi, valid);
    err, newPrev, after := None, prev, trail.(log := trail.log + [Served(req.from, hi, valid)]);
    NothingAccepted(old(MarkOf(store, trail)), MarkOf(store, after), w, plan, advances, PageIn(n, prev, req.from, hi, valid));
  }

  lemma NothingAccepted(m: Mark, t: Mark, w: World, plan: Plan, advances: bool, p: PageIn)
    requires p.accepted == [] && t == m.(log := m.log + [Served(p.lo, p.hi, p.accepted)])
    ensures PageEnds(m, t, w, plan, advances, p, None)
  {
    assert m.stored + [] == m.stored;
    NoRows(ServedMark(m, p), w, plan, advances, p);
  }

  lemma TrailOkAfter(plan: Plan, streak: Streak, trail: Trail, after: Trail, valid: seq<Reading>, ok: bool)
    requires TrailOk(plan, streak, trail) && BatchStep(trail, after, valid, ok) && HooksServed(after)
    requires GoodBatch(valid, plan.analyzer, plan.kind, plan.now, plan.options)
    ensures TrailOk(plan, streak, after)
  {
    if after.stored != trail.stored {
      assert after.stored[..|trail.stored|] == trail.stored;
    }
  }

  /** The page the adapter's reply becomes. */
  ghost function PageOf(n: nat, prev: Option<Reading>, streak: Streak, req: Window, reply: Reply, plan: Plan, ctx: Context): PageIn {
    PageIn(n, prev, req.from, PageEnd(req, reply), Accepted(prev, streak, reply.rows, plan.analyzer, plan.kind, ctx))
  }

  /** One page after the adapter answered: check it, store it, serve it, and move
      the cursor. A failure anywhere leaves a disciplined trail. */
  method ServePage(store: Store, acc: Accumulator, streak: SanityStreak, w: World, n: nat, loadedAt: nat, plan: Plan,
                   prev: Option<Reading>, req: Window, reply: Reply, advances: bool, ghost base: Base, ghost trail: Trail)
    returns (err: Option<FetchError>, newPrev: Option<Reading>, ghost after: Trail)
    requires RunInv(store, acc, streak, plan, base, trail) && base.start.advances == advances
    requires base.start.from <= req.from <= Replay(base.start, trail.log).frontier
    requires forall r :: r in reply.rows && r.ts != 0 ==> In(r.ts, Window(req.from, PageEnd(req, reply)))
    requires UpToDate(base, store.lastReadingAt, plan.kind, trail.log)
    modifies store, acc, streak
    ensures RunInv(store, acc, streak, plan, base, after)
    ensures WellRecorded(after.log, plan.kind, advances)
    ensures err.None? ==> UpToDate(base, store.lastReadingAt, plan.kind, after.log)
    ensures LogAfter(base, trail.log, after.log, PageEnd(req, reply), err.None?)
    ensures after.verdicts == trail.verdicts
      + PassOf(prev, old(streak.Value()), reply.rows, plan.analyzer, plan.kind, ContextOf(w, loadedAt, plan)).verdicts
    ensures acc.skipped == old(acc.skipped)
      + |Refused(prev, old(streak.Value()), reply.rows, plan.analyzer, plan.kind, ContextOf(w, loadedAt, plan))|
    ensures streak.Value()
      == PassOf(prev, old(streak.Value()), reply.rows, plan.analyzer, plan.kind, ContextOf(w, loadedAt, plan)).streak
    ensures var p := PageOf(n, prev, old(streak.Value()), req, reply, plan, ContextOf(w, loadedAt, plan));
      && PageEnds(old(MarkOf(store, trail)), MarkOf(store, after), w, plan, advances, p, err)
      && (err.None? ==> newPrev == NextPrev(prev, p.accepted, plan.kind))
  {
    hide PageEnds, NextPrev, Accepted, PassOf, WellRecorded, UpToDate, LogAfter;
    var valid;
    ghost var verdicts;
    valid, verdicts := CheckAndCount(acc, streak, w, loadedAt, plan, prev, reply.rows, trail.verdicts);
    ghost var checked := trail.(verdicts := verdicts);
    err, newPrev, after := ServeAccepted(store, acc, w, n, plan, prev, req, PageEnd(req, reply), valid, advances, base, checked);
    TrailOkAfter(plan, streak.Value(), checked, after, valid, err.None?);
  }
}
