/** FetchReadings end to end (internal/ingest/fetch.go): the checks before the
    window is resolved, the loops over chunks and pages, and how a run ends. */
module FetchRun {
  import opened Readings
  import opened Validation
  import opened ValidationProperties
  import opened Page
  import opened Paging
  import opened RunLog
  import opened Fetch
  import Anomalies

  // ----- The checks before anything is fetched

  datatype AnalyzerRow = AnalyzerRow(active: bool, deleted: bool, provider: nat, subtype: nat)

  /** `model` is the provider as analyzers record it, when it has such a name;
      `served` says whether a source is registered for it. */
  datatype CredentialRow = CredentialRow(active: bool, served: bool, model: Option<nat>, subtype: nat)

  /** None stands for a read that failed; `cursorRow`: a cursor row exists even
      when it holds no timestamp yet. */
  datatype Setup = Setup(recorded: bool, analyzer: Option<AnalyzerRow>, credential: Option<CredentialRow>,
                         cursorFails: bool, cursorRow: bool)

  datatype Status = Success | Partial | Failed

  /** Why a run ends before it fetches anything. */
  datatype SetupError = AnalyzerRead | CredentialRead | CredentialInactive | NoSource | WrongProvider | WrongSubtype | CursorRefused

  datatype RunError = InSetup(setup: SetupError) | InFetch(fetch: FetchError)

  /** How a run ends: no job row, or a job row with a status and maybe an error. */
  datatype Ending = NotRecorded | Ended(status: Status, error: Option<RunError>)

  function FailedSetup(e: SetupError): (r: Ending)
    ensures r.Ended? && r.status == Failed && r.error == Some(InSetup(e))
  {
    Ended(Failed, Some(InSetup(e)))
  }

  function Denied(e: SetupError): Option<Ending> {
    Some(FailedSetup(e))
  }

  /** None: go on and fetch. An inactive analyzer is no failure. */
  function Preflight(s: Setup): Option<Ending> {
    if !s.recorded then Some(NotRecorded)
    else if s.analyzer.None? then Denied(AnalyzerRead)
    else if !s.analyzer.value.active || s.analyzer.value.deleted then Some(Ended(Success, None))
    else if s.credential.None? then Denied(CredentialRead)
    else if !s.credential.value.active then Denied(CredentialInactive)
    else if !s.credential.value.served then Denied(NoSource)
    else if s.credential.value.model != Some(s.analyzer.value.provider) then Denied(WrongProvider)
    else if s.credential.value.subtype != s.analyzer.value.subtype then Denied(WrongSubtype)
    else None
  }

  /** A run goes on to fetch exactly when its job row was recorded, the analyzer was
      read and is live, and the credential was read, is active and served, and is of the
      analyzer's provider and subtype. */
  lemma FetchesExactlyWhen(s: Setup)
    ensures Preflight(s).None? <==>
      && s.recorded
      && s.analyzer.Some? && s.analyzer.value.active && !s.analyzer.value.deleted
      && s.credential.Some? && s.credential.value.active && s.credential.value.served
      && s.credential.value.model == Some(s.analyzer.value.provider)
      && s.credential.value.subtype == s.analyzer.value.subtype
  {
  }

  function FetchRunStatus(failedPages: nat, anyPersisted: bool): Status {
    if failedPages == 0 then Success else if anyPersisted then Partial else Failed
  }

  // ----- What the adapter answers to one chunk

  /** A chunk as it begins: the number of its first page, its window, the streak. */
  datatype ChunkStart = ChunkStart(first: nat, window: Window, streak: Streak)

  /** Where its request k starts: at the chunk's start, then where the reply before
      it says. */
  function RequestFrom(w: World, c: ChunkStart, k: nat): int
    decreases k, 0
  {
    if k == 0 then c.window.from
    else
      var next := ReplyAt(w, c, k - 1).next;
      if next.Some? then next.value else c.window.to
  }

  function RequestAt(w: World, c: ChunkStart, k: nat): Window
    decreases k, 1
  {
    Window(RequestFrom(w, c, k), c.window.to)
  }

  function ReplyAt(w: World, c: ChunkStart, k: nat): Reply
    decreases k, 2
  {
    w.fetch(c.first + k, RequestAt(w, c, k))
  }

  /** The rows of the first k replies. */
  function RepliesTo(w: World, c: ChunkStart, k: nat): seq<seq<Reading>> {
    if k == 0 then [] else RepliesTo(w, c, k - 1) + [ReplyAt(w, c, k - 1).rows]
  }

  /** Each of the first k replies names a later next page. */
  ghost predicate GoesOn(w: World, c: ChunkStart, k: nat) {
    forall i: nat | i < k :: ReplyAt(w, c, i).next.Some? && ReplyAt(w, c, i).next.value > RequestFrom(w, c, i)
  }

  /** The chunk has exactly k pages: the last reply names no next one. */
  ghost predicate EndsAfter(w: World, c: ChunkStart, k: nat) {
    k > 0 && GoesOn(w, c, k - 1) && ReplyAt(w, c, k - 1).next.None?
  }

  lemma EndsOnce(w: World, c: ChunkStart, k: nat, j: nat)
    requires EndsAfter(w, c, k) && EndsAfter(w, c, j)
    ensures k == j
  {
    var lastOfK: nat, lastOfJ: nat := k - 1, j - 1;
    assert k < j ==> ReplyAt(w, c, lastOfK).next.Some?;
    assert j < k ==> ReplyAt(w, c, lastOfJ).next.Some?;
  }

  /** A chunk that ends in its k pages has no request number k or later. */
  lemma EndsBeyond(w: World, c: ChunkStart, k: nat, i: nat)
    requires EndsAfter(w, c, k) && GoesOn(w, c, i)
    ensures i < k
  {
    var last: nat := k - 1;
    assert last < i ==> ReplyAt(w, c, last).next.Some?;
  }

  lemma FirstRequest(w: World, c: ChunkStart)
    ensures GoesOn(w, c, 0) && RequestAt(w, c, 0) == c.window && RequestFrom(w, c, 0) == c.window.from
  {
  }

  lemma NextRequest(w: World, c: ChunkStart, k: nat)
    requires GoesOn(w, c, k)
    ensures var next := ReplyAt(w, c, k).next;
      && (next.Some? && next.value > RequestFrom(w, c, k) ==>
           GoesOn(w, c, k + 1) && RequestFrom(w, c, k + 1) == next.value
           && RequestAt(w, c, k + 1) == Window(next.value, c.window.to))
      && (next.None? ==> EndsAfter(w, c, k + 1))
  {
  }

  // ----- What a chunk's pages amount to

  ghost function OutcomeAfter(w: World, c: ChunkStart, plan: Plan, k: nat): Outcome {
    RunPages(w.latest(c.first), c.streak, RepliesTo(w, c, k), plan.analyzer, plan.kind, ContextOf(w, c.first, plan))
  }

  /** Page k of the chunk, as the pages before it leave the previous reading and the
      streak. */
  ghost function PageAt(w: World, c: ChunkStart, plan: Plan, k: nat): PageIn {
    var q := OutcomeAfter(w, c, plan, k);
    PageOf(c.first + k, q.prev, q.streak, RequestAt(w, c, k), ReplyAt(w, c, k), plan, ContextOf(w, c.first, plan))
  }

  /** The run after the first k pages of the chunk were served to their ends. */
  ghost function ChunkMark(m: Mark, w: World, plan: Plan, advances: bool, c: ChunkStart, k: nat): Mark {
    if k == 0 then m
    else AfterPage(ChunkMark(m, w, plan, advances, c, k - 1), w, plan, advances, PageAt(w, c, plan, k - 1))
  }

  /** The run stands after k pages of the chunk. */
  ghost predicate ChunkAt(m: Mark, t: Mark, w: World, plan: Plan, advances: bool, c: ChunkStart, k: nat, prev: Option<Reading>,
                          streak: Streak) {
    && t == ChunkMark(m, w, plan, advances, c, k)
    && prev == OutcomeAfter(w, c, plan, k).prev && streak == OutcomeAfter(w, c, plan, k).streak
  }

  /** The chunk's two loads: the first that fails, if one does. */
  function LoadError(w: World, n: nat): Option<FetchError> {
    if w.fails(n, LatestRead) then Some(CallFailed(n, LatestRead))
    else if w.fails(n, HistoryRead) then Some(CallFailed(n, HistoryRead))
    else None
  }

  /** The adapter answers, nothing keeps its page from its end, and the next page, if
      any, is a later one. */
  ghost predicate AskPasses(table: seq<Anomalies.Anomaly>, w: World, plan: Plan, advances: bool, p: PageIn, req: Window) {
    && !w.fails(p.n, AdapterFetch) && PagePasses(table, w, plan, advances, p)
    && var next := w.fetch(p.n, req).next;
       next.Some? ==> next.value > req.from
  }

  /** Or the adapter fails, or the page breaks, or it goes through and the next page
      is not a later one. */
  ghost predicate AskBreaks(m: Mark, t: Mark, w: World, plan: Plan, advances: bool, p: PageIn, req: Window, e: FetchError) {
    if w.fails(p.n, AdapterFetch) then e == CallFailed(p.n, AdapterFetch) && t == m
    else if e == BadNextCursor(p.n, req) then
      && PagePasses(m.anomalies, w, plan, advances, p) && t == AfterPage(m, w, plan, advances, p)
      && var next := w.fetch(p.n, req).next;
         next.Some? && next.value <= req.from
    else PageBreaks(m, t, w, plan, advances, p, e)
  }

  ghost predicate AskEnds(m: Mark, t: Mark, w: World, plan: Plan, advances: bool, p: PageIn, req: Window,
                          err: Option<FetchError>) {
    match err
    case None => AskPasses(m.anomalies, w, plan, advances, p, req) && t == AfterPage(m, w, plan, advances, p)
    case Some(e) => AskBreaks(m, t, w, plan, advances, p, req, e)
  }

  /** Page k of the chunk is within the page limit and goes through to its end, its
      chunk's loads with the first one. */
  ghost predicate StepPasses(m: Mark, w: World, plan: Plan, advances: bool, c: ChunkStart, k: nat) {
    && c.first + k <= plan.maxPages && (k == 0 ==> LoadError(w, c.first).None?)
    && AskPasses(ChunkMark(m, w, plan, advances, c, k).anomalies, w, plan, advances, PageAt(w, c, plan, k), RequestAt(w, c, k))
  }

  /** Or the run ends in it, at t, with this error. */
  ghost predicate StepBreaks(m: Mark, t: Mark, w: World, plan: Plan, advances: bool, c: ChunkStart, k: nat, e: FetchError) {
    var n, at := c.first + k, ChunkMark(m, w, plan, advances, c, k);
    if n > plan.maxPages then e == TooManyPages(n) && t == at
    else if k == 0 && LoadError(w, n).Some? then LoadError(w, n) == Some(e) && t == at
    else AskBreaks(at, t, w, plan, advances, PageAt(w, c, plan, k), RequestAt(w, c, k), e)
  }

  /** The first k pages of the chunk go through. */
  ghost predicate ChunkPasses(m: Mark, w: World, plan: Plan, advances: bool, c: ChunkStart, k: nat) {
    forall i: nat | i < k :: StepPasses(m, w, plan, advances, c, i)
  }

  lemma PageErrors(m: Mark, t: Mark, w: World, plan: Plan, advances: bool, p: PageIn, e: FetchError)
    requires PageBreaks(m, t, w, plan, advances, p, e)
    ensures e.CallFailed? || e.InvalidRange?
  {
    hide RowsPass, RowsBreak, AfterRows, OfKind;
    if RowsBreak(ServedMark(m, p), t, w, plan, advances, p, e) {
      RowErrors(ServedMark(m, p), t, w, plan, advances, p, e);
    }
  }

  lemma StepPassesOrBreaks(m: Mark, t: Mark, w: World, plan: Plan, advances: bool, c: ChunkStart, k: nat, e: FetchError)
    requires StepBreaks(m, t, w, plan, advances, c, k, e)
    ensures !StepPasses(m, w, plan, advances, c, k)
  {
    hide PagePasses, PageBreaks, AfterPage, PageAt, ChunkMark, ReplyAt, RequestFrom;
    var at, p := ChunkMark(m, w, plan, advances, c, k), PageAt(w, c, plan, k);
    PageMeaning(w, c, plan, k);
    if PageBreaks(at, t, w, plan, advances, p, e) {
      PassesOrBreaks(at, t, w, plan, advances, p, e);
    }
  }

  lemma StepBreaksOneWay(m: Mark, t: Mark, u: Mark, w: World, plan: Plan, advances: bool, c: ChunkStart, k: nat, e: FetchError,
                         f: FetchError)
    requires StepBreaks(m, t, w, plan, advances, c, k, e) && StepBreaks(m, u, w, plan, advances, c, k, f)
    ensures t == u && e == f
  {
    hide PagePasses, PageBreaks, AfterPage, PageAt, ChunkMark, ReplyAt, RequestFrom;
    var at, p := ChunkMark(m, w, plan, advances, c, k), PageAt(w, c, plan, k);
    if PageBreaks(at, t, w, plan, advances, p, e) {
      PageErrors(at, t, w, plan, advances, p, e);
      PassesOrBreaks(at, t, w, plan, advances, p, e);
      if PageBreaks(at, u, w, plan, advances, p, f) {
        BreaksOneWay(at, t, u, w, plan, advances, p, e, f);
      }
    }
    if PageBreaks(at, u, w, plan, advances, p, f) {
      PageErrors(at, u, w, plan, advances, p, f);
      PassesOrBreaks(at, u, w, plan, advances, p, f);
    }
  }

  lemma PageMeaning(w: World, c: ChunkStart, plan: Plan, k: nat)
    ensures var q := OutcomeAfter(w, c, plan, k);
      PageAt(w, c, plan, k)
        == PageOf(c.first + k, q.prev, q.streak, RequestAt(w, c, k), ReplyAt(w, c, k), plan, ContextOf(w, c.first, plan))
    ensures PageAt(w, c, plan, k).n == c.first + k
    ensures ReplyAt(w, c, k) == w.fetch(c.first + k, RequestAt(w, c, k)) && RequestAt(w, c, k).to == c.window.to
    ensures RequestAt(w, c, k).from == RequestFrom(w, c, k)
  {
    hide OutcomeAfter, RequestFrom, Accepted;
  }

  lemma ChunkBegins(m: Mark, w: World, plan: Plan, advances: bool, c: ChunkStart)
    ensures ChunkAt(m, m, w, plan, advances, c, 0, w.latest(c.first), c.streak)
  {
  }

  lemma OneMoreReply(w: World, c: ChunkStart, plan: Plan, k: nat)
    ensures OutcomeAfter(w, c, plan, k + 1)
      == TakePage(OutcomeAfter(w, c, plan, k), ReplyAt(w, c, k).rows, plan.analyzer, plan.kind, ContextOf(w, c.first, plan))
  {
    hide TakePage;
    ReplyCount(w, c, k);
    assert RepliesTo(w, c, k + 1)[..k] == RepliesTo(w, c, k);
  }

  lemma OneMorePage(m: Mark, t: Mark, w: World, plan: Plan, advances: bool, c: ChunkStart, k: nat)
    requires t == AfterPage(ChunkMark(m, w, plan, advances, c, k), w, plan, advances, PageAt(w, c, plan, k))
    ensures var q, p := OutcomeAfter(w, c, plan, k), PageAt(w, c, plan, k);
      ChunkAt(m, t, w, plan, advances, c, k + 1, NextPrev(q.prev, p.accepted, plan.kind),
              PassOf(q.prev, q.streak, ReplyAt(w, c, k).rows, plan.analyzer, plan.kind, ContextOf(w, c.first, plan)).streak)
  {
    hide Accepted, PassOf, NextPrev, AfterPage, RunPages, ReplyAt, RepliesTo;
    OneMoreReply(w, c, plan, k);
  }

  lemma {:induction false} ReplyCount(w: World, c: ChunkStart, k: nat)
    ensures |RepliesTo(w, c, k)| == k
  {
    if k > 0 {
      ReplyCount(w, c, k - 1);
    }
  }

  /** The pages of a finished chunk lie end to end from its start to its end. */
  lemma PagesLieEndToEnd(w: World, c: ChunkStart, plan: Plan, k: nat, i: nat)
    requires EndsAfter(w, c, k) && i < k
    ensures PageAt(w, c, plan, 0).lo == c.window.from && PageAt(w, c, plan, k - 1).hi == c.window.to
    ensures i + 1 < k ==> PageAt(w, c, plan, i).lo < PageAt(w, c, plan, i).hi == PageAt(w, c, plan, i + 1).lo
  {
    hide Accepted, OutcomeAfter;
    if i + 1 < k {
      assert ReplyAt(w, c, i).next.Some?;
    }
  }

  lemma {:induction false} FlattenConcat(a: seq<seq<Reading>>, b: seq<seq<Reading>>)
    ensures Flatten(a + b) == Flatten(a) + Flatten(b)
  {
    if b == [] {
      assert a + b == a;
    } else {
      FlattenConcat(a, b[..|b| - 1]);
      assert (a + b)[..|a + b| - 1] == a + b[..|b| - 1];
    }
  }

  /** What a chunk's pages store is, in order, what they accept. */
  lemma {:induction false} ChunkStoresWhatItAccepts(m: Mark, w: World, plan: Plan, advances: bool, c: ChunkStart, k: nat)
    ensures Flatten(ChunkMark(m, w, plan, advances, c, k).stored) == Flatten(m.stored) + OutcomeAfter(w, c, plan, k).accepted
  {
    hide Accepted, PassOf, NextPrev, Notices, Records, AnomaliesOf, OutcomeAfter, BatchesIn, Flatten, ReplyAt, RequestAt;
    if k > 0 {
      ChunkStoresWhatItAccepts(m, w, plan, advances, c, k - 1);
      var before, p := ChunkMark(m, w, plan, advances, c, k - 1), PageAt(w, c, plan, k - 1);
      FlattenConcat(before.stored, BatchesIn(p.accepted));
      FlattenBatches(p.accepted);
      OneMoreReply(w, c, plan, k - 1);
    } else {
      NothingAcceptedYet(w, c, plan);
    }
  }

  lemma NothingAcceptedYet(w: World, c: ChunkStart, plan: Plan)
    ensures OutcomeAfter(w, c, plan, 0).accepted == []
  {
  }

  lemma FlattenBatches(accepted: seq<Reading>)
    ensures Flatten(BatchesIn(accepted)) == accepted
  {
    if accepted != [] {
      assert [accepted][..0] == [];
    }
  }

  // ----- One chunk

  lemma ChunkPassesNext(m: Mark, w: World, plan: Plan, advances: bool, c: ChunkStart, k: nat)
    ensures ChunkPasses(m, w, plan, advances, c, 0)
    ensures ChunkPasses(m, w, plan, advances, c, k + 1)
      <==> ChunkPasses(m, w, plan, advances, c, k) && StepPasses(m, w, plan, advances, c, k)
  {
    hide StepPasses;
  }

  /** One request: the adapter answers, the page is served, and the next page, if
      any, must start later. */
  method FetchPage(store: Store, acc: Accumulator, streak: SanityStreak, w: World, plan: Plan, req: Window, n: nat,
                   loadedAt: nat, prev: Option<Reading>, advances: bool, ghost base: Base, ghost trail: Trail)
    returns (err: Option<FetchError>, newPrev: Option<Reading>, next: Option<int>, ghost after: Trail)
    requires AdapterKeepsWindow(w)
    requires RunInv(store, acc, streak, plan, base, trail) && base.start.advances == advances
    requires base.start.from <= req.from <= Replay(base.start, trail.log).frontier
    requires UpToDate(base, store.lastReadingAt, plan.kind, trail.log)
    modifies store, acc, streak
    ensures RunInv(store, acc, streak, plan, base, after)
    ensures WellRecorded(after.log, plan.kind, advances)
    ensures err.None? ==> UpToDate(base, store.lastReadingAt, plan.kind, after.log)
    ensures err.None? && next.None? ==> Replay(base.start, after.log).frontier >= req.to
    ensures err.None? && next.Some? ==> req.from < next.value <= Replay(base.start, after.log).frontier
    ensures var reply, ctx := w.fetch(n, req), ContextOf(w, loadedAt, plan);
      var p := PageOf(n, prev, old(streak.Value()), req, reply, plan, ctx);
      && AskEnds(old(MarkOf(store, trail)), MarkOf(store, after), w, plan, advances, p, req, err)
      && (err.None? ==>
           && next == reply.next && newPrev == NextPrev(prev, p.accepted, plan.kind)
           && streak.Value() == PassOf(prev, old(streak.Value()), reply.rows, plan.analyzer, plan.kind, ctx).streak)
  {
    hide PageBreaks, PagePasses, AfterPage, RunInv, UpToDate, WellRecorded, Accepted, PassOf, NextPrev;
    newPrev, next, after := prev, None, trail;
    ghost var p := PageOf(n, prev, streak.Value(), req, w.fetch(n, req), plan, ContextOf(w, loadedAt, plan));
    if w.fails(n, AdapterFetch) {
      UpToDateWell(base, store.lastReadingAt, plan.kind, trail.log);
      return Some(CallFailed(n, AdapterFetch)), newPrev, next, after;
    }
    var reply := w.fetch(n, req);
    err, newPrev, after := ServePage(store, acc, streak, w, n, loadedAt, plan, prev, req, reply, advances, base, trail);
    if err.Some? {
      PageErrors(old(MarkOf(store, trail)), MarkOf(store, after), w, plan, advances, p, err.value);
      return;
    }
    next := reply.next;
    if next.Some? && next.value <= req.from {
      err := Some(BadNextCursor(n, req));
    }
  }

  /** The reading before the chunk and its trailing history, loaded with the
      chunk's first page. */
  method LoadChunk(w: World, n: nat) returns (err: Option<FetchError>, prev: Option<Reading>)
    ensures err == if w.fails(n, LatestRead) then Some(CallFailed(n, LatestRead))
                   else if w.fails(n, HistoryRead) then Some(CallFailed(n, HistoryRead)) else None
    ensures err.None? ==> prev == w.latest(n)
  {
    if w.fails(n, LatestRead) {
      return Some(CallFailed(n, LatestRead)), None;
    }
    prev := w.latest(n);
    err := if w.fails(n, HistoryRead) then Some(CallFailed(n, HistoryRead)) else None;
  }

  lemma UpToDateWell(base: Base, last: Option<int>, kind: Kind, log: seq<Event>)
    requires UpToDate(base, last, kind, log)
    ensures WellRecorded(log, kind, base.start.advances)
  {
  }

  /** Page k of a chunk; its previous reading is loaded with the first. */
  method NextPage(store: Store, acc: Accumulator, streak: SanityStreak, w: World, plan: Plan, req: Window, n: nat,
                  loaded: bool, prev: Option<Reading>, advances: bool, first: nat, ghost base: Base, ghost trail: Trail,
                  ghost m: Mark, ghost c: ChunkStart, ghost k: nat)
    returns (err: Option<FetchError>, newPrev: Option<Reading>, next: Option<int>, ghost after: Trail)
    requires AdapterKeepsWindow(w)
    requires RunInv(store, acc, streak, plan, base, trail) && base.start.advances == advances
    requires base.start.from <= req.from <= Replay(base.start, trail.log).frontier
    requires UpToDate(base, store.lastReadingAt, plan.kind, trail.log)
    requires c.first == first && n == first + k && req == RequestAt(w, c, k) && GoesOn(w, c, k) && (loaded <==> k > 0)
    requires ChunkAt(m, MarkOf(store, trail), w, plan, advances, c, k, if loaded then prev else w.latest(first), streak.Value())
    modifies store, acc, streak
    ensures RunInv(store, acc, streak, plan, base, after)
    ensures WellRecorded(after.log, plan.kind, advances)
    ensures err.None? ==> UpToDate(base, store.lastReadingAt, plan.kind, after.log)
    ensures err.None? ==> n <= plan.maxPages
    ensures err.None? && next.None? ==> Replay(base.start, after.log).frontier >= req.to
    ensures err.None? && next.Some? ==> req.from < next.value <= Replay(base.start, after.log).frontier
    ensures err.None? ==> next == ReplyAt(w, c, k).next
    ensures err.None? ==>
      StepPasses(m, w, plan, advances, c, k)
      && ChunkAt(m, MarkOf(store, after), w, plan, advances, c, k + 1, newPrev, streak.Value())
    ensures err.Some? ==> StepBreaks(m, MarkOf(store, after), w, plan, advances, c, k, err.value)
  {
    hide RunInv, WellRecorded, UpToDate, PageAt, OutcomeAfter, ChunkMark, PageOf, GoesOn, AskPasses, AskBreaks, AfterPage;
    hide RequestAt, ReplyAt, RequestFrom;
    UpToDateWell(base, store.lastReadingAt, plan.kind, trail.log);
    PageMeaning(w, c, plan, k);
    newPrev, next, after := prev, None, trail;
    if n > plan.maxPages {
      return Some(TooManyPages(n)), newPrev, next, after;
    }
    if !loaded {
      err, newPrev := LoadChunk(w, n);
      if err.Some? {
        return;
      }
    }
    err, newPrev, next, after := FetchPage(store, acc, streak, w, plan, req, n, first, newPrev, advances, base, trail);
    if err.None? {
      OneMorePage(m, MarkOf(store, after), w, plan, advances, c, k);
    }
  }

  /** The page loop of one chunk. `n` counts pages over the whole run; `k` pages of
      the chunk were served to their ends. */
  method FetchChunk(store: Store, acc: Accumulator, streak: SanityStreak, w: World, plan: Plan, chunk: Window, n0: nat,
                    advances: bool, ghost base: Base, ghost trail: Trail)
    returns (err: Option<FetchError>, n: nat, prev: Option<Reading>, ghost after: Trail, ghost k: nat)
    requires AdapterKeepsWindow(w)
    requires RunInv(store, acc, streak, plan, base, trail) && base.start.advances == advances
    requires base.start.from <= chunk.from <= Replay(base.start, trail.log).frontier
    requires UpToDate(base, store.lastReadingAt, plan.kind, trail.log)
    modifies store, acc, streak
    ensures RunInv(store, acc, streak, plan, base, after)
    ensures WellRecorded(after.log, plan.kind, advances)
    ensures err.None? ==> UpToDate(base, store.lastReadingAt, plan.kind, after.log)
    ensures err.Some? ==> n == n0 + 1 + k
    ensures err.None? ==> n == n0 + k && Replay(base.start, after.log).frontier >= chunk.to && n <= plan.maxPages
    ensures var c := ChunkStart(n0 + 1, chunk, old(streak.Value()));
      && ChunkPasses(old(MarkOf(store, trail)), w, plan, advances, c, k)
      && if err.None? then
           EndsAfter(w, c, k)
           && ChunkAt(old(MarkOf(store, trail)), MarkOf(store, after), w, plan, advances, c, k, prev, streak.Value())
         else
           GoesOn(w, c, k) && StepBreaks(old(MarkOf(store, trail)), MarkOf(store, after), w, plan, advances, c, k, err.value)
  {
    hide *;
    UpToDateWell(base, store.lastReadingAt, plan.kind, trail.log);
    err, n, prev, after, k := None, n0, None, trail, 0;
    ghost var m := MarkOf(store, trail);
    ghost var c := ChunkStart(n0 + 1, chunk, streak.Value());
    FirstRequest(w, c);
    ChunkBegins(m, w, plan, advances, c);
    ChunkPassesNext(m, w, plan, advances, c, 0);
    var loaded, reqFrom, more := false, chunk.from, true;
    while more
      invariant RunInv(store, acc, streak, plan, base, after)
      invariant WellRecorded(after.log, plan.kind, advances)
      invariant err.None? ==> UpToDate(base, store.lastReadingAt, plan.kind, after.log)
      invariant more ==> err.None? && base.start.from <= reqFrom <= Replay(base.start, after.log).frontier
      invariant !loaded ==> more && after == trail && reqFrom == chunk.from && streak.Value() == c.streak
      invariant !more && err.None? ==> Replay(base.start, after.log).frontier >= chunk.to && n <= plan.maxPages
      invariant more ==> GoesOn(w, c, k) && Window(reqFrom, chunk.to) == RequestAt(w, c, k) && (loaded <==> k > 0)
      invariant !more && err.None? ==> EndsAfter(w, c, k)
      invariant err.None? ==> n == n0 + k
      invariant err.None? ==> ChunkAt(m, MarkOf(store, after), w, plan, advances, c, k,
                                      if loaded then prev else w.latest(c.first), streak.Value())
      invariant !more && err.None? ==> loaded
      invariant ChunkPasses(m, w, plan, advances, c, k)
      invariant err.Some? ==> n == n0 + 1 + k && GoesOn(w, c, k)
      invariant err.Some? ==> StepBreaks(m, MarkOf(store, after), w, plan, advances, c, k, err.value)
      decreases more, plan.maxPages - n
    {
      n := n + 1;
      var next;
      PageMeaning(w, c, plan, k);
      NextRequest(w, c, k);
      err, prev, next, after := NextPage(store, acc, streak, w, plan, Window(reqFrom, chunk.to), n, loaded, prev, advances,
                                         n0 + 1, base, after, m, c, k);
      loaded, more := true, err.None? && next.Some?;
      if err.None? {
        ChunkPassesNext(m, w, plan, advances, c, k);
        k := k + 1;
      }
      if more {
        reqFrom := next.value;
      }
    }
  }

  // ----- The whole run

  const NOTHING := Trail([], [], [], [])

  /** What a run that got as far as its window leaves behind, failed or not. */
  ghost predicate LeavesGoodTrail(store: Store, plan: Plan, base: Base, trail: Trail)
    reads store`readings, store`cursor
  {
    && StoredOf(base, store, trail)
    && AllGood(trail.stored, plan)
    && Obeys(FRESH, trail.verdicts)
    && HooksServed(trail)
    && WellRecorded(trail.log, plan.kind, base.start.advances)
  }

  lemma StartsInvariant(store: Store, acc: Accumulator, streak: SanityStreak, plan: Plan, base: Base)
    requires acc.processed == 0 && acc.affectedFrom == None && acc.affectedTo == None && !acc.hasLoadProfile
    requires streak.Value() == FRESH && base.readings == store.readings && base.cursor == store.cursor
    ensures RunInv(store, acc, streak, plan, base, NOTHING)
  {
  }

  lemma {:induction false} RowCountPositive(batches: seq<seq<Reading>>, plan: Plan)
    requires AllGood(batches, plan)
    ensures RowCount(batches) > 0 <==> batches != []
  {
    if batches != [] {
      RowCountPositive(batches[..|batches| - 1], plan);
    }
  }

  function EndOf(chunks: seq<Window>, from: int): int {
    if chunks == [] then from else chunks[|chunks| - 1].to
  }

  /** What the run accepts on its first page. */
  ghost function FirstAccepted(w: World, plan: Plan, req: Window): seq<Reading> {
    Accepted(w.latest(1), FRESH, w.fetch(1, req).rows, plan.analyzer, plan.kind, ContextOf(w, 1, plan))
  }

  /** The run's first page accepts rows and its hooks are the first to fail. */
  ghost predicate StartsWithoutHooks(w: World, plan: Plan, chunks: seq<Window>) {
    && chunks != [] && 1 <= plan.maxPages && LoadError(w, 1).None? && !w.fails(1, AdapterFetch)
    && FirstAccepted(w, plan, chunks[0]) != [] && !w.fails(1, BulkInsertCall) && w.fails(1, HookCall)
  }

  /** Where a run stands between two chunks: pages asked for, streak, effect. */
  datatype RunAt = RunAt(pages: nat, streak: Streak, mark: Mark)

  /** The next chunk of a run that stands there. */
  function StartOf(at: RunAt, window: Window): ChunkStart {
    ChunkStart(at.pages + 1, window, at.streak)
  }

  /** The run after its first chunks were served to their ends, in counts[i] pages each. */
  ghost function RunAfter(m: Mark, w: World, plan: Plan, advances: bool, chunks: seq<Window>, counts: seq<nat>): RunAt
    requires |counts| <= |chunks|
  {
    if counts == [] then RunAt(0, FRESH, m)
    else
      var i, k := |counts| - 1, counts[|counts| - 1];
      var before := RunAfter(m, w, plan, advances, chunks, counts[..i]);
      var c := StartOf(before, chunks[i]);
      RunAt(before.pages + k, OutcomeAfter(w, c, plan, k).streak, ChunkMark(before.mark, w, plan, advances, c, k))
  }

  /** Those are the page counts, and all these pages went through: in each chunk the
      last reply, and no earlier one, names no next page. */
  ghost predicate AllPass(m: Mark, w: World, plan: Plan, advances: bool, chunks: seq<Window>, counts: seq<nat>)
    requires |counts| <= |chunks|
  {
    counts == [] ||
    (var i := |counts| - 1;
     var before := RunAfter(m, w, plan, advances, chunks, counts[..i]);
     && AllPass(m, w, plan, advances, chunks, counts[..i])
     && EndsAfter(w, StartOf(before, chunks[i]), counts[i])
     && ChunkPasses(before.mark, w, plan, advances, StartOf(before, chunks[i]), counts[i]))
  }

  /** The chunk the run stands before. */
  ghost function NextChunk(m: Mark, w: World, plan: Plan, advances: bool, chunks: seq<Window>, counts: seq<nat>): ChunkStart
    requires |counts| < |chunks|
  {
    StartOf(RunAfter(m, w, plan, advances, chunks, counts), chunks[|counts|])
  }

  /** The run comes to page k of the chunk after those: all pages before it went
      through. */
  ghost predicate Reaches(m: Mark, w: World, plan: Plan, advances: bool, chunks: seq<Window>, counts: seq<nat>, k: nat) {
    && |counts| < |chunks| && AllPass(m, w, plan, advances, chunks, counts)
    && var c := NextChunk(m, w, plan, advances, chunks, counts);
       GoesOn(w, c, k) && ChunkPasses(RunAfter(m, w, plan, advances, chunks, counts).mark, w, plan, advances, c, k)
  }

  /** That page goes through. */
  ghost predicate Passes(m: Mark, w: World, plan: Plan, advances: bool, chunks: seq<Window>, counts: seq<nat>, k: nat)
    requires |counts| < |chunks|
  {
    StepPasses(RunAfter(m, w, plan, advances, chunks, counts).mark, w, plan, advances,
               NextChunk(m, w, plan, advances, chunks, counts), k)
  }

  /** Every page the run comes to goes through. */
  ghost predicate NothingBreaks(m: Mark, w: World, plan: Plan, advances: bool, chunks: seq<Window>) {
    forall counts, k: nat :: Reaches(m, w, plan, advances, chunks, counts, k) ==> Passes(m, w, plan, advances, chunks, counts, k)
  }

  /** The rows accepted in the first chunks, chunk by chunk. */
  ghost function AcceptedIn(m: Mark, w: World, plan: Plan, advances: bool, chunks: seq<Window>, counts: seq<nat>): seq<Reading>
    requires |counts| <= |chunks|
  {
    if counts == [] then []
    else
      var i := |counts| - 1;
      var c := StartOf(RunAfter(m, w, plan, advances, chunks, counts[..i]), chunks[i]);
      AcceptedIn(m, w, plan, advances, chunks, counts[..i]) + OutcomeAfter(w, c, plan, counts[i]).accepted
  }

  /** Every chunk was asked for to its end, and the run did what the replies make of
      it: it stored, in order, what the chunks accept. */
  ghost predicate RunEnds(m: Mark, t: Mark, w: World, plan: Plan, advances: bool, chunks: seq<Window>, counts: seq<nat>) {
    && |counts| == |chunks| && AllPass(m, w, plan, advances, chunks, counts)
    && t == RunAfter(m, w, plan, advances, chunks, counts).mark
    && Flatten(t.stored) == Flatten(m.stored) + AcceptedIn(m, w, plan, advances, chunks, counts)
  }

  /** The run comes to page k of some chunk and ends in it, with this error. */
  ghost predicate RunBreaks(m: Mark, t: Mark, w: World, plan: Plan, advances: bool, chunks: seq<Window>, counts: seq<nat>,
                            k: nat, e: FetchError) {
    && Reaches(m, w, plan, advances, chunks, counts, k)
    && StepBreaks(RunAfter(m, w, plan, advances, chunks, counts).mark, t, w, plan, advances,
                  NextChunk(m, w, plan, advances, chunks, counts), k, e)
  }

  /** What a run did is what the adapter's replies make of it, up to its end or to
      the page that failed. */
  ghost predicate RunTrace(m: Mark, t: Mark, w: World, plan: Plan, advances: bool, chunks: seq<Window>, err: Option<FetchError>) {
    match err
    case None => exists counts :: RunEnds(m, t, w, plan, advances, chunks, counts)
    case Some(e) => exists counts, k: nat :: RunBreaks(m, t, w, plan, advances, chunks, counts, k, e)
  }

  lemma ChunkEnded(m: Mark, t: Mark, w: World, plan: Plan, advances: bool, chunks: seq<Window>, counts: seq<nat>, k: nat,
                   prev: Option<Reading>, streak: Streak)
    requires |counts| < |chunks| && AllPass(m, w, plan, advances, chunks, counts)
    requires var at := RunAfter(m, w, plan, advances, chunks, counts);
      var c := StartOf(at, chunks[|counts|]);
      EndsAfter(w, c, k) && ChunkPasses(at.mark, w, plan, advances, c, k)
      && ChunkAt(at.mark, t, w, plan, advances, c, k, prev, streak)
    ensures AllPass(m, w, plan, advances, chunks, counts + [k])
    ensures RunAfter(m, w, plan, advances, chunks, counts + [k])
      == RunAt(RunAfter(m, w, plan, advances, chunks, counts).pages + k, streak, t)
  {
    hide EndsAfter, ChunkPasses, ChunkMark, OutcomeAfter;
    assert (counts + [k])[..|counts|] == counts;
  }

  lemma RunBegins(m: Mark, w: World, plan: Plan, advances: bool, chunks: seq<Window>)
    ensures AllPass(m, w, plan, advances, chunks, []) && RunAfter(m, w, plan, advances, chunks, []) == RunAt(0, FRESH, m)
  {
  }

  /** What a run stores is, in order, what its chunks accept of the adapter's replies. */
  lemma {:induction false} RunStoresWhatItAccepts(m: Mark, w: World, plan: Plan, advances: bool, chunks: seq<Window>,
                                                  counts: seq<nat>)
    requires |counts| <= |chunks|
    ensures Flatten(RunAfter(m, w, plan, advances, chunks, counts).mark.stored)
      == Flatten(m.stored) + AcceptedIn(m, w, plan, advances, chunks, counts)
  {
    hide OutcomeAfter, ChunkMark, Flatten;
    if counts != [] {
      var i := |counts| - 1;
      var at := RunAfter(m, w, plan, advances, chunks, counts[..i]);
      RunStoresWhatItAccepts(m, w, plan, advances, chunks, counts[..i]);
      ChunkStoresWhatItAccepts(at.mark, w, plan, advances, StartOf(at, chunks[i]), counts[i]);
    }
  }

  /** The event of a page served to its end. */
  function ServedBy(p: PageIn): Event {
    Served(p.lo, p.hi, p.accepted)
  }

  lemma {:induction false} ChunkServesReplies(m: Mark, w: World, plan: Plan, advances: bool, c: ChunkStart, k: nat, e: Event)
    returns (i: nat)
    requires e.Served? && e in ChunkMark(m, w, plan, advances, c, k).log && e !in m.log
    ensures i < k && e == ServedBy(PageAt(w, c, plan, i))
  {
    hide PageAt, AnomaliesOf, BatchesIn;
    if e in ChunkMark(m, w, plan, advances, c, k - 1).log {
      i := ChunkServesReplies(m, w, plan, advances, c, k - 1, e);
    } else {
      i := k - 1;
    }
  }

  /** The event is that of a page the adapter answered: page k of the chunk the run came
      to after the chunks with these page counts. */
  ghost predicate IsReply(m: Mark, w: World, plan: Plan, advances: bool, chunks: seq<Window>, counts: seq<nat>, k: nat, e: Event) {
    && Reaches(m, w, plan, advances, chunks, counts, k)
    && e == ServedBy(PageAt(w, NextChunk(m, w, plan, advances, chunks, counts), plan, k))
  }

  lemma {:induction false} ChunksServeReplies(m: Mark, w: World, plan: Plan, advances: bool, chunks: seq<Window>,
                                              counts: seq<nat>, e: Event)
    requires |counts| <= |chunks| && AllPass(m, w, plan, advances, chunks, counts)
    requires e.Served? && e in RunAfter(m, w, plan, advances, chunks, counts).mark.log && e !in m.log
    ensures exists done, k: nat :: IsReply(m, w, plan, advances, chunks, done, k, e)
  {
    hide ChunkMark, PageAt, OutcomeAfter, ReplyAt, RequestFrom, StepPasses;
    var i := |counts| - 1;
    var at := RunAfter(m, w, plan, advances, chunks, counts[..i]);
    if e in at.mark.log {
      ChunksServeReplies(m, w, plan, advances, chunks, counts[..i], e);
    } else {
      var k := ChunkServesReplies(at.mark, w, plan, advances, StartOf(at, chunks[i]), counts[i], e);
      assert IsReply(m, w, plan, advances, chunks, counts[..i], k, e);
    }
  }

  /** Every page a run logs as served, whether it ends or breaks off, is a reply of the
      adapter with the rows accepted from it. */
  lemma EveryServedPageIsAReply(m: Mark, t: Mark, w: World, plan: Plan, advances: bool, chunks: seq<Window>,
                                err: Option<FetchError>, e: Event)
    requires RunTrace(m, t, w, plan, advances, chunks, err) && e.Served? && e in t.log && e !in m.log
    ensures exists done, k: nat :: IsReply(m, w, plan, advances, chunks, done, k, e)
  {
    hide AllPass, GoesOn, ChunkPasses, RunAfter, ChunkMark, PageAt, StepBreaks, AcceptedIn, Flatten, NextChunk;
    if err.None? {
      var counts :| RunEnds(m, t, w, plan, advances, chunks, counts);
      ChunksServeReplies(m, w, plan, advances, chunks, counts, e);
    } else {
      var counts, k: nat :| RunBreaks(m, t, w, plan, advances, chunks, counts, k, err.value);
      var at := RunAfter(m, w, plan, advances, chunks, counts);
      var c := NextChunk(m, w, plan, advances, chunks, counts);
      BrokenPageServesOne(at.mark, t, w, plan, advances, c, k, err.value, e);
      if e in ChunkMark(at.mark, w, plan, advances, c, k).log {
        BrokenChunkServesReplies(m, w, plan, advances, chunks, counts, k, e);
      } else {
        assert IsReply(m, w, plan, advances, chunks, counts, k, e);
      }
    }
  }

  lemma BrokenPageServesOne(m: Mark, t: Mark, w: World, plan: Plan, advances: bool, c: ChunkStart, k: nat, fault: FetchError,
                            e: Event)
    requires StepBreaks(m, t, w, plan, advances, c, k, fault) && e.Served? && e in t.log
    ensures e in ChunkMark(m, w, plan, advances, c, k).log || e == ServedBy(PageAt(w, c, plan, k))
  {
    hide ChunkMark, PageAt, RowsPass, PagePasses, FallsEnd, FallsPass, FallsOf, AnomaliesOf, BatchesIn;
  }

  lemma BrokenChunkServesReplies(m: Mark, w: World, plan: Plan, advances: bool, chunks: seq<Window>, counts: seq<nat>, k: nat,
                                 e: Event)
    requires Reaches(m, w, plan, advances, chunks, counts, k) && e.Served? && e !in m.log
    requires e in ChunkMark(RunAfter(m, w, plan, advances, chunks, counts).mark, w, plan, advances,
                            NextChunk(m, w, plan, advances, chunks, counts), k).log
    ensures exists done, i: nat :: IsReply(m, w, plan, advances, chunks, done, i, e)
  {
    hide ChunkMark, PageAt, RunAfter, AllPass, ReplyAt, RequestFrom, StepPasses, NextChunk;
    var at := RunAfter(m, w, plan, advances, chunks, counts);
    if e in at.mark.log {
      ChunksServeReplies(m, w, plan, advances, chunks, counts, e);
    } else {
      var i := ChunkServesReplies(at.mark, w, plan, advances, NextChunk(m, w, plan, advances, chunks, counts), k, e);
      assert IsReply(m, w, plan, advances, chunks, counts, i, e);
    }
  }

  // ----- The outcome is decided by what the run is told

  lemma {:induction false} PrefixPasses(m: Mark, w: World, plan: Plan, advances: bool, chunks: seq<Window>, counts: seq<nat>,
                                        n: nat)
    requires n <= |counts| <= |chunks| && AllPass(m, w, plan, advances, chunks, counts)
    ensures AllPass(m, w, plan, advances, chunks, counts[..n])
  {
    hide EndsAfter, ChunkPasses, RunAfter;
    if n < |counts| {
      PrefixPasses(m, w, plan, advances, chunks, counts[..|counts| - 1], n);
      assert counts[..|counts| - 1][..n] == counts[..n];
    } else {
      assert counts[..n] == counts;
    }
  }

  /** One chunk of those: its pages end there and went through. */
  lemma ChunkOfRun(m: Mark, w: World, plan: Plan, advances: bool, chunks: seq<Window>, counts: seq<nat>, i: nat)
    requires i < |counts| <= |chunks| && AllPass(m, w, plan, advances, chunks, counts)
    ensures var c := NextChunk(m, w, plan, advances, chunks, counts[..i]);
      && EndsAfter(w, c, counts[i])
      && ChunkPasses(RunAfter(m, w, plan, advances, chunks, counts[..i]).mark, w, plan, advances, c, counts[i])
  {
    hide EndsAfter, ChunkPasses, RunAfter;
    PrefixPasses(m, w, plan, advances, chunks, counts, i + 1);
    assert counts[..i + 1][..i] == counts[..i] && counts[..i + 1][i] == counts[i];
  }

  lemma CountAgrees(m: Mark, w: World, plan: Plan, advances: bool, chunks: seq<Window>, a: seq<nat>, b: seq<nat>, i: nat)
    requires i < |a| <= |chunks| && i < |b| <= |chunks| && a[..i] == b[..i]
    requires AllPass(m, w, plan, advances, chunks, a) && AllPass(m, w, plan, advances, chunks, b)
    ensures a[i] == b[i]
  {
    hide EndsAfter, ChunkPasses, RunAfter, AllPass, NextChunk;
    ChunkOfRun(m, w, plan, advances, chunks, a, i);
    ChunkOfRun(m, w, plan, advances, chunks, b, i);
    EndsOnce(w, NextChunk(m, w, plan, advances, chunks, a[..i]), a[i], b[i]);
  }

  lemma {:induction false} CountsAgree(m: Mark, w: World, plan: Plan, advances: bool, chunks: seq<Window>, a: seq<nat>,
                                       b: seq<nat>, n: nat)
    requires n <= |a| <= |chunks| && n <= |b| <= |chunks|
    requires AllPass(m, w, plan, advances, chunks, a) && AllPass(m, w, plan, advances, chunks, b)
    ensures a[..n] == b[..n]
  {
    hide AllPass;
    if n > 0 {
      CountsAgree(m, w, plan, advances, chunks, a, b, n - 1);
      CountAgrees(m, w, plan, advances, chunks, a, b, n - 1);
      assert a[..n] == a[..n - 1] + [a[n - 1]] && b[..n] == b[..n - 1] + [b[n - 1]];
    }
  }

  /** A page the run comes to, of a chunk that ended or went further, went through. */
  lemma PagesBeforePass(m: Mark, w: World, plan: Plan, advances: bool, chunks: seq<Window>, counts: seq<nat>, done: seq<nat>,
                        k: nat)
    requires |done| < |counts| <= |chunks| && AllPass(m, w, plan, advances, chunks, counts)
    requires Reaches(m, w, plan, advances, chunks, done, k)
    ensures Passes(m, w, plan, advances, chunks, done, k)
  {
    hide AllPass, RunAfter, StepPasses, ReplyAt, RequestFrom, NextChunk;
    var i := |done|;
    CountsAgree(m, w, plan, advances, chunks, done, counts, i);
    assert done[..i] == done;
    ChunkOfRun(m, w, plan, advances, chunks, counts, i);
    EndsBeyond(w, NextChunk(m, w, plan, advances, chunks, done), counts[i], k);
  }

  lemma PassesOrNot(m: Mark, t: Mark, w: World, plan: Plan, advances: bool, chunks: seq<Window>, counts: seq<nat>, k: nat,
                    e: FetchError)
    requires RunBreaks(m, t, w, plan, advances, chunks, counts, k, e)
    ensures !Passes(m, w, plan, advances, chunks, counts, k)
  {
    hide AllPass, GoesOn, ChunkPasses, RunAfter, NextChunk, StepBreaks, StepPasses;
    StepPassesOrBreaks(RunAfter(m, w, plan, advances, chunks, counts).mark, t, w, plan, advances,
                       NextChunk(m, w, plan, advances, chunks, counts), k, e);
  }

  /** A run ends without error if and only if every page it comes to goes through. */
  lemma RunSucceedsIff(m: Mark, t: Mark, w: World, plan: Plan, advances: bool, chunks: seq<Window>, err: Option<FetchError>)
    requires RunTrace(m, t, w, plan, advances, chunks, err)
    ensures err.None? <==> NothingBreaks(m, w, plan, advances, chunks)
  {
    hide AllPass, Passes, RunAfter, AcceptedIn, StepBreaks, Flatten;
    if err.None? {
      var counts :| RunEnds(m, t, w, plan, advances, chunks, counts);
      forall done, k: nat | Reaches(m, w, plan, advances, chunks, done, k) ensures Passes(m, w, plan, advances, chunks, done, k) {
        PagesBeforePass(m, w, plan, advances, chunks, counts, done, k);
      }
    } else {
      var counts, k: nat :| RunBreaks(m, t, w, plan, advances, chunks, counts, k, err.value);
      PassesOrNot(m, t, w, plan, advances, chunks, counts, k, err.value);
    }
  }

  /** What keeps a page from its end when no call fails. */
  ghost predicate IsSound(w: World, plan: Plan, c: ChunkStart, k: nat) {
    && c.first + k <= plan.maxPages && FallsValid(w, plan, PageAt(w, c, plan, k))
    && var next := ReplyAt(w, c, k).next;
       next.Some? ==> next.value > RequestFrom(w, c, k)
  }

  ghost predicate NoCallFails(w: World) {
    forall n, call :: !w.fails(n, call)
  }

  /** Page k goes through exactly when it is within the page limit, none of the calls it
      makes fails, its falls have valid periods, and the next page, if any, is a later
      one. */
  lemma StepPassesIff(m: Mark, w: World, plan: Plan, advances: bool, c: ChunkStart, k: nat)
    ensures var n, p := c.first + k, PageAt(w, c, plan, k);
      var table, next := ChunkMark(m, w, plan, advances, c, k).anomalies, ReplyAt(w, c, k).next;
      StepPasses(m, w, plan, advances, c, k) <==>
        && n <= plan.maxPages
        && (k == 0 ==> !w.fails(n, LatestRead) && !w.fails(n, HistoryRead)) && !w.fails(n, AdapterFetch)
        && (forall call :: Makes(table, w, plan, advances, p, call) ==> !w.fails(n, call))
        && FallsValid(w, plan, p) && (next.Some? ==> next.value > RequestFrom(w, c, k))
  {
    hide PagePasses, PageAt, ChunkMark, ReplyAt, RequestFrom, FallsValid, Makes;
    PageMeaning(w, c, plan, k);
    PassesIffNoCallFails(ChunkMark(m, w, plan, advances, c, k).anomalies, w, plan, advances, PageAt(w, c, plan, k));
  }

  lemma SoundIff(m: Mark, w: World, plan: Plan, advances: bool, c: ChunkStart, k: nat)
    requires NoCallFails(w)
    ensures StepPasses(m, w, plan, advances, c, k) <==> IsSound(w, plan, c, k)
  {
    hide PageAt, ChunkMark, ReplyAt, RequestFrom, FallsValid, Makes, StepPasses;
    StepPassesIff(m, w, plan, advances, c, k);
  }

  /** When no call fails, a run ends without error if and only if every page it comes to
      is within the page limit, has only falls with valid periods, and names no next page
      or a later one. */
  lemma RunWithoutFailuresIff(m: Mark, t: Mark, w: World, plan: Plan, advances: bool, chunks: seq<Window>,
                              err: Option<FetchError>)
    requires RunTrace(m, t, w, plan, advances, chunks, err) && NoCallFails(w)
    ensures err.None? <==>
      forall counts, k: nat :: Reaches(m, w, plan, advances, chunks, counts, k) ==>
        IsSound(w, plan, NextChunk(m, w, plan, advances, chunks, counts), k)
  {
    hide RunTrace, AllPass, GoesOn, ChunkPasses, RunAfter, StepPasses, IsSound, NoCallFails, NextChunk;
    RunSucceedsIff(m, t, w, plan, advances, chunks, err);
    forall counts, k: nat | Reaches(m, w, plan, advances, chunks, counts, k)
      ensures Passes(m, w, plan, advances, chunks, counts, k)
        <==> IsSound(w, plan, NextChunk(m, w, plan, advances, chunks, counts), k)
    {
      SoundIff(RunAfter(m, w, plan, advances, chunks, counts).mark, w, plan, advances,
               NextChunk(m, w, plan, advances, chunks, counts), k);
    }
  }

  /** Two pages a run comes to and breaks in are one page. */
  lemma BreaksInOnePage(m: Mark, t: Mark, u: Mark, w: World, plan: Plan, advances: bool, chunks: seq<Window>, a: seq<nat>, i: nat,
                        e: FetchError, b: seq<nat>, j: nat, f: FetchError)
    requires RunBreaks(m, t, w, plan, advances, chunks, a, i, e) && RunBreaks(m, u, w, plan, advances, chunks, b, j, f)
    ensures a == b && i == j
  {
    hide AllPass, RunAfter, NextChunk, StepBreaks, StepPasses, GoesOn;
    PassesOrNot(m, t, w, plan, advances, chunks, a, i, e);
    PassesOrNot(m, u, w, plan, advances, chunks, b, j, f);
    if |a| < |b| {
      PagesBeforePass(m, w, plan, advances, chunks, b, a, i);
    } else if |b| < |a| {
      PagesBeforePass(m, w, plan, advances, chunks, a, b, j);
    } else {
      CountsAgree(m, w, plan, advances, chunks, a, b, |a|);
      assert a[..|a|] == a && b[..|a|] == b;
    }
  }

  /** What a run leaves and the error it ends with are decided by what it is told. */
  lemma RunEndsOneWay(m: Mark, t: Mark, u: Mark, w: World, plan: Plan, advances: bool, chunks: seq<Window>,
                      err: Option<FetchError>, fault: Option<FetchError>)
    requires RunTrace(m, t, w, plan, advances, chunks, err) && RunTrace(m, u, w, plan, advances, chunks, fault)
    ensures t == u && err == fault
  {
    hide AllPass, GoesOn, ChunkPasses, RunAfter, AcceptedIn, StepBreaks, Flatten, NextChunk, NothingBreaks;
    RunSucceedsIff(m, t, w, plan, advances, chunks, err);
    RunSucceedsIff(m, u, w, plan, advances, chunks, fault);
    if err.None? {
      var a :| RunEnds(m, t, w, plan, advances, chunks, a);
      var b :| RunEnds(m, u, w, plan, advances, chunks, b);
      CountsAgree(m, w, plan, advances, chunks, a, b, |a|);
      assert a[..|a|] == a && b[..|a|] == b;
    } else {
      var a, i: nat :| RunBreaks(m, t, w, plan, advances, chunks, a, i, err.value);
      var b, j: nat :| RunBreaks(m, u, w, plan, advances, chunks, b, j, fault.value);
      BreaksInOnePage(m, t, u, w, plan, advances, chunks, a, i, err.value, b, j, fault.value);
      StepBreaksOneWay(RunAfter(m, w, plan, advances, chunks, a).mark, t, u, w, plan, advances,
                       NextChunk(m, w, plan, advances, chunks, a), i, err.value, fault.value);
    }
  }

  /** When the run's first page accepts rows and only its hooks fail, the rows stay
      stored and nothing else happens. */
  lemma StopsAtItsHooks(m: Mark, t: Mark, w: World, plan: Plan, advances: bool, chunks: seq<Window>, err: Option<FetchError>)
    requires RunTrace(m, t, w, plan, advances, chunks, err) && StartsWithoutHooks(w, plan, chunks)
    ensures err == Some(CallFailed(1, HookCall)) && t == m.(stored := m.stored + [FirstAccepted(w, plan, chunks[0])])
  {
    var e := CallFailed(1, HookCall);
    var u := m.(stored := m.stored + [FirstAccepted(w, plan, chunks[0])]);
    FirstPageBreaks(m, u, w, plan, advances, chunks);
    assert RunTrace(m, u, w, plan, advances, chunks, Some(e));
    RunEndsOneWay(m, t, u, w, plan, advances, chunks, err, Some(e));
  }

  lemma FirstPageBreaks(m: Mark, u: Mark, w: World, plan: Plan, advances: bool, chunks: seq<Window>)
    requires StartsWithoutHooks(w, plan, chunks) && u == m.(stored := m.stored + [FirstAccepted(w, plan, chunks[0])])
    ensures RunBreaks(m, u, w, plan, advances, chunks, [], 0, CallFailed(1, HookCall))
  {
    var c := ChunkStart(1, chunks[0], FRESH);
    FirstRequest(w, c);
    RunBegins(m, w, plan, advances, chunks);
    ChunkPassesNext(m, w, plan, advances, c, 0);
    ChunkBegins(m, w, plan, advances, c);
    PageMeaning(w, c, plan, 0);
  }

  lemma FreshStart(store: Store, acc: Accumulator, streak: SanityStreak, plan: Plan, base: Base)
    requires RunInv(store, acc, streak, plan, base, NOTHING)
    ensures streak.Value() == FRESH
  {
  }

  /** Chunk after chunk, until one fails. */
  method FetchChunks(store: Store, acc: Accumulator, streak: SanityStreak, w: World, plan: Plan, chunks: seq<Window>,
                     from: int, advances: bool, ghost base: Base)
    returns (err: Option<FetchError>, ghost trail: Trail)
    requires AdapterKeepsWindow(w) && Tiles(chunks, from)
    requires RunInv(store, acc, streak, plan, base, NOTHING) && base.start == Started(from, advances)
    requires UpToDate(base, store.lastReadingAt, plan.kind, [])
    modifies store, acc, streak
    ensures RunInv(store, acc, streak, plan, base, trail)
    ensures WellRecorded(trail.log, plan.kind, advances)
    ensures err.None? ==> UpToDate(base, store.lastReadingAt, plan.kind, trail.log)
    ensures err.None? ==> Replay(base.start, trail.log).frontier >= EndOf(chunks, from)
    ensures RunTrace(old(MarkOf(store, NOTHING)), MarkOf(store, trail), w, plan, advances, chunks, err)
  {
    hide RunInv, WellRecorded, UpToDate, ChunkAt, ChunkPasses, StepBreaks, EndsAfter, GoesOn, AllPass, RunAfter;
    assert streak.Value() == FRESH by {
      FreshStart(store, acc, streak, plan, base);
    }
    UpToDateWell(base, store.lastReadingAt, plan.kind, []);
    err, trail := None, NOTHING;
    ghost var m := MarkOf(store, NOTHING);
    ghost var counts: seq<nat> := [];
    RunBegins(m, w, plan, advances, chunks);
    var pages, reached := 0, from;
    for i := 0 to |chunks|
      invariant err == None && RunInv(store, acc, streak, plan, base, trail)
      invariant WellRecorded(trail.log, plan.kind, advances)
      invariant UpToDate(base, store.lastReadingAt, plan.kind, trail.log)
      invariant from <= reached && (i < |chunks| ==> reached == chunks[i].from) && (i == |chunks| ==> reached == EndOf(chunks, from))
      invariant Replay(base.start, trail.log).frontier >= reached
      invariant |counts| == i && AllPass(m, w, plan, advances, chunks, counts)
      invariant RunAfter(m, w, plan, advances, chunks, counts) == RunAt(pages, streak.Value(), MarkOf(store, trail))
    {
      ghost var k;
      var last;
      err, pages, last, trail, k := FetchChunk(store, acc, streak, w, plan, chunks[i], pages, advances, base, trail);
      if err.Some? {
        assert RunBreaks(m, MarkOf(store, trail), w, plan, advances, chunks, counts, k, err.value);
        return;
      }
      ChunkEnded(m, MarkOf(store, trail), w, plan, advances, chunks, counts, k, last, streak.Value());
      counts := counts + [k];
      reached := chunks[i].to;
    }
    RunStoresWhatItAccepts(m, w, plan, advances, chunks, counts);
    assert RunEnds(m, MarkOf(store, trail), w, plan, advances, chunks, counts);
  }

  function CursorAnswer(setup: Setup, cursor: Option<int>): CursorRead {
    if setup.cursorFails then ReadFailed
    else if cursor.Some? || setup.cursorRow then Row(cursor)
    else NotFound
  }

  /** The window a run asks for: the explicit one, or from the cursor to now, or the
      initial lookback when there is no cursor yet. It may move the cursor unless it is
      explicit and no cursor at or past its start exists. */
  lemma RunWindow(setup: Setup, cursor: Option<int>, plan: Plan)
    ensures var r := ResolveFetchWindow(CursorAnswer(setup, cursor), plan.explicit, plan.now, plan.initialLookback);
      && (r.None? <==> setup.cursorFails)
      && (r.Some? && plan.explicit.Some? ==>
           && r.value.window == plan.explicit.value
           && (r.value.advances <==> cursor.Some? && plan.explicit.value.from <= cursor.value))
      && (r.Some? && plan.explicit.None? && cursor.Some? ==> r.value == Resolved(Window(cursor.value, plan.now), true))
      && (r.Some? && plan.explicit.None? && cursor.None? ==>
           r.value == Resolved(Window(plan.now - plan.initialLookback, plan.now), true))
  {
  }

  /** The status says whether the run failed and whether it stored anything; what
      the run did is what the adapter's replies make of it, to the end or up to the
      call that failed; and it ends without error exactly when nothing breaks. */
  ghost predicate EndsWell(m: Mark, t: Mark, w: World, plan: Plan, advances: bool, chunks: seq<Window>, ending: Ending,
                           trail: Trail) {
    && ending.Ended?
    && ending.status == (if ending.error.None? then Success else if trail.stored != [] then Partial else Failed)
    && (ending.error.Some? ==> ending.error.value.InFetch?)
    && RunTrace(m, t, w, plan, advances, chunks, if ending.error.None? then None else Some(ending.error.value.fetch))
    && (ending.error.None? <==> NothingBreaks(m, w, plan, advances, chunks))
  }

  /** A finished run served its whole window, and the cursor and the watermark were
      told the latest row of every served page. */
  ghost predicate Completes(store: Store, w: World, plan: Plan, base: Base, window: Window, trail: Trail)
    reads store`lastReadingAt
  {
    && Replay(base.start, trail.log).frontier >= EndOf(Chunk(window.from, window.to, w.boundary), window.from)
    && UpToDate(base, store.lastReadingAt, plan.kind, trail.log)
  }

  /** The run failed at its first page's hooks: the page's rows are stored, none is
      hooked, and no refresh is asked for. */
  ghost predicate EndsAtItsHooks(ending: Ending, refresh: Option<Window>, trail: Trail, accepted: seq<Reading>) {
    && ending == Ended(Partial, Some(InFetch(CallFailed(1, HookCall))))
    && trail.stored == [accepted] && trail.hooked == [] && refresh == None
  }

  lemma HookStopEnds(plan: Plan, trail: Trail, accepted: seq<Reading>, err: Option<FetchError>, ending: Ending,
                     refresh: Option<Window>)
    requires err == Some(CallFailed(1, HookCall)) && trail.stored == [accepted] && trail.log == [] && HooksServed(trail)
    requires ending == Ended(FetchRunStatus(1, trail.stored != []), Some(InFetch(err.value)))
    requires refresh.Some? <==> AsksForRefresh(plan, trail)
    ensures EndsAtItsHooks(ending, refresh, trail, accepted)
  {
  }

  lemma HooksStopTheRun(m: Mark, t: Mark, w: World, plan: Plan, advances: bool, chunks: seq<Window>, trail: Trail,
                        err: Option<FetchError>, ending: Ending, refresh: Option<Window>)
    requires RunTrace(m, t, w, plan, advances, chunks, err) && StartsWithoutHooks(w, plan, chunks)
    requires m.log == [] && m.stored == [] && t.log == trail.log && t.stored == trail.stored && HooksServed(trail)
    requires err.Some? ==> ending == Ended(FetchRunStatus(1, trail.stored != []), Some(InFetch(err.value)))
    requires refresh.Some? <==> AsksForRefresh(plan, trail)
    ensures EndsAtItsHooks(ending, refresh, trail, FirstAccepted(w, plan, chunks[0]))
  {
    hide RunTrace, StartsWithoutHooks, FirstAccepted;
    StopsAtItsHooks(m, t, w, plan, advances, chunks, err);
    HookStopEnds(plan, trail, t.stored[0], err, ending, refresh);
  }

  lemma StartsUpToDate(base: Base, kind: Kind)
    ensures UpToDate(base, base.last, kind, [])
  {
  }

  /** The run once its window is known. */
  method FetchWindow(store: Store, w: World, plan: Plan, window: Window, advances: bool)
    returns (ending: Ending, refresh: Option<Window>, ghost trail: Trail)
    requires AdapterKeepsWindow(w)
    modifies store
    ensures refresh.Some? <==> AsksForRefresh(plan, trail)
    ensures refresh.Some? ==> SpansStored(refresh.value, trail.stored) && refresh.value.from < refresh.value.to
    ensures var chunks := Chunk(window.from, window.to, w.boundary);
      && EndsWell(old(MarkOf(store, NOTHING)), MarkOf(store, trail), w, plan, advances, chunks, ending, trail)
      && (StartsWithoutHooks(w, plan, chunks) ==>
           EndsAtItsHooks(ending, refresh, trail, FirstAccepted(w, plan, chunks[0])))
    ensures var base := Base(old(store.readings), old(store.cursor), old(store.lastReadingAt), Started(window.from, advances));
      && LeavesGoodTrail(store, plan, base, trail)
      && (ending.error.None? ==> Completes(store, w, plan, base, window, trail))
  {
    hide StartsWithoutHooks, FirstAccepted, EndsAtItsHooks, Chunk, Tiles, WellRecorded, UpToDate, HooksServed;
    hide AllGood, CursorOk, UpsertedAll, Replay, FromOf, ToOf, RowCount, HasKind, SpansStored, Obeys, AsksForRefresh;
    hide RunTrace, NothingBreaks;
    var acc := new Accumulator();
    var streak := new SanityStreak();
    var chunks := Chunk(window.from, window.to, w.boundary);
    ghost var base := Base(store.readings, store.cursor, store.lastReadingAt, Started(window.from, advances));
    StartsInvariant(store, acc, streak, plan, base);
    ChunkTiles(window.from, window.to, w.boundary);
    StartsUpToDate(base, plan.kind);
    ghost var m := MarkOf(store, NOTHING);
    var err;
    err, trail := FetchChunks(store, acc, streak, w, plan, chunks, window.from, advances, base);
    RowCountPositive(trail.stored, plan);
    ending := Ended(FetchRunStatus(if err.None? then 0 else 1, acc.processed > 0),
                    if err.None? then None else Some(InFetch(err.value)));
    refresh := MaybeEnqueueConsumptionRefresh(plan, acc, trail);
    RunSucceedsIff(m, MarkOf(store, trail), w, plan, advances, chunks, err);
    if StartsWithoutHooks(w, plan, chunks) {
      HooksStopTheRun(m, MarkOf(store, trail), w, plan, advances, chunks, trail, err, ending, refresh);
    }
  }

  /** One run. Wherever it fails it leaves a disciplined log, good batches and an
      obedient verdict trace; when it succeeds it has served its whole window. */
  method FetchReadings(store: Store, w: World, plan: Plan, setup: Setup)
    returns (ending: Ending, refresh: Option<Window>, ghost trail: Trail)
    requires AdapterKeepsWindow(w)
    modifies store
    ensures refresh.Some? <==> AsksForRefresh(plan, trail)
    ensures refresh.Some? ==> SpansStored(refresh.value, trail.stored) && refresh.value.from < refresh.value.to
    ensures var a, c := setup.analyzer, setup.credential;
      var live := a.Some? && a.value.active && !a.value.deleted;
      var usable := c.Some? && c.value.active && c.value.served;
      && (!setup.recorded ==> ending == NotRecorded)
      && (setup.recorded && a.None? ==> ending == FailedSetup(AnalyzerRead))
      && (setup.recorded && a.Some? && !live ==> ending == Ended(Success, None))
      && (setup.recorded && live && c.None? ==> ending == FailedSetup(CredentialRead))
      && (setup.recorded && live && c.Some? && !c.value.active ==> ending == FailedSetup(CredentialInactive))
      && (setup.recorded && live && c.Some? && c.value.active && !c.value.served ==> ending == FailedSetup(NoSource))
      && (setup.recorded && live && usable && c.value.model != Some(a.value.provider) ==> ending == FailedSetup(WrongProvider))
      && (setup.recorded && live && usable && c.value.model == Some(a.value.provider) && c.value.subtype != a.value.subtype ==>
           ending == FailedSetup(WrongSubtype))
      && (setup.recorded && live && usable && c.value.model == Some(a.value.provider) && c.value.subtype == a.value.subtype
          <==> Preflight(setup).None?)
    ensures Preflight(setup).Some? ==> trail == NOTHING && refresh == None && unchanged(store)
    ensures HoldsStored(old(store.readings), store.readings, trail.stored)
    ensures Preflight(setup).None? ==>
      var r := ResolveFetchWindow(CursorAnswer(setup, old(store.cursor)), plan.explicit, plan.now, plan.initialLookback);
      if r.None? then ending == Ended(Failed, Some(InSetup(CursorRefused))) && trail == NOTHING && unchanged(store)
      else
        var window := r.value.window;
        var base := Base(old(store.readings), old(store.cursor), old(store.lastReadingAt), Started(window.from, r.value.advances));
        var chunks := Chunk(window.from, window.to, w.boundary);
        && LeavesGoodTrail(store, plan, base, trail)
        && EndsWell(old(MarkOf(store, NOTHING)), MarkOf(store, trail), w, plan, r.value.advances, chunks, ending, trail)
        && (StartsWithoutHooks(w, plan, chunks) ==>
             EndsAtItsHooks(ending, refresh, trail, FirstAccepted(w, plan, chunks[0])))
        && (ending.error.None? ==> Completes(store, w, plan, base, window, trail))
  {
    hide HoldsStored, AllGood, EndsWell, Completes, SpansStored, StartsWithoutHooks, EndsAtItsHooks, Chunk;
    refresh, trail := None, NOTHING;
    NothingHeld(store.readings);
    FetchesExactlyWhen(setup);
    ghost var before := store.readings;
    var early := Preflight(setup);
    if early.Some? {
      return early.value, refresh, trail;
    }
    var read := CursorAnswer(setup, store.cursor);
    var resolved := ResolveFetchWindow(read, plan.explicit, plan.now, plan.initialLookback);
    if resolved.None? {
      return Ended(Failed, Some(InSetup(CursorRefused))), refresh, trail;
    }
    ending, refresh, trail := FetchWindow(store, w, plan, resolved.value.window, resolved.value.advances);
    TableHoldsStored(before, trail.stored, plan);
  }

  // ----- A stored row that misses its refresh

  /** A load-profile row sixty days old when its run begins. */
  const OLD_ROW: Reading := Reading(1, DAY, LoadProfile, seq(ALL_REGISTERS, k => if k == 0 then Some(1.0) else None), 0)

  const OLD_PLAN := Plan(1, LoadProfile, Some(Window(DAY, 2 * DAY)), 61 * DAY, Options(0, 10.0), 0, 1, true, true)

  const OLD_SETUP := Setup(true, Some(AnalyzerRow(true, false, 0, 0)), Some(CredentialRow(true, true, Some(0), 0)), false, false)

  /** The adapter returns that row; every hook fails and nothing else does. */
  function HooksFail(): World {
    World((n, req) => Reply(if In(DAY, req) then [OLD_ROW] else [], None), n => None, n => [], n => [],
          (n, call) => call == HookCall, (n, delta) => 0, t => t + DAY)
  }

  lemma CleanRowIsAccepted(row: Reading, analyzer: nat, kind: Kind, ctx: Context)
    requires CleanRow(row, ctx.now, ctx.options) && Attributable(row, analyzer, kind)
    ensures Accepted(None, FRESH, [row], analyzer, kind, ctx) == [row]
  {
    hide CleanRow, Judge, Attributed;
    assert Judge(None, FRESH, row, ctx).Keep? by {
      KeptUnlessJump(None, row, ctx);
    }
    MixedUnchanged([row], analyzer, kind);
    OneMore(None, FRESH, [], row, ctx);
    assert [] + [row] == [row];
  }

  lemma OldRowIsClean()
    ensures CleanRow(OLD_ROW, OLD_PLAN.now, OLD_PLAN.options)
  {
    assert OLD_ROW.regs[0].Some?;
  }

  lemma OldRowReachesTheHooks()
    ensures var chunks := Chunk(DAY, 2 * DAY, HooksFail().boundary);
      && AdapterKeepsWindow(HooksFail())
      && StartsWithoutHooks(HooksFail(), OLD_PLAN, chunks)
      && FirstAccepted(HooksFail(), OLD_PLAN, chunks[0]) == [OLD_ROW]
  {
    var w := HooksFail();
    var chunks := Chunk(DAY, 2 * DAY, w.boundary);
    assert w.boundary(DAY) == 2 * DAY;
    assert Chunk(2 * DAY, 2 * DAY, w.boundary) == [];
    assert chunks == [Window(DAY, 2 * DAY)];
    assert w.fetch(1, chunks[0]).rows == [OLD_ROW];
    OldRowIsClean();
    CleanRowIsAccepted(OLD_ROW, 1, LoadProfile, ContextOf(w, 1, OLD_PLAN));
  }

  /** The first page stores an old load-profile row, its hooks fail, and nobody is
      asked to refresh what was stored. */
  method OldRowMissesItsRefresh(store: Store) returns (ending: Ending, refresh: Option<Window>, ghost trail: Trail)
    modifies store
    ensures OLD_PLAN.hasEnqueuer && OLD_PLAN.refreshEnabled && OLD_ROW.ts < OLD_PLAN.now - REFRESH_THRESHOLD
    ensures trail.stored == [[OLD_ROW]] && KeyOf(OLD_ROW) in store.readings && store.readings[KeyOf(OLD_ROW)] == OLD_ROW
    ensures ending == Ended(Partial, Some(InFetch(CallFailed(1, HookCall)))) && refresh == None
  {
    hide EndsWell, Completes, AllGood, HooksServed, WellRecorded, Obeys, CursorAfter, Disciplined, StartsWithoutHooks, AsksForRefresh;
    hide FirstAccepted, AdapterKeepsWindow, SpansStored, Chunk, RowCount;
    OldRowReachesTheHooks();
    ghost var before := store.readings;
    ending, refresh, trail := FetchReadings(store, HooksFail(), OLD_PLAN, OLD_SETUP);
    StoreOneMore(before, [], [OLD_ROW]);
    assert [] + [[OLD_ROW]] == [[OLD_ROW]];
    assert [OLD_ROW][..0] == [];
  }
}
