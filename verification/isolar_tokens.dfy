/** Concurrent users of one iSolar credential: callers of the access token, the
    authorisation callback, operators' updates and verifications, interleaved
    step by step around one exclusive lease (internal/credentials/isolar_oauth.go,
    internal/credentials/service.go). */
module IsolarTokens {
  import opened Readings
  import opened IsolarExtra

  /** An expiry stamp and which persisted token it came from. */
  datatype Stamp = NoStamp | Stamp(at: int, index: nat)

  /** What an actor wants the lock for. */
  datatype Goal = ToRefresh | ToStore(token: Token) | ToMerge(delta: Delta)

  /** Where an actor holding the lock stands. `tok` is the token being
      persisted, when the delta is a token's. */
  datatype Work =
    | Locked
    | LockedRow(stamp: Stamp)
    | LockedFresh(stamp: Stamp, checkedAt: int)
    | MustRefresh
    | HasCredentials(refresh: string)
    | Merging(delta: Delta, tok: Option<Token>)
    | Merged(delta: Delta, tok: Option<Token>, base: Extra)
    | Stamping(token: Token, index: nat)
    | Releasing

  datatype Actor =
    | Row(stamp: Stamp)
    | Fresh(stamp: Stamp, checkedAt: int)
    | Waiting(goal: Goal)
    | Holding(work: Work)
    | Restamping(stamp: Stamp)

  /** A token handed out: its text, which token was stored when it was read, the
      stamp that was checked, and when. */
  datatype Handed = Handed(access: string, index: int, stamp: Stamp, checkedAt: int)

  /** A Refresh call: what it presented, what the provider had issued last, which
      token was stored, and when. */
  datatype Refreshed = Refreshed(presented: string, issued: string, index: int, at: int)

  datatype State = State(now: int, extra: Extra, stamp: Stamp, holder: Option<nat>, actors: map<nat, Actor>,
                         persisted: seq<Token>, deltas: seq<Delta>, issued: string,
                         handed: seq<Handed>, refreshes: seq<Refreshed>)

  /** A credential that stores its first token and its expiry. */
  function Initial(now: int, extra: Extra, expiresAt: int): State {
    var first := Token(Lookup(extra, ACCESS_TOKEN), Lookup(extra, REFRESH_TOKEN), expiresAt);
    State(now, extra, Stamp(expiresAt, 0), None, map[], [first], [], first.refresh, [], [])
  }

  datatype Step =
    | Tick(nanoseconds: nat)
    | BeginCall(id: nat)
    | BeginCallback(id: nat, token: Token)
    | BeginUpdate(id: nat, delta: Delta)
    | BeginVerify(id: nat)
    | Check(id: nat)
    | OpenToken(id: nat)
    | Acquire(id: nat)
    | Refresh(id: nat, token: Token)
    | RefreshLosesReply(id: nat, token: Token)
    | ReadExtra(id: nat)
    | WriteExtra(id: nat)
    | StampExpiry(id: nat)
    | Restamp(id: nat)
    | Fail(id: nat)
    | Release(id: nat)

  predicate IsFresh(stamp: Stamp, now: int) {
    stamp.Stamp? && stamp.at > now + REFRESH_WINDOW
  }

  /** The machine's callers check the row's expiry as one caller alone does: a token lasts
      when it is known to expire more than five minutes ahead. */
  lemma FreshMeansItLasts(expiresAt: Option<int>, index: nat, now: int)
    ensures IsFresh(if expiresAt.Some? then Stamp(expiresAt.value, index) else NoStamp, now)
      <==> expiresAt.Some? && expiresAt.value > now + 5 * MINUTE
  {
  }

  predicate Holds(s: State, id: nat) {
    id in s.actors && s.actors[id].Holding? && s.holder == Some(id)
  }

  predicate Enabled(s: State, step: Step) {
    match step
    case Tick(_) => true
    case BeginCall(id) => id !in s.actors
    case BeginCallback(id, _) => id !in s.actors
    case BeginUpdate(id, _) => id !in s.actors
    case BeginVerify(id) => id !in s.actors
    case Check(id) => id in s.actors && (s.actors[id].Row? || (Holds(s, id) && (s.actors[id].work.Locked? || s.actors[id].work.LockedRow?)))
    case OpenToken(id) => id in s.actors && (s.actors[id].Fresh? || (Holds(s, id) && s.actors[id].work.LockedFresh?))
    case Acquire(id) => id in s.actors && s.actors[id].Waiting? && s.holder == None
    case Refresh(id, _) => Holds(s, id) && s.actors[id].work.HasCredentials?
    case RefreshLosesReply(id, _) => Holds(s, id) && s.actors[id].work.HasCredentials?
    case ReadExtra(id) => Holds(s, id) && (s.actors[id].work.MustRefresh? || s.actors[id].work.Merging?)
    case WriteExtra(id) => Holds(s, id) && s.actors[id].work.Merged?
    case StampExpiry(id) => Holds(s, id) && s.actors[id].work.Stamping?
    case Restamp(id) => id in s.actors && s.actors[id].Restamping?
    case Fail(id) => id in s.actors
    case Release(id) => Holds(s, id) && s.actors[id].work.Releasing?
  }

  function Goto(s: State, id: nat, a: Actor): State {
    s.(actors := s.actors[id := a])
  }

  function Leave(s: State, id: nat): State {
    s.(actors := s.actors - {id})
  }

  /** What the lock holder does first. */
  function Opening(goal: Goal): Work {
    match goal
    case ToRefresh => Locked
    case ToStore(tok) => Merging(TokenDelta(tok), Some(tok))
    case ToMerge(delta) => Merging(delta, None)
  }

  function Issue(issued: string, tok: Token): string {
    if tok.refresh == "" then issued else tok.refresh
  }

  /** Reading the row and comparing its stamp with the clock are separate steps. */
  function DoCheck(s: State, id: nat): State
    requires Enabled(s, Check(id))
  {
    match s.actors[id]
    case Row(stamp) => Goto(s, id, if IsFresh(stamp, s.now) then Fresh(stamp, s.now) else Waiting(ToRefresh))
    case Holding(Locked) => Goto(s, id, Holding(LockedRow(s.stamp)))
    case Holding(LockedRow(stamp)) =>
      Goto(s, id, Holding(if IsFresh(stamp, s.now) then LockedFresh(stamp, s.now) else MustRefresh))
  }

  /** An empty stored token is no token. */
  function DoOpenToken(s: State, id: nat): State
    requires Enabled(s, OpenToken(id))
  {
    var access := Lookup(s.extra, ACCESS_TOKEN);
    var newest := |s.persisted| - 1;
    match s.actors[id]
    case Fresh(stamp, at) =>
      if access == "" then Goto(s, id, Waiting(ToRefresh))
      else Leave(s.(handed := s.handed + [Handed(access, newest, stamp, at)]), id)
    case Holding(LockedFresh(stamp, at)) =>
      if access == "" then Goto(s, id, Holding(MustRefresh))
      else Goto(s.(handed := s.handed + [Handed(access, newest, stamp, at)]), id, Holding(Releasing))
  }

  function DoReadExtra(s: State, id: nat): State
    requires Enabled(s, ReadExtra(id))
  {
    match s.actors[id].work
    case MustRefresh => Goto(s, id, Holding(HasCredentials(Lookup(s.extra, REFRESH_TOKEN))))
    case Merging(delta, token) => Goto(s, id, Holding(Merged(delta, token, s.extra)))
  }

  function DoWriteExtra(s: State, id: nat): State
    requires Enabled(s, WriteExtra(id))
  {
    var w := s.actors[id].work;
    var t := s.(extra := ApplyDelta(w.base, w.delta), deltas := s.deltas + [w.delta]);
    if w.tok.None? then Goto(t, id, Holding(Releasing))
    else Goto(t.(persisted := s.persisted + [w.tok.value]), id, Holding(Stamping(w.tok.value, |s.persisted|)))
  }

  function Apply(s: State, step: Step): State
    requires Enabled(s, step)
  {
    match step
    case Tick(n) => s.(now := s.now + n)
    case BeginCall(id) => Goto(s, id, Row(s.stamp))
    case BeginCallback(id, tok) => Goto(s.(issued := Issue(s.issued, tok)), id, Waiting(ToStore(tok)))
    case BeginUpdate(id, delta) => Goto(s, id, Waiting(ToMerge(delta)))
    case BeginVerify(id) => Goto(s, id, Restamping(s.stamp))
    case Check(id) => DoCheck(s, id)
    case OpenToken(id) => DoOpenToken(s, id)
    case Acquire(id) => Goto(s.(holder := Some(id)), id, Holding(Opening(s.actors[id].goal)))
    case Refresh(id, tok) =>
      var r := Refreshed(s.actors[id].work.refresh, s.issued, |s.persisted| - 1, s.now);
      Goto(s.(issued := Issue(s.issued, tok), refreshes := s.refreshes + [r]), id, Holding(Merging(TokenDelta(tok), Some(tok))))
    case RefreshLosesReply(id, tok) =>
      var r := Refreshed(s.actors[id].work.refresh, s.issued, |s.persisted| - 1, s.now);
      Goto(s.(issued := Issue(s.issued, tok), refreshes := s.refreshes + [r]), id, Holding(Releasing))
    case ReadExtra(id) => DoReadExtra(s, id)
    case WriteExtra(id) => DoWriteExtra(s, id)
    case StampExpiry(id) =>
      var w := s.actors[id].work;
      Goto(s.(stamp := Stamp(w.token.expiresAt, w.index)), id, Holding(Releasing))
    case Restamp(id) => Leave(s.(stamp := s.actors[id].stamp), id)
    case Fail(id) => if s.actors[id].Holding? then Goto(s, id, Holding(Releasing)) else Leave(s, id)
    case Release(id) => Leave(s.(holder := None), id)
  }

  function Run(s: State, steps: seq<Step>): Option<State> {
    if steps == [] then Some(s)
    else
      var mid := Run(s, steps[..|steps| - 1]);
      if mid.Some? && Enabled(mid.value, steps[|steps| - 1])
      then Some(Apply(mid.value, steps[|steps| - 1])) else None
  }

  // ----- The lock and the map

  /** Exactly the holder holds, and what it read is still what is stored. */
  ghost predicate LockOk(s: State) {
    forall id :: id in s.actors && s.actors[id].Holding? ==>
      && s.holder == Some(id)
      && (s.actors[id].work.Merged? ==> s.actors[id].work.base == s.extra)
  }

  /** The delta a step writes, if it writes one. */
  function WrittenBy(s: State, step: Step): seq<Delta>
    requires Enabled(s, step)
  {
    if step.WriteExtra? then [s.actors[step.id].work.delta] else []
  }

  lemma StepKeepsLock(s: State, step: Step)
    requires LockOk(s) && Enabled(s, step)
    ensures LockOk(Apply(s, step))
    ensures Apply(s, step).deltas == s.deltas + WrittenBy(s, step)
    ensures Apply(s, step).extra == ApplyAll(s.extra, WrittenBy(s, step))
  {
    assert s.deltas + [] == s.deltas;
    if step.WriteExtra? {
      assert [s.actors[step.id].work.delta][..0] == [];
    }
  }

  lemma ApplyOneMore(base: Extra, deltas: seq<Delta>, written: seq<Delta>)
    requires |written| <= 1
    ensures ApplyAll(base, deltas + written) == ApplyAll(ApplyAll(base, deltas), written)
  {
    if written == [] {
      assert deltas + written == deltas;
    } else {
      assert (deltas + written)[..|deltas|] == deltas && written[..0] == [];
    }
  }

  /** Whatever the interleaving and wherever actors fail, the stored map is the
      deltas applied one at a time in lock order: no update is lost. */
  lemma {:induction false} ExtraIsDeltasInLockOrder(now: int, extra: Extra, expiresAt: int, steps: seq<Step>)
    requires Run(Initial(now, extra, expiresAt), steps).Some?
    ensures var t := Run(Initial(now, extra, expiresAt), steps).value;
      LockOk(t) && t.extra == ApplyAll(extra, t.deltas)
  {
    if steps != [] {
      var front, last := steps[..|steps| - 1], steps[|steps| - 1];
      ExtraIsDeltasInLockOrder(now, extra, expiresAt, front);
      var mid := Run(Initial(now, extra, expiresAt), front).value;
      StepKeepsLock(mid, last);
      ApplyOneMore(extra, mid.deltas, WrittenBy(mid, last));
    }
  }

  // ----- The unlocked fast path

  /** The stamp an actor carries. */
  function CarriedStamp(a: Actor): Stamp {
    match a
    case Row(stamp) => stamp
    case Fresh(stamp, _) => stamp
    case Restamping(stamp) => stamp
    case Holding(LockedRow(stamp)) => stamp
    case Holding(LockedFresh(stamp, _)) => stamp
    case Holding(Stamping(tok, index)) => Stamp(tok.expiresAt, index)
    case _ => NoStamp
  }

  /** A stamp is the expiry of a token that is already stored. */
  ghost predicate StampOk(s: State, stamp: Stamp) {
    stamp.Stamp? ==> stamp.index < |s.persisted| && stamp.at == s.persisted[stamp.index].expiresAt
  }

  ghost predicate CheckedOk(a: Actor) {
    match a
    case Fresh(stamp, at) => IsFresh(stamp, at)
    case Holding(LockedFresh(stamp, at)) => IsFresh(stamp, at)
    case _ => true
  }

  ghost predicate HandedOk(s: State, h: Handed) {
    && IsFresh(h.stamp, h.checkedAt) && StampOk(s, h.stamp)
    && h.stamp.index <= h.index < |s.persisted|
  }

  ghost predicate StampsOk(s: State) {
    && s.persisted != [] && StampOk(s, s.stamp)
    && (forall id :: id in s.actors ==> StampOk(s, CarriedStamp(s.actors[id])) && CheckedOk(s.actors[id]))
    && (forall k :: 0 <= k < |s.handed| ==> HandedOk(s, s.handed[k]))
  }

  lemma PersistedOnlyGrow(s: State, step: Step)
    requires Enabled(s, step)
    ensures s.persisted <= Apply(s, step).persisted
    ensures forall stamp :: StampOk(s, stamp) ==> StampOk(Apply(s, step), stamp)
  {
  }

  lemma ChangedActorsCarryStamps(s: State, step: Step, id: nat)
    requires StampsOk(s) && Enabled(s, step)
    requires id in Apply(s, step).actors && (id in s.actors ==> Apply(s, step).actors[id] != s.actors[id])
    ensures StampOk(Apply(s, step), CarriedStamp(Apply(s, step).actors[id])) && CheckedOk(Apply(s, step).actors[id])
  {
    hide ApplyDelta, TokenDelta, Lookup;
    PersistedOnlyGrow(s, step);
    if id in s.actors {
      assert StampOk(s, CarriedStamp(s.actors[id])) && CheckedOk(s.actors[id]);
    }
  }

  lemma StepHandsOut(s: State, step: Step)
    requires StampsOk(s) && Enabled(s, step)
    ensures var t := Apply(s, step);
      t.handed == s.handed
      || (|t.handed| == |s.handed| + 1 && t.handed[..|s.handed|] == s.handed && HandedOk(t, t.handed[|s.handed|]))
  {
    hide ApplyDelta, TokenDelta, Lookup;
    if step.OpenToken? {
      assert StampOk(s, CarriedStamp(s.actors[step.id])) && CheckedOk(s.actors[step.id]);
    }
  }

  lemma StepKeepsStamps(s: State, step: Step)
    requires StampsOk(s) && Enabled(s, step)
    ensures StampsOk(Apply(s, step))
  {
    hide ApplyDelta, TokenDelta, Lookup;
    var t := Apply(s, step);
    PersistedOnlyGrow(s, step);
    forall id | id in t.actors ensures StampOk(t, CarriedStamp(t.actors[id])) && CheckedOk(t.actors[id]) {
      if id !in s.actors || t.actors[id] != s.actors[id] {
        ChangedActorsCarryStamps(s, step, id);
      }
    }
    StepHandsOut(s, step);
    forall k | 0 <= k < |t.handed| ensures HandedOk(t, t.handed[k]) {
      if k < |s.handed| {
        assert t.handed[k] == s.handed[k] && HandedOk(s, s.handed[k]);
      }
    }
    StepKeepsStoreStamp(s, step);
  }

  lemma StepKeepsStoreStamp(s: State, step: Step)
    requires StampsOk(s) && Enabled(s, step)
    ensures StampOk(Apply(s, step), Apply(s, step).stamp)
  {
    hide ApplyDelta, TokenDelta, Lookup;
    PersistedOnlyGrow(s, step);
    if step.Restamp? || step.StampExpiry? {
      assert StampOk(s, CarriedStamp(s.actors[step.id]));
    }
  }

  /** Expiries grow in the order tokens are persisted. */
  ghost predicate ExpiriesGrow(persisted: seq<Token>) {
    forall i, j :: 0 <= i <= j < |persisted| ==> persisted[i].expiresAt <= persisted[j].expiresAt
  }

  lemma {:induction false} RunKeepsStamps(now: int, extra: Extra, expiresAt: int, steps: seq<Step>)
    requires Run(Initial(now, extra, expiresAt), steps).Some?
    ensures StampsOk(Run(Initial(now, extra, expiresAt), steps).value)
  {
    if steps != [] {
      RunKeepsStamps(now, extra, expiresAt, steps[..|steps| - 1]);
      StepKeepsStamps(Run(Initial(now, extra, expiresAt), steps[..|steps| - 1]).value, steps[|steps| - 1]);
    }
  }

  /** A token handed out is at least as new as the stamp that was checked. */
  lemma HandedTokensAreAsNewAsTheStamp(now: int, extra: Extra, expiresAt: int, steps: seq<Step>, k: nat)
    requires Run(Initial(now, extra, expiresAt), steps).Some?
    requires var t := Run(Initial(now, extra, expiresAt), steps).value; k < |t.handed|
    ensures var t := Run(Initial(now, extra, expiresAt), steps).value; var h := t.handed[k];
      && h.stamp.Stamp? && h.stamp.index <= h.index < |t.persisted|
      && (ExpiriesGrow(t.persisted) ==> t.persisted[h.index].expiresAt - h.checkedAt > 5 * MINUTE)
  {
    RunKeepsStamps(now, extra, expiresAt, steps);
    var t := Run(Initial(now, extra, expiresAt), steps).value;
    assert HandedOk(t, t.handed[k]);
  }

  // ----- Which token is handed out

  /** Deltas that are not a token's leave the token keys alone. */
  predicate LeavesTokens(delta: Delta) {
    ACCESS_TOKEN !in delta && REFRESH_TOKEN !in delta
  }

  predicate DeltaFits(delta: Delta, tok: Option<Token>) {
    if tok.Some? then delta == TokenDelta(tok.value) else LeavesTokens(delta)
  }

  predicate CarriesFitting(a: Actor) {
    match a
    case Waiting(ToMerge(delta)) => LeavesTokens(delta)
    case Holding(Merging(delta, tok)) => DeltaFits(delta, tok)
    case Holding(Merged(delta, tok, _)) => DeltaFits(delta, tok)
    case _ => true
  }

  predicate QuietStep(step: Step) {
    step.BeginUpdate? ==> LeavesTokens(step.delta)
  }

  ghost predicate Quiet(steps: seq<Step>) {
    forall k :: 0 <= k < |steps| ==> QuietStep(steps[k])
  }

  ghost predicate Fitting(s: State) {
    forall id :: id in s.actors ==> CarriesFitting(s.actors[id])
  }

  lemma StepKeepsFitting(s: State, step: Step)
    requires Fitting(s) && Enabled(s, step) && QuietStep(step)
    ensures Fitting(Apply(s, step))
  {
    hide ApplyDelta, Lookup;
  }

  /** The stored access token is the one persisted last, and so was every token
      handed out at its time. */
  ghost predicate AccessOk(s: State) {
    && s.persisted != [] && Lookup(s.extra, ACCESS_TOKEN) == s.persisted[|s.persisted| - 1].access
    && forall k :: 0 <= k < |s.handed| ==>
      0 <= s.handed[k].index < |s.persisted| && s.handed[k].access == s.persisted[s.handed[k].index].access
  }

  lemma StepKeepsAccess(s: State, step: Step)
    requires LockOk(s) && Fitting(s) && AccessOk(s) && Enabled(s, step)
    ensures AccessOk(Apply(s, step))
  {
    if step.WriteExtra? {
      var w := s.actors[step.id].work;
      assert CarriesFitting(s.actors[step.id]);
      DeltaMeaning(s.extra, w.delta, ACCESS_TOKEN);
      if w.tok.Some? {
        ZeroRefreshTokenKeepsTheStoredOne(s.extra, w.tok.value);
      }
    }
  }

  lemma QuietPrefix(steps: seq<Step>)
    requires Quiet(steps) && steps != []
    ensures Quiet(steps[..|steps| - 1]) && QuietStep(steps[|steps| - 1])
  {
  }

  /** As long as operators leave the token keys alone, a token handed out is
      the text of the persisted token its index names. */
  lemma {:induction false} HandedTokensArePersisted(now: int, extra: Extra, expiresAt: int, steps: seq<Step>)
    requires Run(Initial(now, extra, expiresAt), steps).Some? && Quiet(steps)
    ensures var t := Run(Initial(now, extra, expiresAt), steps).value; Fitting(t) && AccessOk(t)
  {
    if steps != [] {
      var front, last := steps[..|steps| - 1], steps[|steps| - 1];
      QuietPrefix(steps);
      HandedTokensArePersisted(now, extra, expiresAt, front);
      ExtraIsDeltasInLockOrder(now, extra, expiresAt, front);
      StepKeepsFitting(Run(Initial(now, extra, expiresAt), front).value, last);
      StepKeepsAccess(Run(Initial(now, extra, expiresAt), front).value, last);
    }
  }
}
