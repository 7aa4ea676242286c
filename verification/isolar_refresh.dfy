/** What the lock buys: a refresh happens only when the newest token has gone stale
    (internal/credentials/isolar_oauth.go). */
module IsolarRefresh {
  import opened Readings
  import opened IsolarExtra
  import opened IsolarTokens

  /** The token the lock holder got from the provider and has not stored yet. */
  function PendingToken(s: State): Option<Token> {
    if s.holder.Some? && s.holder.value in s.actors then
      match s.actors[s.holder.value]
      case Holding(Merging(_, tok)) => tok
      case Holding(Merged(_, tok, _)) => tok
      case _ => None
    else None
  }

  predicate HoldsStamping(s: State) {
    s.holder.Some? && s.holder.value in s.actors && s.actors[s.holder.value].Holding? && s.actors[s.holder.value].work.Stamping?
  }

  /** Fault-free refresh-and-persist, no re-authorisation, and no operator input
      naming a token key. */
  predicate CalmStep(s: State, step: Step) {
    match step
    case BeginCallback(_, _) => false
    case RefreshLosesReply(_, _) => false
    case BeginUpdate(_, delta) => LeavesTokens(delta)
    case Fail(id) => s.holder == Some(id) ==> PendingToken(s).None? && !HoldsStamping(s)
    case _ => true
  }

  ghost predicate Calm(s: State, steps: seq<Step>)
    requires Run(s, steps).Some?
  {
    steps == [] || (Calm(s, steps[..|steps| - 1]) && CalmStep(Run(s, steps[..|steps| - 1]).value, steps[|steps| - 1]))
  }

  ghost predicate NoReauthorisation(s: State) {
    forall id :: id in s.actors && s.actors[id].Waiting? ==> !s.actors[id].goal.ToStore?
  }

  /** What every calm run keeps of the lock and of the operators' input. */
  ghost predicate CalmOk(s: State) {
    LockOk(s) && Fitting(s) && NoReauthorisation(s)
  }

  lemma StepKeepsCalm(s: State, step: Step)
    requires CalmOk(s) && Enabled(s, step) && CalmStep(s, step)
    ensures CalmOk(Apply(s, step))
  {
    StepKeepsLock(s, step);
    StepKeepsFitting(s, step);
  }

  // ----- One refresh per stale token

  predicate Stale(tok: Token, now: int) {
    tok.expiresAt <= now + REFRESH_WINDOW || tok.access == ""
  }

  function Newest(s: State): Token
    requires s.persisted != []
  {
    s.persisted[|s.persisted| - 1]
  }

  /** A verification puts back the stamp it read; this one finds it unchanged. */
  predicate RestampsCurrent(s: State, step: Step) {
    step.Restamp? && step.id in s.actors && s.actors[step.id].Restamping? ==> s.actors[step.id].stamp == s.stamp
  }

  ghost predicate NoStaleRestamp(s: State, steps: seq<Step>)
    requires Run(s, steps).Some?
  {
    steps == [] ||
    (NoStaleRestamp(s, steps[..|steps| - 1]) && RestampsCurrent(Run(s, steps[..|steps| - 1]).value, steps[|steps| - 1]))
  }

  ghost predicate IsNewest(s: State, stamp: Stamp) {
    stamp.Stamp? && stamp.index == |s.persisted| - 1
  }

  /** Whoever reads the row under the lock reads the newest token's stamp. */
  ghost predicate ReadsNewest(s: State, step: Step) {
    step.Check? && step.id in s.actors && s.actors[step.id] == Holding(Locked) ==> IsNewest(s, s.stamp)
  }

  ghost predicate NoOldRead(s: State, steps: seq<Step>)
    requires Run(s, steps).Some?
  {
    steps == [] ||
    (NoOldRead(s, steps[..|steps| - 1]) && ReadsNewest(Run(s, steps[..|steps| - 1]).value, steps[|steps| - 1]))
  }

  /** What the lock holder saw is current, and it refreshes only a stale token. */
  ghost predicate WorkCurrent(s: State, work: Work)
    requires s.persisted != []
  {
    match work
    case LockedRow(stamp) => IsNewest(s, stamp)
    case LockedFresh(stamp, _) => IsNewest(s, stamp)
    case MustRefresh => Stale(Newest(s), s.now)
    case HasCredentials(_) => Stale(Newest(s), s.now)
    case Stamping(tok, index) => index == |s.persisted| - 1
    case _ => true
  }

  /** Refresh k was made while token k was the newest, and stale. */
  ghost predicate RefreshesInStep(s: State) {
    && |s.refreshes| == |s.persisted| - 1 + (if PendingToken(s).Some? then 1 else 0)
    && forall k :: 0 <= k < |s.refreshes| ==>
      s.refreshes[k].index == k < |s.persisted| && Stale(s.persisted[k], s.refreshes[k].at)
  }

  ghost predicate CurrentOk(s: State) {
    && s.persisted != []
    && (forall id :: id in s.actors && s.actors[id].Holding? ==> WorkCurrent(s, s.actors[id].work))
    && RefreshesInStep(s)
  }

  /** Except between the two writes of a token the row carries the newest stamp. */
  ghost predicate StampCurrent(s: State) {
    !HoldsStamping(s) ==> IsNewest(s, s.stamp)
  }

  lemma StepKeepsRefreshesInStep(s: State, step: Step)
    requires LockOk(s) && NoReauthorisation(s) && CurrentOk(s) && Enabled(s, step) && CalmStep(s, step)
    ensures RefreshesInStep(Apply(s, step))
  {
  }

  lemma StepKeepsNewestStamp(s: State, step: Step)
    requires LockOk(s) && CurrentOk(s) && StampCurrent(s) && Enabled(s, step)
    requires CalmStep(s, step) && RestampsCurrent(s, step)
    ensures StampCurrent(Apply(s, step))
  {
    if step.StampExpiry? {
      assert WorkCurrent(s, s.actors[step.id].work);
    }
  }

  lemma StepKeepsWorkCurrent(s: State, step: Step, id: nat)
    requires LockOk(s) && StampsOk(s) && AccessOk(s) && CurrentOk(s) && Enabled(s, step)
    requires CalmStep(s, step) && ReadsNewest(s, step)
    requires id in Apply(s, step).actors && Apply(s, step).actors[id].Holding?
    ensures Apply(s, step).persisted != [] && WorkCurrent(Apply(s, step), Apply(s, step).actors[id].work)
  {
    if id in s.actors && Apply(s, step).actors[id] == s.actors[id] {
      KeptWorkCurrent(s, step, id);
    } else if step.WriteExtra? || step.StampExpiry? || step.Fail? {
      assert id == step.id && s.actors[id].Holding?;
    } else {
      assert Apply(s, step).persisted == s.persisted && Apply(s, step).now == s.now;
      if step == Check(id) || step == OpenToken(id) {
        RechecksCurrent(s, step, id);
      }
    }
  }

  lemma KeptWorkCurrent(s: State, step: Step, id: nat)
    requires LockOk(s) && CurrentOk(s) && Enabled(s, step)
    requires id in s.actors && s.actors[id].Holding? && id in Apply(s, step).actors && Apply(s, step).actors[id] == s.actors[id]
    ensures Apply(s, step).persisted != [] && WorkCurrent(Apply(s, step), s.actors[id].work)
  {
    assert WorkCurrent(s, s.actors[id].work);
  }

  lemma RechecksCurrent(s: State, step: Step, id: nat)
    requires StampsOk(s) && AccessOk(s) && CurrentOk(s) && Enabled(s, step) && (step == Check(id) || step == OpenToken(id))
    requires ReadsNewest(s, step)
    requires LockOk(s) && id in s.actors && id in Apply(s, step).actors && Apply(s, step).actors[id].Holding?
    ensures WorkCurrent(s, Apply(s, step).actors[id].work)
  {
    assert Holds(s, id) && WorkCurrent(s, s.actors[id].work) && StampOk(s, CarriedStamp(s.actors[id]));
  }

  lemma StepKeepsCurrent(s: State, step: Step)
    requires LockOk(s) && StampsOk(s) && AccessOk(s) && NoReauthorisation(s) && CurrentOk(s) && Enabled(s, step)
    requires CalmStep(s, step) && ReadsNewest(s, step)
    ensures CurrentOk(Apply(s, step))
  {
    StepKeepsRefreshesInStep(s, step);
    var t := Apply(s, step);
    forall id | id in t.actors && t.actors[id].Holding? ensures WorkCurrent(t, t.actors[id].work) {
      StepKeepsWorkCurrent(s, step, id);
    }
  }

  lemma {:induction false} RunKeepsCurrent(now: int, extra: Extra, expiresAt: int, steps: seq<Step>)
    requires Run(Initial(now, extra, expiresAt), steps).Some?
    requires Calm(Initial(now, extra, expiresAt), steps) && NoOldRead(Initial(now, extra, expiresAt), steps)
    ensures var t := Run(Initial(now, extra, expiresAt), steps).value;
      StampsOk(t) && AccessOk(t) && CalmOk(t) && CurrentOk(t)
  {
    if steps != [] {
      var s0, front, last := Initial(now, extra, expiresAt), steps[..|steps| - 1], steps[|steps| - 1];
      RunKeepsCurrent(now, extra, expiresAt, front);
      var mid := Run(s0, front).value;
      StepKeepsStamps(mid, last);
      StepKeepsAccess(mid, last);
      StepKeepsCalm(mid, last);
      StepKeepsCurrent(mid, last);
    }
  }

  /** However verifications put stamps back: as long as nobody reads an old one under
      the lock, refresh k is made only once the token refresh k - 1 brought is stale
      in turn. */
  lemma OneRefreshUnlessOldRead(now: int, extra: Extra, expiresAt: int, steps: seq<Step>, k: nat)
    requires Run(Initial(now, extra, expiresAt), steps).Some?
    requires Calm(Initial(now, extra, expiresAt), steps) && NoOldRead(Initial(now, extra, expiresAt), steps)
    requires k < |Run(Initial(now, extra, expiresAt), steps).value.refreshes|
    ensures var t := Run(Initial(now, extra, expiresAt), steps).value;
      && k < |t.persisted| && t.refreshes[k].index == k
      && (t.persisted[k].expiresAt <= t.refreshes[k].at + 5 * MINUTE || t.persisted[k].access == "")
  {
    RunKeepsCurrent(now, extra, expiresAt, steps);
  }

  /** Without stale restamps nobody reads an old stamp under the lock. */
  lemma {:induction false} NoStaleRestampNoOldRead(now: int, extra: Extra, expiresAt: int, steps: seq<Step>)
    requires Run(Initial(now, extra, expiresAt), steps).Some?
    requires Calm(Initial(now, extra, expiresAt), steps) && NoStaleRestamp(Initial(now, extra, expiresAt), steps)
    ensures NoOldRead(Initial(now, extra, expiresAt), steps) && StampCurrent(Run(Initial(now, extra, expiresAt), steps).value)
  {
    if steps != [] {
      var s0, front, last := Initial(now, extra, expiresAt), steps[..|steps| - 1], steps[|steps| - 1];
      NoStaleRestampNoOldRead(now, extra, expiresAt, front);
      RunKeepsCurrent(now, extra, expiresAt, front);
      hide Apply, Enabled, CurrentOk, StampsOk, AccessOk;
      StepKeepsNewestStamp(Run(s0, front).value, last);
    }
  }

  /** Callers waiting on one expiring token cause one refresh, when no verification
      puts back a stamp another has replaced. */
  lemma OneRefreshPerStaleToken(now: int, extra: Extra, expiresAt: int, steps: seq<Step>, k: nat)
    requires Run(Initial(now, extra, expiresAt), steps).Some?
    requires Calm(Initial(now, extra, expiresAt), steps) && NoStaleRestamp(Initial(now, extra, expiresAt), steps)
    requires k < |Run(Initial(now, extra, expiresAt), steps).value.refreshes|
    ensures var t := Run(Initial(now, extra, expiresAt), steps).value;
      && k < |t.persisted| && t.refreshes[k].index == k
      && (t.persisted[k].expiresAt <= t.refreshes[k].at + 5 * MINUTE || t.persisted[k].access == "")
  {
    NoStaleRestampNoOldRead(now, extra, expiresAt, steps);
    OneRefreshUnlessOldRead(now, extra, expiresAt, steps, k);
  }

  /** Putting back a stamp leaves the newest one in place iff nothing was
      stamped since it was read. */
  lemma RestampIsHarmlessIff(s: State, id: nat)
    requires StampsOk(s) && IsNewest(s, s.stamp) && Enabled(s, Restamp(id))
    ensures IsNewest(Apply(s, Restamp(id)), Apply(s, Restamp(id)).stamp) <==> RestampsCurrent(s, Restamp(id))
  {
    assert StampOk(s, CarriedStamp(s.actors[id]));
  }

  // ----- A caller's walk to the refresh

  lemma Extend(s0: State, steps: seq<Step>, s: State, step: Step)
    requires Run(s0, steps) == Some(s) && Enabled(s, step)
    ensures Run(s0, steps + [step]) == Some(Apply(s, step))
  {
    assert (steps + [step])[..|steps|] == steps;
  }

  lemma {:induction false} RunConcat(s0: State, a: seq<Step>, s: State, b: seq<Step>)
    requires Run(s0, a) == Some(s)
    ensures Run(s0, a + b) == Run(s, b)
  {
    if b == [] {
      assert a + b == a;
    } else {
      RunConcat(s0, a, s, b[..|b| - 1]);
      assert (a + b)[..|a + b| - 1] == a + b[..|b| - 1];
    }
  }

  /** A caller that finds a stale stamp walks to the point of refreshing. */
  function ToCredentials(id: nat): seq<Step> {
    [BeginCall(id), Check(id), Acquire(id), Check(id), Check(id), ReadExtra(id)]
  }

  function AtCredentials(s: State, id: nat): State {
    s.(holder := Some(id), actors := s.actors[id := Holding(HasCredentials(Lookup(s.extra, REFRESH_TOKEN)))])
  }

  function With(s: State, id: nat, holder: Option<nat>, a: Actor): State {
    s.(holder := holder, actors := s.actors[id := a])
  }

  lemma Replace(s: State, id: nat, h: Option<nat>, a: Actor, b: Actor)
    ensures Goto(With(s, id, h, a), id, b) == With(s, id, h, b)
  {
    assert s.actors[id := a][id := b] == s.actors[id := b];
  }

  lemma CallerReachesCredentials(s: State, id: nat)
    requires id !in s.actors && s.holder == None && !IsFresh(s.stamp, s.now)
    ensures Run(s, ToCredentials(id)) == Some(AtCredentials(s, id))
  {
    var steps := ToCredentials(id);
    var s1 := With(s, id, None, Row(s.stamp));
    var s2 := With(s, id, None, Waiting(ToRefresh));
    var s3 := With(s, id, Some(id), Holding(Locked));
    var s4 := With(s, id, Some(id), Holding(LockedRow(s.stamp)));
    var s5 := With(s, id, Some(id), Holding(MustRefresh));
    Extend(s, [], s, steps[0]);
    assert [] + [steps[0]] == steps[..1];
    Replace(s, id, None, Row(s.stamp), Waiting(ToRefresh));
    Extend(s, steps[..1], s1, steps[1]);
    assert steps[..1] + [steps[1]] == steps[..2];
    assert s.actors[id := Waiting(ToRefresh)][id := Holding(Locked)] == s.actors[id := Holding(Locked)];
    Extend(s, steps[..2], s2, steps[2]);
    assert steps[..2] + [steps[2]] == steps[..3];
    CallerRechecks(s, id);
    RunConcat(s, steps[..3], s3, steps[3..]);
    assert steps[..3] + steps[3..] == steps;
  }

  lemma CallerRechecks(s: State, id: nat)
    requires !IsFresh(s.stamp, s.now)
    ensures Run(With(s, id, Some(id), Holding(Locked)), ToCredentials(id)[3..]) == Some(AtCredentials(s, id))
  {
    var steps := ToCredentials(id)[3..];
    var s3 := With(s, id, Some(id), Holding(Locked));
    var s4 := With(s, id, Some(id), Holding(LockedRow(s.stamp)));
    var s5 := With(s, id, Some(id), Holding(MustRefresh));
    Replace(s, id, Some(id), Holding(Locked), Holding(LockedRow(s.stamp)));
    Extend(s3, [], s3, steps[0]);
    assert [] + [steps[0]] == steps[..1];
    Replace(s, id, Some(id), Holding(LockedRow(s.stamp)), Holding(MustRefresh));
    Extend(s3, steps[..1], s4, steps[1]);
    assert steps[..1] + [steps[1]] == steps[..2];
    Replace(s, id, Some(id), Holding(MustRefresh), Holding(HasCredentials(Lookup(s.extra, REFRESH_TOKEN))));
    Extend(s3, steps[..2], s5, steps[2]);
    assert steps[..2] + [steps[2]] == steps;
  }

  // ----- Which old reads cause a second refresh

  lemma RunThree(s: State, a: Step, b: Step, c: Step)
    ensures Run(s, [a]) == if Enabled(s, a) then Some(Apply(s, a)) else None
    ensures Run(s, [a, b]) ==
      if Run(s, [a]).Some? && Enabled(Run(s, [a]).value, b) then Some(Apply(Run(s, [a]).value, b)) else None
    ensures Run(s, [a, b, c]) ==
      if Run(s, [a, b]).Some? && Enabled(Run(s, [a, b]).value, c) then Some(Apply(Run(s, [a, b]).value, c)) else None
  {
    hide Enabled, Apply;
    assert [a][..0] == [] && [a, b][..1] == [a] && [a, b, c][..2] == [a, b];
  }

  lemma GoodStampIsFresh(s: State, stamp: Stamp)
    requires s.persisted != [] && StampOk(s, stamp) && !Stale(Newest(s), s.now)
    ensures IsNewest(s, stamp) ==> IsFresh(stamp, s.now)
  {
  }

  lemma OldStampRefreshes(s: State, id: nat, tok: Token)
    requires Holds(s, id) && s.actors[id].work.LockedRow? && !IsFresh(s.actors[id].work.stamp, s.now)
    ensures var t := Run(s, [Check(id), ReadExtra(id), Refresh(id, tok)]);
      && t.Some?
      && t.value.refreshes
        == s.refreshes + [Refreshed(Lookup(s.extra, REFRESH_TOKEN), s.issued, |s.persisted| - 1, s.now)]
    ensures Run(s, [Check(id), OpenToken(id)]).None?
  {
    hide Run, ApplyDelta, TokenDelta, IsFresh;
    RunThree(s, Check(id), ReadExtra(id), Refresh(id, tok));
    RunThree(s, Check(id), OpenToken(id), OpenToken(id));
  }

  lemma FreshStampHandsOut(s: State, id: nat, tok: Token)
    requires AccessOk(s) && Holds(s, id) && s.actors[id].work.LockedRow? && IsFresh(s.actors[id].work.stamp, s.now)
    requires Newest(s).access != ""
    ensures var t := Run(s, [Check(id), OpenToken(id)]);
      t.Some? && t.value.handed == s.handed + [Handed(Newest(s).access, |s.persisted| - 1, s.actors[id].work.stamp, s.now)]
    ensures Run(s, [Check(id), ReadExtra(id), Refresh(id, tok)]).None?
  {
    hide Run, ApplyDelta, TokenDelta, IsFresh;
    RunThree(s, Check(id), ReadExtra(id), Refresh(id, tok));
    RunThree(s, Check(id), OpenToken(id), OpenToken(id));
  }

  /** While the newest token is good, a caller under the lock that has read the row can
      go on to refresh exactly when the stamp it read is an old one and no longer
      fresh; otherwise it hands out the newest token. */
  lemma NeedlessRefreshIff(s: State, id: nat, tok: Token)
    requires StampsOk(s) && AccessOk(s) && Holds(s, id) && s.actors[id].work.LockedRow? && !Stale(Newest(s), s.now)
    ensures var stamp := s.actors[id].work.stamp;
      var refreshed := Run(s, [Check(id), ReadExtra(id), Refresh(id, tok)]);
      var handed := Run(s, [Check(id), OpenToken(id)]);
      && (refreshed.Some? <==> !IsNewest(s, stamp) && !IsFresh(stamp, s.now))
      && (refreshed.Some? ==>
            refreshed.value.refreshes
            == s.refreshes + [Refreshed(Lookup(s.extra, REFRESH_TOKEN), s.issued, |s.persisted| - 1, s.now)])
      && (handed.Some? <==> !refreshed.Some?)
      && (handed.Some? ==>
            handed.value.handed == s.handed + [Handed(Newest(s).access, |s.persisted| - 1, stamp, s.now)])
  {
    hide Run, IsFresh;
    assert StampOk(s, CarriedStamp(s.actors[id]));
    GoodStampIsFresh(s, s.actors[id].work.stamp);
    if IsFresh(s.actors[id].work.stamp, s.now) {
      FreshStampHandsOut(s, id, tok);
    } else {
      OldStampRefreshes(s, id, tok);
    }
  }

  lemma {:induction false} LongerRunsRunPrefixes(s: State, steps: seq<Step>, n: nat)
    requires n <= |steps| && Run(s, steps).Some?
    ensures Run(s, steps[..n]).Some?
  {
    if n < |steps| {
      LongerRunsRunPrefixes(s, steps[..|steps| - 1], n);
      assert steps[..|steps| - 1][..n] == steps[..n];
    } else {
      assert steps[..n] == steps;
    }
  }

  lemma FreshCallerNeverLocks(s: State, id: nat, steps: seq<Step>)
    requires IsFresh(s.stamp, s.now) && |steps| > 2 && steps[..3] == [BeginCall(id), Check(id), Acquire(id)]
    ensures Run(s, steps).None?
  {
    hide IsFresh;
    if Run(s, steps).Some? {
      LongerRunsRunPrefixes(s, steps, 3);
      RunThree(s, BeginCall(id), Check(id), Acquire(id));
      assert false;
    }
  }

  /** A verification's stamp, put back, makes the next caller refresh a good token
      exactly when that stamp is an old one and no longer fresh. */
  lemma NextCallRefreshesIff(s: State, verifier: nat, caller: nat, tok: Token)
    requires StampsOk(s) && s.holder == None && caller !in s.actors && !Stale(Newest(s), s.now)
    requires Enabled(s, Restamp(verifier))
    ensures var t := Apply(s, Restamp(verifier));
      Run(t, ToCredentials(caller) + [Refresh(caller, tok)]).Some? <==> !IsNewest(t, t.stamp) && !IsFresh(t.stamp, t.now)
  {
    hide ApplyDelta, TokenDelta, IsFresh, Stale;
    var t := Apply(s, Restamp(verifier));
    var calls := ToCredentials(caller) + [Refresh(caller, tok)];
    assert StampOk(s, CarriedStamp(s.actors[verifier]));
    assert IsNewest(t, t.stamp) ==> IsFresh(t.stamp, t.now) by {
      GoodStampIsFresh(s, t.stamp);
    }
    if IsFresh(t.stamp, t.now) {
      FreshCallerNeverLocks(t, caller, calls);
    } else {
      CallerReachesCredentials(t, caller);
      Extend(t, ToCredentials(caller), AtCredentials(t, caller), Refresh(caller, tok));
    }
  }

  // ----- Why the conditions are needed

  /** A callback exchanges its code before it takes the lock, so a refresh in
      flight presents a token the provider has already replaced. */
  lemma CallbackOvertakesRefresh(now: int, extra: Extra, expiresAt: int, other: Token, answer: Token)
    requires expiresAt <= now + REFRESH_WINDOW
    requires other.refresh != "" && other.refresh != Lookup(extra, REFRESH_TOKEN)
    ensures var s0 := Initial(now, extra, expiresAt);
      var t := Run(s0, ToCredentials(1) + [BeginCallback(2, other), Refresh(1, answer)]);
      t.Some? && |t.value.refreshes| == 1 && t.value.refreshes[0].presented != t.value.refreshes[0].issued
  {
    var s0 := Initial(now, extra, expiresAt);
    CallerReachesCredentials(s0, 1);
    var s1 := AtCredentials(s0, 1);
    var tail := [BeginCallback(2, other), Refresh(1, answer)];
    Extend(s1, [], s1, tail[0]);
    assert [] + [tail[0]] == tail[..1];
    Extend(s1, tail[..1], Apply(s1, tail[0]), tail[1]);
    assert tail[..1] + [tail[1]] == tail;
    RunConcat(s0, ToCredentials(1), s1, tail);
  }

  function Completing(id: nat, tok: Token): seq<Step> {
    [Refresh(id, tok), ReadExtra(id), WriteExtra(id), StampExpiry(id), Release(id)]
  }

  function RefreshRecord(s: State): Refreshed {
    Refreshed(Lookup(s.extra, REFRESH_TOKEN), s.issued, |s.persisted| - 1, s.now)
  }

  function AfterWrite(s: State, tok: Token): State {
    s.(issued := Issue(s.issued, tok), refreshes := s.refreshes + [RefreshRecord(s)],
       extra := ApplyDelta(s.extra, TokenDelta(tok)), deltas := s.deltas + [TokenDelta(tok)],
       persisted := s.persisted + [tok])
  }

  function Completed(s: State, tok: Token): State {
    AfterWrite(s, tok).(stamp := Stamp(tok.expiresAt, |s.persisted|))
  }

  lemma CallerWrites(s: State, id: nat, tok: Token)
    ensures Run(AtCredentials(s, id), Completing(id, tok)[..3])
      == Some(With(AfterWrite(s, tok), id, Some(id), Holding(Stamping(tok, |s.persisted|))))
  {
    hide ApplyDelta, TokenDelta, Lookup, Issue;
    var steps, s0 := Completing(id, tok), AtCredentials(s, id);
    var base := s.(issued := Issue(s.issued, tok), refreshes := s.refreshes + [RefreshRecord(s)]);
    var merging := Merging(TokenDelta(tok), Some(tok));
    var merged := Merged(TokenDelta(tok), Some(tok), s.extra);
    Extend(s0, [], s0, steps[0]);
    assert [] + [steps[0]] == steps[..1];
    assert Apply(s0, steps[0]) == With(base, id, Some(id), Holding(merging)) by {
      Replace(base, id, Some(id), s0.actors[id], Holding(merging));
    }
    Extend(s0, steps[..1], With(base, id, Some(id), Holding(merging)), steps[1]);
    assert steps[..1] + [steps[1]] == steps[..2];
    Replace(base, id, Some(id), Holding(merging), Holding(merged));
    Extend(s0, steps[..2], With(base, id, Some(id), Holding(merged)), steps[2]);
    assert steps[..2] + [steps[2]] == steps[..3];
    Replace(AfterWrite(s, tok), id, Some(id), Holding(merged), Holding(Stamping(tok, |s.persisted|)));
  }

  lemma CallerCompletes(s: State, id: nat, tok: Token)
    requires id !in s.actors && s.holder == None
    ensures Run(AtCredentials(s, id), Completing(id, tok)) == Some(Completed(s, tok))
  {
    var steps, s0 := Completing(id, tok), AtCredentials(s, id);
    CallerWrites(s, id, tok);
    Extend(s0, steps[..3], With(AfterWrite(s, tok), id, Some(id), Holding(Stamping(tok, |s.persisted|))), steps[3]);
    assert steps[..3] + [steps[3]] == steps[..4];
    Replace(Completed(s, tok), id, Some(id), Holding(Stamping(tok, |s.persisted|)), Holding(Releasing));
    Extend(s0, steps[..4], With(Completed(s, tok), id, Some(id), Holding(Releasing)), steps[4]);
    assert s.actors[id := Holding(Releasing)] - {id} == s.actors;
    assert steps[..4] + [steps[4]] == steps;
  }

  /** A verification that puts a stale stamp back makes the next caller refresh
      a token that is still fresh. */
  function StaleRestamp(first: Token, second: Token): seq<Step> {
    [BeginVerify(0)] + (ToCredentials(1) + (Completing(1, first) + ([Restamp(0)] + (ToCredentials(2) + [Refresh(2, second)]))))
  }

  lemma StaleRestampRefreshesTwice(now: int, extra: Extra, expiresAt: int, first: Token, second: Token)
    requires expiresAt <= now + REFRESH_WINDOW && !Stale(first, now)
    ensures var t := Run(Initial(now, extra, expiresAt), StaleRestamp(first, second));
      && t.Some? && |t.value.refreshes| == 2 && t.value.refreshes[1].at == now
      && |t.value.persisted| == 2 && t.value.persisted[1] == first
  {
    var s0 := Initial(now, extra, expiresAt);
    var s1 := s0.(actors := map[0 := Restamping(s0.stamp)]);
    Extend(s0, [], s0, BeginVerify(0));
    assert [] + [BeginVerify(0)] == [BeginVerify(0)];
    var rest5 := ToCredentials(2) + [Refresh(2, second)];
    var rest4 := [Restamp(0)] + rest5;
    var rest3 := Completing(1, first) + rest4;
    RunConcat(s0, [BeginVerify(0)], s1, ToCredentials(1) + rest3);
    CallerReachesCredentials(s1, 1);
    RunConcat(s1, ToCredentials(1), AtCredentials(s1, 1), rest3);
    CallerCompletes(s1, 1, first);
    var s2 := Completed(s1, first);
    RunConcat(AtCredentials(s1, 1), Completing(1, first), s2, rest4);
    RestampedCallerRefreshes(s2, second);
  }

  lemma RestampedCallerRefreshes(s: State, second: Token)
    requires s.holder == None && |s.persisted| == 2 && s.persisted[0].expiresAt <= s.now + REFRESH_WINDOW
    requires s.actors == map[0 := Restamping(Stamp(s.persisted[0].expiresAt, 0))]
    ensures var t := Run(s, [Restamp(0)] + (ToCredentials(2) + [Refresh(2, second)]));
      && t.Some? && |t.value.refreshes| == |s.refreshes| + 1 && t.value.refreshes[|s.refreshes|].at == s.now
      && t.value.persisted == s.persisted
  {
    var s3 := Apply(s, Restamp(0));
    Extend(s, [], s, Restamp(0));
    assert [] + [Restamp(0)] == [Restamp(0)];
    RunConcat(s, [Restamp(0)], s3, ToCredentials(2) + [Refresh(2, second)]);
    CallerReachesCredentials(s3, 2);
    var s4 := AtCredentials(s3, 2);
    RunConcat(s3, ToCredentials(2), s4, [Refresh(2, second)]);
    Extend(s4, [], s4, Refresh(2, second));
    assert [] + [Refresh(2, second)] == [Refresh(2, second)];
  }
}
