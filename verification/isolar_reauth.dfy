/** Refresh tokens when operators authorise again meanwhile: what a refresh
    presents, and exactly when that is the token the provider issued last
    (internal/credentials/isolar_oauth.go). */
module IsolarReauthorisation {
  import opened Readings
  import opened IsolarExtra
  import opened IsolarTokens
  import opened IsolarRefresh

  // ----- The life of a refresh token

  function NonEmpty(r: string): seq<string> {
    if r == "" then [] else [r]
  }

  /** The refresh token a step makes the provider issue. */
  function IssuedBy(step: Step): seq<string> {
    match step
    case BeginCallback(_, tok) => NonEmpty(tok.refresh)
    case Refresh(_, tok) => NonEmpty(tok.refresh)
    case RefreshLosesReply(_, tok) => NonEmpty(tok.refresh)
    case _ => []
  }

  /** The refresh token an actor got from the provider and has not written yet. */
  function CarriedBy(a: Actor): seq<string> {
    match a
    case Waiting(ToStore(tok)) => NonEmpty(tok.refresh)
    case Holding(Merging(_, Some(tok))) => NonEmpty(tok.refresh)
    case Holding(Merged(_, Some(tok), _)) => NonEmpty(tok.refresh)
    case _ => []
  }

  function StoredBy(s: State, step: Step): seq<string>
    requires Enabled(s, step)
  {
    if step.WriteExtra? then CarriedBy(s.actors[step.id]) else []
  }

  /** A reply that never arrives, or an actor that gives up with its token. */
  function LostBy(s: State, step: Step): seq<string>
    requires Enabled(s, step)
  {
    match step
    case RefreshLosesReply(_, tok) => NonEmpty(tok.refresh)
    case Fail(id) => CarriedBy(s.actors[id])
    case _ => []
  }

  /** Refresh tokens in the order they were issued, stored and lost. */
  datatype Ledger = Ledger(issued: seq<string>, stored: seq<string>, lost: seq<string>)

  function LedgerOf(s0: State, steps: seq<Step>): (l: Ledger)
    requires Run(s0, steps).Some?
    ensures l.issued != [] && l.stored != []
  {
    if steps == [] then Ledger([Lookup(s0.extra, REFRESH_TOKEN)], [Lookup(s0.extra, REFRESH_TOKEN)], [])
    else
      var front, step := steps[..|steps| - 1], steps[|steps| - 1];
      Booked(LedgerOf(s0, front), Run(s0, front).value, step)
  }

  function Booked(l: Ledger, s: State, step: Step): Ledger
    requires Enabled(s, step)
  {
    Ledger(l.issued + IssuedBy(step), l.stored + StoredBy(s, step), l.lost + LostBy(s, step))
  }

  function Last(l: seq<string>): string
    requires l != []
  {
    l[|l| - 1]
  }

  ghost predicate Distinct(l: seq<string>) {
    forall i, j :: 0 <= i < j < |l| ==> l[i] != l[j]
  }

  // ----- What a refresh presents

  /** The store holds the last token written, the lock holder has read it, and the
      provider's last token is the last one issued. */
  ghost predicate StoreOk(s: State, l: Ledger) {
    && l.issued != [] && l.stored != []
    && s.issued == Last(l.issued) && Lookup(s.extra, REFRESH_TOKEN) == Last(l.stored)
    && forall id: nat :: HasReadCredentials(s, id) ==> s.actors[id].work.refresh == Last(l.stored)
  }

  lemma StepIssuesAndStores(s: State, step: Step)
    requires LockOk(s) && Fitting(s) && Enabled(s, step)
    ensures |IssuedBy(step)| <= 1 && |StoredBy(s, step)| <= 1
    ensures Apply(s, step).issued == if IssuedBy(step) == [] then s.issued else IssuedBy(step)[0]
    ensures Lookup(Apply(s, step).extra, REFRESH_TOKEN)
      == if StoredBy(s, step) == [] then Lookup(s.extra, REFRESH_TOKEN) else StoredBy(s, step)[0]
  {
    if step.WriteExtra? {
      var w := s.actors[step.id].work;
      assert CarriesFitting(s.actors[step.id]) && w.base == s.extra;
      DeltaMeaning(s.extra, w.delta, REFRESH_TOKEN);
      if w.tok.Some? {
        ZeroRefreshTokenKeepsTheStoredOne(s.extra, w.tok.value);
      }
    }
  }

  predicate HasReadCredentials(s: State, id: nat) {
    id in s.actors && s.actors[id].Holding? && s.actors[id].work.HasCredentials?
  }

  /** What a lock holder has read of the store stays what is stored. */
  lemma ReadCredentialsKept(s: State, step: Step)
    requires LockOk(s) && Enabled(s, step)
    ensures forall id: nat :: HasReadCredentials(Apply(s, step), id) ==>
      StoredBy(s, step) == [] &&
      ((Apply(s, step).actors[id].work.refresh == Lookup(s.extra, REFRESH_TOKEN)
        && step == ReadExtra(id) && id in s.actors && s.actors[id] == Holding(MustRefresh))
       || (HasReadCredentials(s, id) && Apply(s, step).actors[id] == s.actors[id]))
  {
  }

  lemma StepKeepsStore(s: State, l: Ledger, step: Step)
    requires StoreOk(s, l) && LockOk(s) && Fitting(s) && Enabled(s, step)
    ensures StoreOk(Apply(s, step), Booked(l, s, step))
  {
    hide ApplyDelta, TokenDelta, Lookup, IssuedBy, StoredBy, LostBy;
    StepIssuesAndStores(s, step);
    ReadCredentialsKept(s, step);
  }

  lemma {:induction false} RunKeepsStore(now: int, extra: Extra, expiresAt: int, steps: seq<Step>)
    requires Run(Initial(now, extra, expiresAt), steps).Some? && Quiet(steps)
    ensures var t := Run(Initial(now, extra, expiresAt), steps).value;
      LockOk(t) && Fitting(t) && StoreOk(t, LedgerOf(Initial(now, extra, expiresAt), steps))
  {
    if steps != [] {
      var s0, front, step := Initial(now, extra, expiresAt), steps[..|steps| - 1], steps[|steps| - 1];
      QuietPrefix(steps);
      RunKeepsStore(now, extra, expiresAt, front);
      var s := Run(s0, front).value;
      StepKeepsLock(s, step);
      StepKeepsFitting(s, step);
      StepKeepsStore(s, LedgerOf(s0, front), step);
    }
  }

  /** A step that presents a refresh token, whether or not the reply arrives. */
  predicate Presents(step: Step) {
    step.Refresh? || step.RefreshLosesReply?
  }

  function Presented(s: State, step: Step): Refreshed
    requires Presents(step) && Enabled(s, step)
  {
    Refreshed(s.actors[step.id].work.refresh, s.issued, |s.persisted| - 1, s.now)
  }

  lemma StepPresents(s: State, step: Step)
    requires Enabled(s, step)
    ensures Apply(s, step).refreshes == s.refreshes + if Presents(step) then [Presented(s, step)] else []
  {
  }

  /** Whatever is authorised, fails or is lost meanwhile: a refresh presents the
      refresh token written last. */
  lemma RefreshPresentsTheLastStored(now: int, extra: Extra, expiresAt: int, steps: seq<Step>, step: Step)
    requires Run(Initial(now, extra, expiresAt), steps).Some? && Quiet(steps)
    requires Presents(step) && Enabled(Run(Initial(now, extra, expiresAt), steps).value, step)
    ensures var s, l := Run(Initial(now, extra, expiresAt), steps).value, LedgerOf(Initial(now, extra, expiresAt), steps);
      var r := Presented(s, step);
      r.presented == Last(l.stored) && r.issued == Last(l.issued)
  {
    RunKeepsStore(now, extra, expiresAt, steps);
  }

  // ----- Where an issued token is

  function CarriedAt(s: State, id: nat): seq<string> {
    if id in s.actors then CarriedBy(s.actors[id]) else []
  }

  ghost predicate Carried(s: State, r: string) {
    exists id :: CarriedAt(s, id) == [r]
  }

  /** Every issued token is exactly one of stored, lost, and carried by one actor. */
  ghost predicate Accounted(s: State, l: Ledger) {
    && Distinct(l.stored)
    && (forall r :: r in l.stored || r in l.lost ==> r in l.issued && !(r in l.stored && r in l.lost))
    && (forall r :: r in l.issued ==> r in l.stored || r in l.lost || Carried(s, r))
    && (forall id, r :: CarriedAt(s, id) == [r] ==> r in l.issued && r !in l.stored && r !in l.lost)
    && (forall i, j, r :: CarriedAt(s, i) == [r] && CarriedAt(s, j) == [r] ==> i == j)
  }

  function Who(step: Step): Option<nat> {
    if step.Tick? then None else Some(step.id)
  }

  /** The token a step moves, if any: carried before or issued now, and afterwards
      stored, lost or carried. */
  function Moved(s: State, step: Step): seq<string> {
    (if step.Tick? then [] else CarriedAt(s, step.id)) + IssuedBy(step)
  }

  lemma TokensAreConserved(s: State, step: Step)
    requires LockOk(s) && Enabled(s, step)
    ensures |Moved(s, step)| <= 1 && (step.Tick? ==> Moved(s, step) == [])
    ensures Moved(s, step)
      == StoredBy(s, step) + LostBy(s, step) + if step.Tick? then [] else CarriedAt(Apply(s, step), step.id)
    ensures forall id: nat :: Who(step) != Some(id) ==> CarriedAt(Apply(s, step), id) == CarriedAt(s, id)
  {
  }

  lemma NothingMoves(s: State, t: State, l: Ledger)
    requires Accounted(s, l) && forall id: nat :: CarriedAt(t, id) == CarriedAt(s, id)
    ensures Accounted(t, l)
  {
    hide CarriedAt, Distinct;
    forall r | Carried(s, r) ensures Carried(t, r) {
      var id: nat :| CarriedAt(s, id) == [r];
      assert CarriedAt(t, id) == [r];
    }
  }

  /** r was carried by id or is new; now it is stored, lost or carried by id. */
  ghost predicate MovesTo(s: State, t: State, l: Ledger, k: Ledger, id: nat, r: string) {
    && (forall j: nat :: j != id ==> CarriedAt(t, j) == CarriedAt(s, j))
    && ((CarriedAt(s, id) == [r] && k.issued == l.issued)
      || (CarriedAt(s, id) == [] && k.issued == l.issued + [r] && r !in l.issued))
    && ((k.stored == l.stored + [r] && k.lost == l.lost && CarriedAt(t, id) == [])
      || (k.stored == l.stored && k.lost == l.lost + [r] && CarriedAt(t, id) == [])
      || (k.stored == l.stored && k.lost == l.lost && CarriedAt(t, id) == [r]))
  }

  lemma TokenMoves(s: State, t: State, l: Ledger, k: Ledger, id: nat, r: string, issued: seq<string>, stored: seq<string>,
                   lost: seq<string>)
    requires CarriedAt(s, id) + issued == stored + lost + CarriedAt(t, id) == [r] && (issued == [r] ==> r !in l.issued)
    requires k == Ledger(l.issued + issued, l.stored + stored, l.lost + lost)
    requires forall j: nat :: j != id ==> CarriedAt(t, j) == CarriedAt(s, j)
    ensures MovesTo(s, t, l, k, id, r)
  {
    hide CarriedAt;
    assert |CarriedAt(s, id)| + |issued| == 1 == |stored| + |lost| + |CarriedAt(t, id)|;
    assert l.issued + [] == l.issued && l.stored + [] == l.stored && l.lost + [] == l.lost;
    OneOf(CarriedAt(s, id), issued, [], r);
    OneOf(stored, lost, CarriedAt(t, id), r);
  }

  lemma OneOf(a: seq<string>, b: seq<string>, c: seq<string>, r: string)
    requires a + b + c == [r]
    ensures (a == [r] && b == [] && c == []) || (a == [] && b == [r] && c == []) || (a == [] && b == [] && c == [r])
  {
    assert |a| + |b| + |c| == 1 && (a + b + c)[0] == r;
  }

  lemma MoveKeepsAccounted(s: State, t: State, l: Ledger, k: Ledger, id: nat, r: string)
    requires Accounted(s, l) && MovesTo(s, t, l, k, id, r)
    ensures Accounted(t, k)
  {
    hide CarriedAt;
    assert r !in l.stored && r !in l.lost;
    assert forall j: nat :: j != id ==> CarriedAt(s, j) != [r];
    forall x | x in k.issued ensures x in k.stored || x in k.lost || Carried(t, x) {
      if x == r {
        assert CarriedAt(t, id) == [r] ==> Carried(t, r);
      } else if Carried(s, x) {
        var j: nat :| CarriedAt(s, j) == [x];
        assert CarriedAt(t, j) == [x];
      }
    }
  }

  lemma StepKeepsAccounted(s: State, l: Ledger, step: Step)
    requires LockOk(s) && Accounted(s, l) && Enabled(s, step) && Distinct(Booked(l, s, step).issued)
    ensures Accounted(Apply(s, step), Booked(l, s, step))
  {
    hide CarriedAt, CarriedBy, Accounted, LockOk, Apply, Enabled, IssuedBy, StoredBy, LostBy, Distinct;
    var t, k := Apply(s, step), Booked(l, s, step);
    TokensAreConserved(s, step);
    if Moved(s, step) == [] {
      assert k == l;
      NothingMoves(s, t, l);
    } else {
      var r := Moved(s, step)[0];
      NewTokenIsNew(l.issued, IssuedBy(step), r);
      TokenMoves(s, t, l, k, step.id, r, IssuedBy(step), StoredBy(s, step), LostBy(s, step));
      MoveKeepsAccounted(s, t, l, k, step.id, r);
    }
  }

  lemma NewTokenIsNew(issued: seq<string>, more: seq<string>, r: string)
    requires Distinct(issued + more)
    ensures more == [r] ==> r !in issued
  {
    if more == [r] {
      assert (issued + more)[|issued|] == r;
      assert forall i :: 0 <= i < |issued| ==> (issued + more)[i] == issued[i];
    }
  }

  lemma DistinctFront(issued: seq<string>, more: seq<string>)
    requires Distinct(issued + more)
    ensures Distinct(issued)
  {
    assert forall i :: 0 <= i < |issued| ==> (issued + more)[i] == issued[i];
  }

  lemma {:induction false} RunKeepsAccounted(now: int, extra: Extra, expiresAt: int, steps: seq<Step>)
    requires Run(Initial(now, extra, expiresAt), steps).Some?
    requires Distinct(LedgerOf(Initial(now, extra, expiresAt), steps).issued)
    ensures Accounted(Run(Initial(now, extra, expiresAt), steps).value, LedgerOf(Initial(now, extra, expiresAt), steps))
  {
    if steps != [] {
      hide Accounted, Distinct;
      var s0, front, step := Initial(now, extra, expiresAt), steps[..|steps| - 1], steps[|steps| - 1];
      DistinctFront(LedgerOf(s0, front).issued, IssuedBy(step));
      RunKeepsAccounted(now, extra, expiresAt, front);
      ExtraIsDeltasInLockOrder(now, extra, expiresAt, front);
      StepKeepsAccounted(Run(s0, front).value, LedgerOf(s0, front), step);
    }
  }

  // ----- When a refresh presents the last issued token

  /** A callback has exchanged its code for that token and still waits for the lock. */
  ghost predicate CallbackWaitsWith(s: State, r: string) {
    exists id :: id in s.actors && s.actors[id].Waiting? && CarriedBy(s.actors[id]) == [r]
  }

  /** An older token was written over it. */
  predicate Overwritten(l: Ledger, r: string)
    requires l.stored != []
  {
    r in l.stored[..|l.stored| - 1]
  }

  lemma OnlyCallbacksCarry(s: State, step: Step, r: string)
    requires LockOk(s) && Presents(step) && Enabled(s, step)
    ensures Carried(s, r) <==> CallbackWaitsWith(s, r)
  {
    if CallbackWaitsWith(s, r) {
      var j :| j in s.actors && s.actors[j].Waiting? && CarriedBy(s.actors[j]) == [r];
      assert CarriedAt(s, j) == [r];
    }
  }

  lemma LastStoredIff(s: State, l: Ledger, r: string)
    requires Accounted(s, l) && l.stored != [] && r in l.issued
    ensures Last(l.stored) == r <==> !Carried(s, r) && r !in l.lost && !Overwritten(l, r)
  {
    hide CarriedAt;
    var last := |l.stored| - 1;
    assert l.stored == l.stored[..last] + [l.stored[last]];
    if Last(l.stored) == r {
      assert r in l.stored;
      assert forall i :: 0 <= i < last ==> l.stored[i] != l.stored[last];
    }
  }

  /** The token issued last is the one stored: no callback waits for the lock with
      it, it was not lost, and no older token was written over it. */
  ghost predicate LastIssuedIsStored(s: State, l: Ledger)
    requires l.stored != []
  {
    !CallbackWaitsWith(s, s.issued) && s.issued !in l.lost && !Overwritten(l, s.issued)
  }

  /** Provided the provider never issues a token twice: a refresh presents the token
      issued last exactly when no callback waits for the lock with it, it was not
      lost, and no older token was written over it. */
  lemma RefreshPresentsTheLastIssuedIff(now: int, extra: Extra, expiresAt: int, steps: seq<Step>, step: Step)
    requires Run(Initial(now, extra, expiresAt), steps).Some? && Quiet(steps)
    requires Distinct(LedgerOf(Initial(now, extra, expiresAt), steps).issued)
    requires Presents(step) && Enabled(Run(Initial(now, extra, expiresAt), steps).value, step)
    ensures var s, l := Run(Initial(now, extra, expiresAt), steps).value, LedgerOf(Initial(now, extra, expiresAt), steps);
      Presented(s, step).presented == Presented(s, step).issued <==> LastIssuedIsStored(s, l)
  {
    hide Accounted, Overwritten, Carried, CallbackWaitsWith;
    var s, l := Run(Initial(now, extra, expiresAt), steps).value, LedgerOf(Initial(now, extra, expiresAt), steps);
    RefreshPresentsTheLastStored(now, extra, expiresAt, steps, step);
    RunKeepsStore(now, extra, expiresAt, steps);
    RunKeepsAccounted(now, extra, expiresAt, steps);
    OnlyCallbacksCarry(s, step, s.issued);
    LastStoredIff(s, l, s.issued);
  }

  ghost predicate AllInTime(s0: State, steps: seq<Step>)
    requires Run(s0, steps).Some?
  {
    steps == [] ||
    (AllInTime(s0, steps[..|steps| - 1]) &&
     (Presents(steps[|steps| - 1]) ==>
       LastIssuedIsStored(Run(s0, steps[..|steps| - 1]).value, LedgerOf(s0, steps[..|steps| - 1]))))
  }

  predicate AllPresentTheLast(refreshes: seq<Refreshed>) {
    forall k :: 0 <= k < |refreshes| ==> refreshes[k].presented == refreshes[k].issued
  }

  lemma OneMorePresents(refreshes: seq<Refreshed>, more: seq<Refreshed>)
    requires |more| <= 1
    ensures AllPresentTheLast(refreshes + more)
      <==> AllPresentTheLast(refreshes) && (more != [] ==> more[0].presented == more[0].issued)
  {
    if AllPresentTheLast(refreshes + more) {
      assert forall k :: 0 <= k < |refreshes| ==> (refreshes + more)[k] == refreshes[k];
      assert more != [] ==> (refreshes + more)[|refreshes|] == more[0];
    }
  }

  /** Over a whole run, re-authorisation and losses included: every refresh presents
      the token issued last exactly when at each refresh that token is the one stored. */
  lemma {:induction false} RunPresentsTheLastIssuedIff(now: int, extra: Extra, expiresAt: int, steps: seq<Step>)
    requires Run(Initial(now, extra, expiresAt), steps).Some? && Quiet(steps)
    requires Distinct(LedgerOf(Initial(now, extra, expiresAt), steps).issued)
    ensures AllPresentTheLast(Run(Initial(now, extra, expiresAt), steps).value.refreshes)
      <==> AllInTime(Initial(now, extra, expiresAt), steps)
  {
    if steps != [] {
      hide AllPresentTheLast, LastIssuedIsStored, Distinct, Quiet, Apply;
      var s0, front, step := Initial(now, extra, expiresAt), steps[..|steps| - 1], steps[|steps| - 1];
      QuietPrefix(steps);
      DistinctFront(LedgerOf(s0, front).issued, IssuedBy(step));
      RunPresentsTheLastIssuedIff(now, extra, expiresAt, front);
      var s := Run(s0, front).value;
      StepPresents(s, step);
      OneMorePresents(s.refreshes, if Presents(step) then [Presented(s, step)] else []);
      if Presents(step) {
        RefreshPresentsTheLastIssuedIff(now, extra, expiresAt, front, step);
      }
    } else {
      NoRefreshYet(now, extra, expiresAt);
    }
  }

  lemma NoRefreshYet(now: int, extra: Extra, expiresAt: int)
    ensures AllPresentTheLast(Initial(now, extra, expiresAt).refreshes)
  {
  }

  // ----- A guard under which every refresh does

  ghost predicate NoneCarried(s: State) {
    forall id: nat :: CarriedAt(s, id) == []
  }

  /** Codes are exchanged only while no token is on its way to the store and no
      refresh has read the stored one; a refresh reads only while no callback waits
      with a token; nothing is lost. */
  ghost predicate GuardedStep(s: State, step: Step) {
    match step
    case BeginCallback(_, tok) => tok.refresh == "" || (NoneCarried(s) && forall id: nat :: !HasReadCredentials(s, id))
    case ReadExtra(id) => id in s.actors && s.actors[id] == Holding(MustRefresh) ==> NoneCarried(s)
    case RefreshLosesReply(_, _) => false
    case Fail(id) => CarriedAt(s, id) == []
    case _ => true
  }

  ghost predicate Guarded(s0: State, steps: seq<Step>)
    requires Run(s0, steps).Some?
  {
    steps == [] ||
    (Guarded(s0, steps[..|steps| - 1]) && GuardedStep(Run(s0, steps[..|steps| - 1]).value, steps[|steps| - 1]))
  }

  /** At most one token is on its way and it is the one issued last; with none on its
      way the last one is stored, and what a refresh has read is the last one. */
  ghost predicate GuardOk(s: State) {
    && (NoneCarried(s) ==> Lookup(s.extra, REFRESH_TOKEN) == s.issued)
    && (forall id: nat :: CarriedAt(s, id) == [] || CarriedAt(s, id) == [s.issued])
    && (forall i: nat, j: nat :: CarriedAt(s, i) != [] && CarriedAt(s, j) != [] ==> i == j)
    && (forall id: nat :: HasReadCredentials(s, id) ==> NoneCarried(s) && s.actors[id].work.refresh == s.issued)
  }

  /** A guarded step loses nothing, and issues a token only when none is on its way
      and leaves nobody with an older one. */
  lemma GuardedStepIssues(s: State, step: Step)
    requires LockOk(s) && GuardOk(s) && Enabled(s, step) && GuardedStep(s, step)
    ensures LostBy(s, step) == []
    ensures IssuedBy(step) != [] ==>
      NoneCarried(s) && StoredBy(s, step) == [] && forall id: nat :: !HasReadCredentials(Apply(s, step), id)
  {
    hide CarriedBy, Lookup;
    ReadCredentialsKept(s, step);
    if step.Refresh? {
      assert HasReadCredentials(s, step.id);
    }
  }

  lemma SplitOne(a: seq<string>, b: seq<string>, c: seq<string>, d: seq<string>)
    requires a + b == c + d && |a + b| <= 1
    ensures (a == c && b == d) || (a == d && b == c)
  {
    assert |a| + |b| == |c| + |d|;
    assert a + b == (if a == [] then b else a) && c + d == (if c == [] then d else c);
  }

  /** Nothing moves, a carried token is stored, or a new one is carried. */
  lemma GuardedMoves(s: State, step: Step)
    requires LockOk(s) && GuardOk(s) && Enabled(s, step) && GuardedStep(s, step)
    ensures var t := Apply(s, step);
      if step.Tick? then IssuedBy(step) == [] && StoredBy(s, step) == []
      else if IssuedBy(step) != [] then
        CarriedAt(t, step.id) == IssuedBy(step) && StoredBy(s, step) == [] && NoneCarried(s)
      else if StoredBy(s, step) != [] then CarriedAt(s, step.id) == StoredBy(s, step) && CarriedAt(t, step.id) == []
      else CarriedAt(t, step.id) == CarriedAt(s, step.id)
    ensures var t := Apply(s, step);
      forall id: nat :: Who(step) != Some(id) ==> CarriedAt(t, id) == CarriedAt(s, id)
  {
    hide CarriedAt, CarriedBy, Lookup, Apply, StoredBy, LostBy, LockOk, Enabled, GuardedStep;
    GuardedStepIssues(s, step);
    TokensAreConserved(s, step);
    if !step.Tick? {
      var stored := StoredBy(s, step);
      assert stored + [] == stored;
      SplitOne(CarriedAt(s, step.id), IssuedBy(step), stored, CarriedAt(Apply(s, step), step.id));
    }
  }

  /** The step's own token, before and after. */
  lemma GuardedTokenMoves(s: State, step: Step, id: nat)
    requires LockOk(s) && Fitting(s) && GuardOk(s) && Enabled(s, step) && GuardedStep(s, step)
    ensures var t := Apply(s, step);
      && (CarriedAt(t, id) == [] || CarriedAt(t, id) == [t.issued])
      && (CarriedAt(t, id) != [] ==> CarriedAt(s, id) == CarriedAt(t, id) || (NoneCarried(s) && Who(step) == Some(id)))
  {
    hide CarriedAt, CarriedBy, Lookup, Apply, IssuedBy, StoredBy, LostBy, LockOk, Enabled, GuardedStep;
    GuardedMoves(s, step);
    StepIssuesAndStores(s, step);
  }

  lemma StepKeepsGuard(s: State, step: Step)
    requires LockOk(s) && Fitting(s) && GuardOk(s) && Enabled(s, step) && GuardedStep(s, step)
    ensures GuardOk(Apply(s, step))
  {
    hide CarriedAt, CarriedBy, Lookup, Apply, IssuedBy, StoredBy, LostBy, LockOk, Enabled, GuardedStep;
    var t := Apply(s, step);
    forall id: nat ensures CarriedAt(t, id) == [] || CarriedAt(t, id) == [t.issued] {
      GuardedTokenMoves(s, step, id);
    }
    forall i: nat, j: nat | CarriedAt(t, i) != [] && CarriedAt(t, j) != [] ensures i == j {
      GuardedTokenMoves(s, step, i);
      GuardedTokenMoves(s, step, j);
    }
    GuardKeepsStored(s, step);
    GuardKeepsRead(s, step);
  }

  lemma GuardKeepsStored(s: State, step: Step)
    requires LockOk(s) && Fitting(s) && GuardOk(s) && Enabled(s, step) && GuardedStep(s, step)
    ensures NoneCarried(Apply(s, step)) ==> Lookup(Apply(s, step).extra, REFRESH_TOKEN) == Apply(s, step).issued
  {
    hide CarriedAt, CarriedBy, Lookup, Apply, IssuedBy, StoredBy, LostBy, LockOk, Enabled, GuardedStep;
    GuardedMoves(s, step);
    StepIssuesAndStores(s, step);
  }

  lemma GuardKeepsRead(s: State, step: Step)
    requires LockOk(s) && Fitting(s) && GuardOk(s) && Enabled(s, step) && GuardedStep(s, step)
    ensures var t := Apply(s, step);
      forall id: nat :: HasReadCredentials(t, id) ==> NoneCarried(t) && t.actors[id].work.refresh == t.issued
  {
    hide CarriedAt, CarriedBy, Lookup, Apply, IssuedBy, StoredBy, LostBy, LockOk, Enabled;
    GuardedMoves(s, step);
    StepIssuesAndStores(s, step);
    GuardedStepIssues(s, step);
    ReadCredentialsKept(s, step);
    var t := Apply(s, step);
    forall id: nat | HasReadCredentials(t, id) ensures NoneCarried(t) && t.actors[id].work.refresh == t.issued {
      assert HasReadCredentials(s, id) || GuardedStep(s, ReadExtra(id));
      assert NoneCarried(s);
    }
  }

  lemma GuardedPresents(s: State, step: Step)
    requires GuardOk(s) && Presents(step) && Enabled(s, step)
    ensures Presented(s, step).presented == Presented(s, step).issued
  {
    assert HasReadCredentials(s, step.id);
  }

  lemma StartIsGuarded(now: int, extra: Extra, expiresAt: int)
    ensures GuardOk(Initial(now, extra, expiresAt))
  {
  }

  lemma {:induction false} RunKeepsGuard(now: int, extra: Extra, expiresAt: int, steps: seq<Step>)
    requires Run(Initial(now, extra, expiresAt), steps).Some? && Quiet(steps) && Guarded(Initial(now, extra, expiresAt), steps)
    ensures var t := Run(Initial(now, extra, expiresAt), steps).value;
      LockOk(t) && Fitting(t) && GuardOk(t) && AllPresentTheLast(t.refreshes)
  {
    if steps != [] {
      hide GuardOk, GuardedStep, AllPresentTheLast, Apply, LockOk, Fitting;
      var s0, front, step := Initial(now, extra, expiresAt), steps[..|steps| - 1], steps[|steps| - 1];
      QuietPrefix(steps);
      RunKeepsGuard(now, extra, expiresAt, front);
      var s := Run(s0, front).value;
      StepKeepsLock(s, step);
      StepKeepsFitting(s, step);
      StepKeepsGuard(s, step);
      StepPresents(s, step);
      if Presents(step) {
        GuardedPresents(s, step);
      }
      OneMorePresents(s.refreshes, if Presents(step) then [Presented(s, step)] else []);
    } else {
      StartIsGuarded(now, extra, expiresAt);
    }
  }

  /** With re-authorisation, but codes exchanged and tokens read under the guard,
      every refresh presents the refresh token issued last. */
  lemma GuardedRefreshesPresentTheLastIssued(now: int, extra: Extra, expiresAt: int, steps: seq<Step>)
    requires Run(Initial(now, extra, expiresAt), steps).Some? && Quiet(steps) && Guarded(Initial(now, extra, expiresAt), steps)
    ensures AllPresentTheLast(Run(Initial(now, extra, expiresAt), steps).value.refreshes)
  {
    RunKeepsGuard(now, extra, expiresAt, steps);
  }

  // ----- Without re-authorisation

  lemma CalmStepIsGuarded(s: State, step: Step)
    requires CalmOk(s) && Enabled(s, step) && CalmStep(s, step)
    ensures GuardedStep(s, step) && QuietStep(step)
  {
  }

  lemma QuietOneMore(steps: seq<Step>)
    requires steps != [] && Quiet(steps[..|steps| - 1]) && QuietStep(steps[|steps| - 1])
    ensures Quiet(steps)
  {
    var front := steps[..|steps| - 1];
    assert forall k :: 0 <= k < |front| ==> front[k] == steps[k];
  }

  lemma StartIsCalm(now: int, extra: Extra, expiresAt: int)
    ensures CalmOk(Initial(now, extra, expiresAt))
  {
  }

  lemma {:induction false} CalmRunIsGuarded(now: int, extra: Extra, expiresAt: int, steps: seq<Step>)
    requires Run(Initial(now, extra, expiresAt), steps).Some? && Calm(Initial(now, extra, expiresAt), steps)
    ensures Quiet(steps) && Guarded(Initial(now, extra, expiresAt), steps)
    ensures CalmOk(Run(Initial(now, extra, expiresAt), steps).value)
  {
    if steps != [] {
      hide CalmOk, CalmStep, Quiet, QuietStep, GuardedStep, Apply, Enabled;
      var s0, front, step := Initial(now, extra, expiresAt), steps[..|steps| - 1], steps[|steps| - 1];
      CalmRunIsGuarded(now, extra, expiresAt, front);
      CalmStepIsGuarded(Run(s0, front).value, step);
      StepKeepsCalm(Run(s0, front).value, step);
      QuietOneMore(steps);
    } else {
      StartIsCalm(now, extra, expiresAt);
    }
  }

  /** Without re-authorisation and losses every refresh presents the refresh token
      the provider issued last. */
  lemma RefreshPresentsTheLastIssued(now: int, extra: Extra, expiresAt: int, steps: seq<Step>, k: nat)
    requires Run(Initial(now, extra, expiresAt), steps).Some? && Calm(Initial(now, extra, expiresAt), steps)
    requires k < |Run(Initial(now, extra, expiresAt), steps).value.refreshes|
    ensures var r := Run(Initial(now, extra, expiresAt), steps).value.refreshes[k]; r.presented == r.issued
  {
    CalmRunIsGuarded(now, extra, expiresAt, steps);
    GuardedRefreshesPresentTheLastIssued(now, extra, expiresAt, steps);
  }

  // ----- Two more ways to miss the last token

  /** A callback that has exchanged its code and waits for the lock is passed over
      by a refresh that takes the lock first. */
  lemma WaitingCallbackIsPassedOver(now: int, extra: Extra, expiresAt: int, other: Token, answer: Token)
    requires expiresAt <= now + REFRESH_WINDOW
    requires other.refresh != "" && other.refresh != Lookup(extra, REFRESH_TOKEN)
    ensures var t := Run(Initial(now, extra, expiresAt), [BeginCallback(2, other)] + (ToCredentials(1) + [Refresh(1, answer)]));
      t.Some? && |t.value.refreshes| == 1 && t.value.refreshes[0].presented != t.value.refreshes[0].issued
  {
    var s0 := Initial(now, extra, expiresAt);
    var s1 := Apply(s0, BeginCallback(2, other));
    Extend(s0, [], s0, BeginCallback(2, other));
    assert [] + [BeginCallback(2, other)] == [BeginCallback(2, other)];
    RunConcat(s0, [BeginCallback(2, other)], s1, ToCredentials(1) + [Refresh(1, answer)]);
    CallerRefreshes(s1, 1, answer);
  }

  lemma CallerRefreshes(s: State, id: nat, answer: Token)
    requires id !in s.actors && s.holder == None && !IsFresh(s.stamp, s.now)
    ensures var t := Run(s, ToCredentials(id) + [Refresh(id, answer)]);
      t.Some? && t.value.refreshes == s.refreshes + [RefreshRecord(s)]
  {
    CallerReachesCredentials(s, id);
    var s1 := AtCredentials(s, id);
    RunConcat(s, ToCredentials(id), s1, [Refresh(id, answer)]);
    Extend(s1, [], s1, Refresh(id, answer));
    assert [] + [Refresh(id, answer)] == [Refresh(id, answer)];
  }

  /** A callback that waits for the lock takes it and stores its token. */
  function Storing(id: nat): seq<Step> {
    [Acquire(id), ReadExtra(id), WriteExtra(id), StampExpiry(id), Release(id)]
  }

  function Stored(s: State, id: nat, tok: Token): State {
    s.(actors := s.actors - {id}, extra := ApplyDelta(s.extra, TokenDelta(tok)), deltas := s.deltas + [TokenDelta(tok)],
       persisted := s.persisted + [tok], stamp := Stamp(tok.expiresAt, |s.persisted|))
  }

  lemma CallbackReads(s: State, id: nat, tok: Token)
    requires id in s.actors && s.actors[id] == Waiting(ToStore(tok)) && s.holder == None
    ensures Run(s, Storing(id)[..2]) == Some(With(s, id, Some(id), Holding(Merged(TokenDelta(tok), Some(tok), s.extra))))
  {
    var steps := Storing(id);
    var merging, merged := Merging(TokenDelta(tok), Some(tok)), Merged(TokenDelta(tok), Some(tok), s.extra);
    Extend(s, [], s, steps[0]);
    assert [] + [steps[0]] == steps[..1];
    Extend(s, steps[..1], With(s, id, Some(id), Holding(merging)), steps[1]);
    assert steps[..1] + [steps[1]] == steps[..2];
    Replace(s, id, Some(id), Holding(merging), Holding(merged));
  }

  lemma CallbackStores(s: State, id: nat, tok: Token)
    requires id in s.actors && s.actors[id] == Waiting(ToStore(tok)) && s.holder == None
    ensures Run(s, Storing(id)) == Some(Stored(s, id, tok))
  {
    var steps := Storing(id);
    CallbackReads(s, id, tok);
    var merged := Merged(TokenDelta(tok), Some(tok), s.extra);
    var t := Stored(s, id, tok).(actors := s.actors, stamp := s.stamp);
    var u := t.(stamp := Stamp(tok.expiresAt, |s.persisted|));
    Extend(s, steps[..2], With(s, id, Some(id), Holding(merged)), steps[2]);
    assert steps[..2] + [steps[2]] == steps[..3];
    Replace(t, id, Some(id), Holding(merged), Holding(Stamping(tok, |s.persisted|)));
    Extend(s, steps[..3], With(t, id, Some(id), Holding(Stamping(tok, |s.persisted|))), steps[3]);
    assert steps[..3] + [steps[3]] == steps[..4];
    Replace(u, id, Some(id), Holding(Stamping(tok, |s.persisted|)), Holding(Releasing));
    Extend(s, steps[..4], With(u, id, Some(id), Holding(Releasing)), steps[4]);
    assert s.actors[id := Holding(Releasing)] - {id} == s.actors - {id};
    assert steps[..4] + [steps[4]] == steps;
  }

  /** Two callbacks exchange their codes and the older writes last: once its token
      expires, the refresh presents the older one. */
  function OlderWritesLast(older: Token, newer: Token, wait: nat, answer: Token): seq<Step> {
    [BeginCallback(2, older)] + ([BeginCallback(3, newer)] + (Storing(3) + (Storing(2) +
      ([Tick(wait)] + (ToCredentials(1) + [Refresh(1, answer)])))))
  }

  lemma OneStep(s: State, step: Step, rest: seq<Step>)
    requires Enabled(s, step)
    ensures Run(s, [step] + rest) == Run(Apply(s, step), rest)
  {
    Extend(s, [], s, step);
    assert [] + [step] == [step];
    RunConcat(s, [step], Apply(s, step), rest);
  }

  lemma OlderCallbackWritesLast(now: int, extra: Extra, expiresAt: int, older: Token, newer: Token, wait: nat, answer: Token)
    requires older.refresh != newer.refresh && older.refresh != "" && newer.refresh != ""
    requires older.expiresAt <= now + wait + REFRESH_WINDOW
    ensures var t := Run(Initial(now, extra, expiresAt), OlderWritesLast(older, newer, wait, answer));
      && t.Some? && |t.value.refreshes| == 1
      && t.value.refreshes[0].presented == older.refresh && t.value.refreshes[0].issued == newer.refresh
  {
    hide Run, ApplyDelta;
    var s0 := Initial(now, extra, expiresAt);
    var s1 := Apply(s0, BeginCallback(2, older));
    var s2 := Apply(s1, BeginCallback(3, newer));
    var rest5 := ToCredentials(1) + [Refresh(1, answer)];
    var rest4 := [Tick(wait)] + rest5;
    var rest3 := Storing(2) + rest4;
    OneStep(s0, BeginCallback(2, older), [BeginCallback(3, newer)] + (Storing(3) + rest3));
    OneStep(s1, BeginCallback(3, newer), Storing(3) + rest3);
    CallbackStores(s2, 3, newer);
    var s3 := Stored(s2, 3, newer);
    RunConcat(s2, Storing(3), s3, rest3);
    CallbackStores(s3, 2, older);
    var s4 := Stored(s3, 2, older);
    RunConcat(s3, Storing(2), s4, rest4);
    OneStep(s4, Tick(wait), rest5);
    ZeroRefreshTokenKeepsTheStoredOne(s3.extra, older);
    CallerRefreshes(Apply(s4, Tick(wait)), 1, answer);
  }
}
