/** Building the shared database template (internal/testfixtures/containers.go):
    build under a temporary name, protect, rename into place. */
module TemplateBuild {
  import opened Readings

  datatype Name = Final | Temp(tag: nat)

  /** How far a database's contents are: empty, being migrated, migrated with its
      refresh policies, or migrated without them. */
  datatype Stage = Raw | HalfMigrated | WithPolicies | PolicyFree

  datatype Db = Db(stage: Stage, connectable: bool, template: bool, owner: nat)

  type Databases = map<Name, Db>

  /** What every database under the final name must be. */
  predicate Finished(db: Db) {
    db.stage.PolicyFree? && !db.connectable && db.template
  }

  ghost predicate FinalIsFinished(dbs: Databases) {
    Final in dbs ==> Finished(dbs[Final])
  }

  function Create(dbs: Databases, tag: nat, owner: nat): Databases {
    dbs[Temp(tag) := Db(Raw, true, false, owner)]
  }

  function SetStage(dbs: Databases, tag: nat, stage: Stage): Databases
    requires Temp(tag) in dbs
  {
    dbs[Temp(tag) := dbs[Temp(tag)].(stage := stage)]
  }

  function Protect(dbs: Databases, tag: nat): Databases
    requires Temp(tag) in dbs
  {
    dbs[Temp(tag) := dbs[Temp(tag)].(connectable := false, template := true)]
  }

  function Rename(dbs: Databases, tag: nat): Databases
    requires Temp(tag) in dbs
  {
    dbs[Final := dbs[Temp(tag)]] - {Temp(tag)}
  }

  /** A database marked template cannot be dropped. */
  function Drop(dbs: Databases, tag: nat): Databases {
    if Temp(tag) in dbs && !dbs[Temp(tag)].template then dbs - {Temp(tag)} else dbs
  }

  /** No other database is touched. */
  ghost predicate OthersKept(before: Databases, after: Databases, tag: nat) {
    forall n :: n != Final && n != Temp(tag) ==> (n in after <==> n in before) && (n in before ==> after[n] == before[n])
  }

  // ----- One process alone

  class Server {
    var dbs: Databases
  }

  /** The calls that can fail. */
  datatype Call =
    | NoCall | ConnectCall | LockCall | CheckCall | CreateCall | MigrateCall | PoliciesCall | TerminateCall | ProtectCall
    | TerminateAgainCall | RenameCall

  /** Builds the temporary database up to and including the rename. */
  method BuildAndRename(server: Server, tag: nat, failing: Call) returns (built: bool)
    requires Temp(tag) in server.dbs && Final !in server.dbs
    requires server.dbs[Temp(tag)].stage.Raw? && server.dbs[Temp(tag)].connectable && !server.dbs[Temp(tag)].template
    modifies server
    ensures built <==> failing !in {MigrateCall, PoliciesCall, TerminateCall, ProtectCall, TerminateAgainCall, RenameCall}
    ensures built ==>
      Final in server.dbs && Temp(tag) !in server.dbs
      && var db := server.dbs[Final];
      db.stage.PolicyFree? && !db.connectable && db.template && db.owner == old(server.dbs[Temp(tag)].owner)
    ensures !built ==> Final !in server.dbs && Temp(tag) in server.dbs
    ensures !built ==> (server.dbs[Temp(tag)].template <==> failing.TerminateAgainCall? || failing.RenameCall?)
    ensures OthersKept(old(server.dbs), server.dbs, tag)
  {
    if failing.MigrateCall? {
      server.dbs := SetStage(server.dbs, tag, HalfMigrated);
      return false;
    }
    server.dbs := SetStage(server.dbs, tag, WithPolicies);
    if failing.PoliciesCall? {
      return false;
    }
    server.dbs := SetStage(server.dbs, tag, PolicyFree);
    if failing.TerminateCall? || failing.ProtectCall? {
      return false;
    }
    server.dbs := Protect(server.dbs, tag);
    if failing.TerminateAgainCall? || failing.RenameCall? {
      return false;
    }
    server.dbs := Rename(server.dbs, tag);
    return true;
  }

  /** Success means a finished template is in place; a failure leaves the final
      name as it was, and a leftover build only if it was already protected. */
  method EnsureIsolatedTemplate(server: Server, tag: nat, owner: nat, failing: Call) returns (ok: bool)
    requires FinalIsFinished(server.dbs)
    modifies server
    ensures FinalIsFinished(server.dbs)
    ensures old(Final in server.dbs) ==> unchanged(server) && (ok <==> failing !in {ConnectCall, LockCall, CheckCall})
    ensures old(Final !in server.dbs) ==> (ok <==> old(Temp(tag) !in server.dbs) && failing.NoCall?)
    ensures ok ==> Final in server.dbs
    ensures ok && old(Final !in server.dbs) ==> server.dbs[Final].owner == owner
    ensures !ok && old(Final !in server.dbs) ==> Final !in server.dbs
    ensures old(Temp(tag) in server.dbs) ==> unchanged(server)
    ensures old(Final !in server.dbs && Temp(tag) !in server.dbs) ==>
      (Temp(tag) in server.dbs <==> failing.TerminateAgainCall? || failing.RenameCall?)
    ensures OthersKept(old(server.dbs), server.dbs, tag)
  {
    assert failing.NoCall? || failing.ConnectCall? || failing.LockCall? || failing.CheckCall? || failing.CreateCall?
           || failing.MigrateCall? || failing.PoliciesCall? || failing.TerminateCall? || failing.ProtectCall?
           || failing.TerminateAgainCall? || failing.RenameCall?;
    if failing.ConnectCall? || failing.LockCall? || failing.CheckCall? {
      return false;
    }
    if Final in server.dbs {
      return true;
    }
    if failing.CreateCall? || Temp(tag) in server.dbs {
      return false;
    }
    server.dbs := Create(server.dbs, tag, owner);
    var built := BuildAndRename(server, tag, failing);
    if !built {
      server.dbs := Drop(server.dbs, tag);
    }
    return built;
  }
}

/** Any number of processes building the same template, each crashing or losing
    its root session at any step. */
module TemplateRace {
  import opened Readings
  import opened TemplateBuild

  /** Where a process stands; `Undo` is the deferred drop, `Unlock` the deferred
      unlock with the result to return. */
  datatype Pc =
    | Idle
    | Connected
    | Locked
    | Missing
    | Created
    | Migrated
    | WithoutPolicies
    | Terminated
    | Protected
    | TerminatedAgain
    | Undo
    | Unlock(ok: bool)
    | Returned(ok: bool)
    | Crashed

  /** `root`: the root session is alive. */
  datatype Process = Process(pc: Pc, tag: nat, root: bool)

  /** `renames` counts the renames into place. */
  datatype State = State(dbs: Databases, processes: map<nat, Process>, holder: Option<nat>, renames: nat)

  /** Tags are arbitrary: two processes may share one. */
  function Initial(tags: map<nat, nat>): State {
    State(map[], map p | p in tags :: Process(Idle, tags[p], false), None, 0)
  }

  /** `loses`: the call took effect but its reply, and the session, are lost. */
  datatype Step =
    | Connect(id: nat)
    | Lock(id: nat)
    | Check(id: nat)
    | CreateTemp(id: nat, loses: bool)
    | MigratePart(id: nat)
    | Migrate(id: nat)
    | DropPolicies(id: nat)
    | Terminate(id: nat)
    | ProtectTemp(id: nat, loses: bool)
    | TerminateAgain(id: nat)
    | RenameIntoPlace(id: nat, loses: bool)
    | Fail(id: nat)
    | DropTemp(id: nat, works: bool)
    | Release(id: nat)
    | RootDies(id: nat)
    | Crash(id: nat)

  predicate At(s: State, id: nat, pc: Pc) {
    id in s.processes && s.processes[id].pc == pc
  }

  /** The process is at pc and its root session answers. */
  predicate RootAt(s: State, id: nat, pc: Pc) {
    At(s, id, pc) && s.processes[id].root
  }

  function TempOf(s: State, id: nat): Name
    requires id in s.processes
  {
    Temp(s.processes[id].tag)
  }

  /** Its temporary database accepts the process's own connection. */
  predicate CanOpen(s: State, id: nat)
    requires id in s.processes
  {
    TempOf(s, id) in s.dbs && s.dbs[TempOf(s, id)].connectable
  }

  /** Between creating the temporary database and renaming it. */
  predicate Building(pc: Pc) {
    pc.Created? || pc.Migrated? || pc.WithoutPolicies? || pc.Terminated? || pc.Protected? || pc.TerminatedAgain?
  }

  predicate Enabled(s: State, step: Step) {
    match step
    case Connect(id) => At(s, id, Idle)
    case Lock(id) => RootAt(s, id, Connected) && s.holder == None
    case Check(id) => RootAt(s, id, Locked)
    case CreateTemp(id, _) => RootAt(s, id, Missing) && TempOf(s, id) !in s.dbs
    case MigratePart(id) => At(s, id, Created) && CanOpen(s, id)
    case Migrate(id) => At(s, id, Created) && CanOpen(s, id)
    case DropPolicies(id) => At(s, id, Migrated) && CanOpen(s, id)
    case Terminate(id) => RootAt(s, id, WithoutPolicies)
    case ProtectTemp(id, _) => RootAt(s, id, Terminated) && TempOf(s, id) in s.dbs
    case TerminateAgain(id) => RootAt(s, id, Protected)
    case RenameIntoPlace(id, _) => RootAt(s, id, TerminatedAgain) && TempOf(s, id) in s.dbs && Final !in s.dbs
    case Fail(id) => id in s.processes && !s.processes[id].pc.Idle? && !s.processes[id].pc.Undo? && !Over(s.processes[id].pc)
    case DropTemp(id, works) => At(s, id, Undo) && (works ==> s.processes[id].root)
    case Release(id) => id in s.processes && s.processes[id].pc.Unlock?
    case RootDies(id) => id in s.processes && s.processes[id].root
    case Crash(id) => id in s.processes
  }

  predicate Over(pc: Pc) {
    pc.Unlock? || pc.Returned? || pc.Crashed?
  }

  /** A dead root session gives up the lock. */
  function Move(s: State, id: nat, pc: Pc, loses: bool): State
    requires id in s.processes
  {
    var p := s.processes[id];
    s.(processes := s.processes[id := p.(pc := pc, root := p.root && !loses)],
       holder := if loses && s.holder == Some(id) then None else s.holder)
  }

  function DoFail(s: State, id: nat): State
    requires Enabled(s, Fail(id))
  {
    Move(s, id, if Building(s.processes[id].pc) then Undo else Unlock(false), false)
  }

  function Apply(s: State, step: Step): State
    requires Enabled(s, step)
  {
    var p := s.processes[step.id];
    match step
    case Connect(id) => s.(processes := s.processes[id := Process(Connected, p.tag, true)])
    case Lock(id) => Move(s, id, Locked, false).(holder := Some(id))
    case Check(id) => Move(s, id, if Final in s.dbs then Unlock(true) else Missing, false)
    case CreateTemp(id, loses) =>
      Move(s, id, if loses then Unlock(false) else Created, loses).(dbs := Create(s.dbs, p.tag, id))
    case MigratePart(id) => s.(dbs := SetStage(s.dbs, p.tag, HalfMigrated))
    case Migrate(id) => Move(s, id, Migrated, false).(dbs := SetStage(s.dbs, p.tag, WithPolicies))
    case DropPolicies(id) => Move(s, id, WithoutPolicies, false).(dbs := SetStage(s.dbs, p.tag, PolicyFree))
    case Terminate(id) => Move(s, id, Terminated, false)
    case ProtectTemp(id, loses) =>
      Move(s, id, if loses then Undo else Protected, loses).(dbs := Protect(s.dbs, p.tag))
    case TerminateAgain(id) => Move(s, id, TerminatedAgain, false)
    case RenameIntoPlace(id, loses) =>
      Move(s, id, if loses then Undo else Unlock(true), loses).(dbs := Rename(s.dbs, p.tag), renames := s.renames + 1)
    case Fail(id) => DoFail(s, id)
    case DropTemp(id, works) => Move(s, id, Unlock(false), false).(dbs := if works then Drop(s.dbs, p.tag) else s.dbs)
    case Release(id) =>
      Move(s, id, Returned(p.pc.ok), true)
    case RootDies(id) => Move(s, id, p.pc, true)
    case Crash(id) => Move(s, id, Crashed, true)
  }

  function Run(s: State, steps: seq<Step>): Option<State> {
    if steps == [] then Some(s)
    else
      var mid := Run(s, steps[..|steps| - 1]);
      if mid.Some? && Enabled(mid.value, steps[|steps| - 1])
      then Some(Apply(mid.value, steps[|steps| - 1])) else None
  }

  // ----- Invariants

  /** How far the temporary database of a building process is. */
  predicate BuildOk(pc: Pc, db: Db) {
    match pc
    case Created => db.connectable && !db.template
    case Migrated => db.stage.WithPolicies? && db.connectable && !db.template
    case WithoutPolicies => db.stage.PolicyFree? && db.connectable && !db.template
    case Terminated => db.stage.PolicyFree? && db.connectable && !db.template
    case Protected => Finished(db)
    case TerminatedAgain => Finished(db)
    case _ => true
  }

  /** A building process owns its temporary database, and it is as far as its
      program counter says. */
  ghost predicate BuildsOk(s: State) {
    forall id :: id in s.processes && Building(s.processes[id].pc) ==>
      && TempOf(s, id) in s.dbs && s.dbs[TempOf(s, id)].owner == id
      && BuildOk(s.processes[id].pc, s.dbs[TempOf(s, id)])
  }

  /** Undoing touches only a database the process still owns. */
  ghost predicate UndosOk(s: State) {
    forall id :: At(s, id, Undo) && s.processes[id].root && TempOf(s, id) in s.dbs ==> s.dbs[TempOf(s, id)].owner == id
  }

  predicate HoldsLock(pc: Pc) {
    pc.Locked? || pc.Missing? || Building(pc) || pc.Undo?
  }

  /** A process past the lock whose root session lives holds it, and no final
      database exists while it is about to build one. */
  ghost predicate LockOk(s: State, id: nat)
    requires id in s.processes
  {
    var p := s.processes[id];
    p.root && HoldsLock(p.pc) ==> s.holder == Some(id) && (p.pc.Missing? || Building(p.pc) ==> Final !in s.dbs)
  }

  ghost predicate LocksOk(s: State) {
    forall id :: id in s.processes ==> LockOk(s, id)
  }

  ghost predicate OutcomeOk(s: State) {
    && FinalIsFinished(s.dbs)
    && s.renames == (if Final in s.dbs then 1 else 0)
    && forall id :: id in s.processes && (s.processes[id].pc == Unlock(true) || s.processes[id].pc == Returned(true)) ==> Final in s.dbs
  }

  ghost predicate Ok(s: State) {
    BuildsOk(s) && UndosOk(s) && LocksOk(s) && OutcomeOk(s)
  }

  /** No step touches another building process's temporary database. */
  lemma OthersBuildKept(s: State, step: Step, id: nat)
    requires BuildsOk(s) && UndosOk(s) && Enabled(s, step) && id in s.processes && Building(s.processes[id].pc) && id != step.id
    ensures var t := Apply(s, step);
      && id in t.processes && t.processes[id] == s.processes[id]
      && TempOf(t, id) in t.dbs && t.dbs[TempOf(t, id)] == s.dbs[TempOf(s, id)]
  {
  }

  lemma StepKeepsBuilds(s: State, step: Step)
    requires Ok(s) && Enabled(s, step)
    ensures BuildsOk(Apply(s, step))
  {
    var t := Apply(s, step);
    forall id | id in t.processes && Building(t.processes[id].pc)
      ensures TempOf(t, id) in t.dbs && t.dbs[TempOf(t, id)].owner == id && BuildOk(t.processes[id].pc, t.dbs[TempOf(t, id)])
    {
      if id != step.id {
        OthersBuildKept(s, step, id);
      } else {
        OwnBuildKept(s, step);
      }
    }
  }

  lemma OwnBuildKept(s: State, step: Step)
    requires BuildsOk(s) && Enabled(s, step)
    requires step.id in Apply(s, step).processes && Building(Apply(s, step).processes[step.id].pc)
    ensures var t := Apply(s, step); var id := step.id;
      TempOf(t, id) in t.dbs && t.dbs[TempOf(t, id)].owner == id && BuildOk(t.processes[id].pc, t.dbs[TempOf(t, id)])
  {
  }

  lemma OwnLockKept(s: State, step: Step)
    requires LocksOk(s) && Enabled(s, step)
    ensures step.id in Apply(s, step).processes && LockOk(Apply(s, step), step.id)
  {
  }

  lemma OtherLockKept(s: State, step: Step, id: nat)
    requires LocksOk(s) && Enabled(s, step) && id in s.processes && id != step.id
    ensures id in Apply(s, step).processes && LockOk(Apply(s, step), id)
  {
    assert LockOk(s, id) && LockOk(s, step.id);
  }

  lemma StepKeepsLocks(s: State, step: Step)
    requires Ok(s) && Enabled(s, step)
    ensures LocksOk(Apply(s, step))
  {
    var t := Apply(s, step);
    forall id | id in t.processes ensures LockOk(t, id) {
      if id == step.id {
        OwnLockKept(s, step);
      } else {
        OtherLockKept(s, step, id);
      }
    }
  }

  lemma StepKeepsOutcome(s: State, step: Step)
    requires Ok(s) && Enabled(s, step)
    ensures OutcomeOk(Apply(s, step))
  {
  }

  lemma StepKeepsOk(s: State, step: Step)
    requires Ok(s) && Enabled(s, step)
    ensures Ok(Apply(s, step))
  {
    StepKeepsBuilds(s, step);
    StepKeepsLocks(s, step);
    StepKeepsOutcome(s, step);
  }

  lemma {:induction false} EveryRunIsOk(tags: map<nat, nat>, steps: seq<Step>)
    requires Run(Initial(tags), steps).Some?
    ensures Ok(Run(Initial(tags), steps).value)
  {
    if steps != [] {
      EveryRunIsOk(tags, steps[..|steps| - 1]);
      StepKeepsOk(Run(Initial(tags), steps[..|steps| - 1]).value, steps[|steps| - 1]);
    }
  }

  /** In every reachable state a database under the final name is finished, it
      was renamed into place at most once, and a process that returned success
      can rely on it. */
  lemma OnlyFinishedTemplatesAreVisible(tags: map<nat, nat>, steps: seq<Step>, id: nat)
    requires Run(Initial(tags), steps).Some?
    ensures var s := Run(Initial(tags), steps).value;
      && (Final in s.dbs ==> s.dbs[Final].stage.PolicyFree? && !s.dbs[Final].connectable && s.dbs[Final].template)
      && s.renames <= 1 && (s.renames == 1 <==> Final in s.dbs)
      && (At(s, id, Returned(true)) ==> Final in s.dbs)
  {
    EveryRunIsOk(tags, steps);
  }

  /** The lock and the second check mean a rename never finds the name taken:
      whoever may rename is alone, and its build is finished. */
  lemma RenameNeverCollides(tags: map<nat, nat>, steps: seq<Step>, id: nat)
    requires Run(Initial(tags), steps).Some? && RootAt(Run(Initial(tags), steps).value, id, TerminatedAgain)
    ensures var s := Run(Initial(tags), steps).value;
      && s.holder == Some(id) && Final !in s.dbs && Enabled(s, RenameIntoPlace(id, false))
      && Finished(s.dbs[TempOf(s, id)]) && s.dbs[TempOf(s, id)].owner == id
  {
    EveryRunIsOk(tags, steps);
  }

  /** Once visible, the template stays. */
  lemma {:induction false} TemplatesStay(tags: map<nat, nat>, steps: seq<Step>, more: seq<Step>)
    requires Run(Initial(tags), steps).Some? && Final in Run(Initial(tags), steps).value.dbs
    requires Run(Run(Initial(tags), steps).value, more).Some?
    ensures var s := Run(Initial(tags), steps).value; var t := Run(s, more).value;
      Final in t.dbs && t.dbs[Final] == s.dbs[Final]
  {
    if more != [] {
      TemplatesStay(tags, steps, more[..|more| - 1]);
      FinalStays(Run(Run(Initial(tags), steps).value, more[..|more| - 1]).value, more[|more| - 1]);
    }
  }

  lemma FinalStays(s: State, step: Step)
    requires Final in s.dbs && Enabled(s, step)
    ensures Final in Apply(s, step).dbs && Apply(s, step).dbs[Final] == s.dbs[Final]
  {
  }
}
