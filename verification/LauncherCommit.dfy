/** The staged launcher commit and its quarantine, step by step over an arbitrary world. */
module LauncherCommit {
  import opened Outcomes
  import opened LauncherModel

  predicate OthersStaySettled(u: Unit, t: Flags, t': Flags) {
    && (t.fabricManager ==> u == FabricManager || t'.fabricManager)
    && (t.persistenced ==> u == Persistenced || t'.persistenced)
  }

  predicate OthersKeepProcess(u: Unit, t: Processes, t': Processes) {
    && (u == FabricManager || t'.fabricManager == t.fabricManager)
    && (u == Persistenced || t'.persistenced == t.persistenced)
    && (u == DockerService || t'.dockerService == t.dockerService)
    && (u == DockerSocket || t'.dockerSocket == t.dockerSocket)
  }

  /** How a stage ends: did it succeed, the latest audit, and the process it bound. */
  datatype Stage = Stage(ok: bool, audit: HostAudit, identity: Option<nat>)

  /** Work on docker.service can at most end the release of docker.service, and work on docker.socket never strays. */
  predicate ClosesWithin(u: Unit, c: Closing, c': Closing) {
    && (c == Open && !IsDocker(u) ==> c' == Open)
    && (c == Open && u == DockerService ==> c' == Open || c' == ServiceFinal)
    && (c != Strayed && u == DockerSocket ==> c' != Strayed)
  }

  /** What a stage working on unit u may change in the summary of the run. */
  ghost predicate Within(u: Unit, m: Monitor, m': Monitor) {
    && m'.progress.disorder == m.progress.disorder
    && (m'.progress.dockerReleased ==> m.progress.dockerReleased || IsDocker(u))
    && (m'.progress.unproven ==> m.progress.unproven || u == DockerService)
    && ClosesWithin(u, m.progress.closing, m'.progress.closing)
    && OthersStaySettled(u, m.settled, m'.settled)
    && OthersKeepProcess(u, m.processes, m'.processes)
  }

  /** Observations never mutate: the release history and every other process stay as they were. */
  ghost predicate Observes(u: Unit, m: Monitor, m': Monitor) {
    && m'.progress.disorder == m.progress.disorder && m'.progress.dockerReleased == m.progress.dockerReleased
    && m'.progress.unproven == m.progress.unproven && m'.progress.closing == m.progress.closing
    && OthersStaySettled(u, m.settled, m'.settled)
    && OthersKeepProcess(u, m.processes, m'.processes)
  }

  /** Only docker.socket may still be released when docker.service is final. */
  predicate MayClose(u: Unit, c: Closing) { c == Open || (c == ServiceFinal && u == DockerSocket) }

  /** When a release of u is in order. */
  ghost predicate MayRelease(u: Unit, m: Monitor) {
    && MayClose(u, m.progress.closing)
    && (if IsDocker(u) then NvidiaSettled(m) else !m.progress.dockerReleased)
  }

  /** The last thing that happened is that an error was reported. */
  predicate Explained(log: seq<Event>) { |log| > 0 && log[|log| - 1].ErrorFound? }

  /** The audit the code holds is the latest one and nothing was mutated after it. */
  ghost predicate Current(m: Monitor, a: HostAudit) {
    m.view.last == Some(a) && !m.view.dirty
  }

  lemma SystemctlStep(g: Goal, m: Monitor, verb: Verb, u: Unit, ok: bool)
    requires !BreaksOrder(m, Systemctl(verb, u, true))
    ensures var m' := Step(g, m, Systemctl(verb, u, ok));
            && Within(u, m, m')
            && (verb == Unmask || verb == Disable || verb == Enable ==> m'.processes.Of(u) == m.processes.Of(u))
            && (verb == Start || verb == Stop || verb == Mask ==> m'.processes.Of(u) == Unread)
            && (!(verb == Start && u == DockerService) ==> m'.progress.unproven == m.progress.unproven)
            && (verb != Enable && !(verb == Mask && u == DockerSocket) && MayClose(u, m.progress.closing) ==>
                  m'.progress.closing == m.progress.closing)
            && (m.progress.alarm && (verb == Stop || verb == Mask) ==> m'.progress.alarm)
  {
  }

  /** One commit run: what it aims at, every event so far, and their summaries. */
  class World {
    const goal: Goal
    var log: seq<Event>
    ghost var ms: seq<Monitor>
    ghost var m: Monitor

    ghost predicate Valid()
      reads this
    {
      IsRun(goal, log, ms) && m == ms[|log|]
    }

    constructor (goal: Goal)
      ensures Valid() && this.goal == goal && log == [] && m == FRESH
    {
      this.goal := goal;
      log, ms, m := [], [FRESH], FRESH;
    }

    method Emit(e: Event)
      requires Valid()
      modifies this
      ensures Valid() && log == old(log) + [e] && m == Step(goal, old(m), e)
    {
      log := log + [e];
      m := Step(goal, m, e);
      ms := ms + [m];
    }

    method AuditExactly() returns (r: Outcome<HostAudit>)
      requires Valid()
      modifies this
      ensures Valid()
      ensures r.Raised? ==> m == old(m)
      ensures r.Returned? ==> m == AfterAudit(goal, old(m), r.value)
    {
      var raised: bool := *;
      if raised { return Raised; }
      var a: HostAudit := *;
      Emit(Audited(a));
      return Returned(a);
    }

    /** What a stage needs to know about an audit. */
    method Audit(u: Unit) returns (r: Outcome<HostAudit>)
      requires Valid()
      modifies this
      ensures Valid() && Observes(u, old(m), m) && m.processes == old(m).processes
      ensures r.Returned? ==> m.view.early.Of(u) == m.processes.Of(u).Bound? && !m.view.late.Of(u)
      ensures r.Returned? ==> Current(m, r.value)
      ensures r.Returned? && r.value.launchers.Of(u) == goal.target.Of(u) ==> m.settled.Of(u)
    {
      r := AuditExactly();
    }

    /** A journaled command may raise before it runs or after it took effect. */
    method Systemctl(verb: Verb, unit: Unit) returns (r: Outcome<bool>)
      requires Valid()
      requires !BreaksOrder(m, Event.Systemctl(verb, unit, true))
      modifies this
      ensures Valid()
      ensures Within(unit, old(m), m)
      ensures verb == Unmask || verb == Disable || verb == Enable ==> m.processes.Of(unit) == old(m).processes.Of(unit)
      ensures r.Returned? && (verb == Start || verb == Stop || verb == Mask) ==> m.processes.Of(unit) == Unread
      ensures !(verb == Start && unit == DockerService) ==> m.progress.unproven == old(m).progress.unproven
      ensures verb != Enable && !(verb == Mask && unit == DockerSocket) && MayClose(unit, old(m).progress.closing) ==>
                m.progress.closing == old(m).progress.closing
      ensures old(m).progress.alarm && (verb == Stop || verb == Mask) ==> m.progress.alarm
    {
      var early: bool := *;
      if early { return Raised; }
      var ok: bool := *;
      var late: bool := *;
      SystemctlStep(goal, m, verb, unit, ok && !late);
      Emit(Event.Systemctl(verb, unit, ok && !late));
      return if late then Raised else Returned(ok);
    }

    /** Validate a unit's binding: is it trusted, and did every query succeed? An untrusted unit
        always leaves a failed result; a trusted one may too (a masked unit queries with code 1). */
    method ValidateUnit(unit: Unit) returns (r: Outcome<(bool, bool)>)
      requires Valid()
      modifies this
      ensures Valid() && m == old(m)
      ensures r.Returned? && r.value.1 ==> r.value.0
    {
      var raised: bool := *;
      if raised { return Raised; }
      var trusted: bool := *;
      var queriesOk: bool := *;
      Emit(UnitValidated(unit, trusted));
      return Returned((trusted, trusted && queriesOk));
    }

    method Observe(unit: Unit) returns (r: Outcome<(bool, LauncherState)>)
      requires Valid()
      modifies this
      ensures Valid() && m == old(m)
      ensures r.Returned? ==> log == old(log) + [Observed(unit, r.value.1)]
    {
      var raised: bool := *;
      if raised { return Raised; }
      var ok: bool := *;
      var s: LauncherState := *;
      Emit(Observed(unit, s));
      return Returned((ok, s));
    }

    /** Read the identity of an active trusted process; None is a validation error. */
    method ReadIdentityExactly(unit: Unit, expected: Option<nat>)
      returns (r: Outcome<Option<nat>>, seen: Option<nat>)
      requires Valid()
      modifies this
      ensures Valid()
      ensures r.Raised? ==> m == old(m)
      ensures r.Returned? ==> m == AfterIdentity(old(m), unit, seen)
      ensures r.Returned? && r.value.Some? ==> r.value == seen && expected in {None, seen}
    {
      seen := *;
      var raised: bool := *;
      if raised { return Raised, seen; }
      Emit(IdentityRead(unit, seen));
      return Returned(if expected.Some? && seen != expected then None else seen), seen;
    }

    /** What a stage needs to know about an identity reading. */
    method ReadIdentity(unit: Unit, expected: Option<nat>) returns (r: Outcome<Option<nat>>)
      requires Valid()
      modifies this
      ensures Valid() && Observes(unit, old(m), m) && m.progress == old(m).progress
      ensures m.view.last == old(m).view.last && m.view.dirty == old(m).view.dirty
      ensures r.Returned? && r.value.Some? && expected.Some? ==> r.value == expected
      ensures r.Returned? && r.value.Some? ==>
                m.processes.Of(unit) == ProcessAfterReading(old(m).processes.Of(unit), r.value,
                                                            old(m).view.early.Of(unit) && !old(m).view.late.Of(unit))
    {
      var seen;
      r, seen := ReadIdentityExactly(unit, expected);
    }

    method Probe() returns (r: Outcome<Option<seq<string>>>)
      requires Valid()
      modifies this
      ensures Valid()
      ensures r.Raised? ==> m == old(m)
      ensures r.Returned? ==> m == Step(goal, old(m), Probed(r.value)) && log == old(log) + [Probed(r.value)]
    {
      var raised: bool := *;
      if raised { return Raised; }
      var w: Option<seq<string>> := *;
      Emit(Probed(w));
      return Returned(w);
    }

    method Requiesce() returns (r: Outcome<bool>)
      requires Valid()
      modifies this
      ensures Valid() && m == old(m)
    {
      var raised: bool := *;
      if raised { return Raised; }
      var ok: bool := *;
      Emit(GuardRequiesced(ok));
      return Returned(ok);
    }

    method Relinquish(unit: Unit)
      requires Valid()
      modifies this
      ensures Valid() && m == old(m)
    {
      Emit(Relinquished(unit));
    }

    method Report(id: ErrorId)
      requires Valid()
      modifies this
      ensures Valid()
      ensures m == old(m).(progress := old(m).progress.(alarm := old(m).progress.alarm || id == QuarantineUnverified))
      ensures Explained(log)
    {
      Emit(ErrorFound(id));
    }
  }

  const SNAPSHOT_STATES: set<FileState> := {Enabled, Disabled, Static, Masked, NotFound}

  function Prepared(target: FileState): FileState {
    if target == Enabled then Disabled else target
  }

  /** Validate, then run one releasing command that never starts anything: did it run, and did
      every query around it succeed too? */
  method ValidatedRelease(w: World, u: Unit, verb: Verb) returns (r: Outcome<(bool, bool)>)
    requires verb == Unmask || verb == Disable
    requires w.Valid() && MayRelease(u, w.m)
    modifies w
    ensures w.Valid() && Within(u, old(w.m), w.m) && w.m.progress.closing == old(w.m).progress.closing
    ensures w.m.progress.unproven == old(w.m).progress.unproven
    ensures w.m.processes.Of(u) == old(w.m).processes.Of(u)
  {
    var v :- w.ValidateUnit(u);
    if !v.0 { return Returned((false, false)); }
    var ok :- w.Systemctl(verb, u);
    return Returned((ok, v.1 && ok));
  }

  method PrepareServiceForActivity(w: World, u: Unit, target: FileState, current: FileState)
    returns (r: Outcome<bool>)
    requires w.Valid() && MayRelease(u, w.m)
    modifies w
    ensures w.Valid() && Within(u, old(w.m), w.m) && w.m.progress.closing == old(w.m).progress.closing
    ensures w.m.progress.unproven == old(w.m).progress.unproven
    ensures w.m.processes.Of(u) == old(w.m).processes.Of(u)
  {
    if target !in SNAPSHOT_STATES || current !in SNAPSHOT_STATES { return Returned(false); }
    if current == Prepared(target) { return Returned(true); }
    if current != Masked { return Returned(false); }
    var unmasked :- ValidatedRelease(w, u, Unmask);
    if !unmasked.0 || (target != Enabled && target != Disabled) { return Returned(unmasked.1); }
    // Keep the launcher boot-disabled until its activity is validated.
    var disabled :- ValidatedRelease(w, u, Disable);
    return Returned(unmasked.1 && disabled.1);
  }

  method PrepareUnit(w: World, snapshot: LauncherTable, audit: HostAudit, u: Unit)
    returns (r: Outcome<Stage>)
    requires w.Valid() && MayRelease(u, w.m)
    modifies w
    ensures Within(u, old(w.m), w.m) && w.m.progress.closing == old(w.m).progress.closing
    ensures w.m.progress.unproven == old(w.m).progress.unproven
    ensures w.m.processes.Of(u) == old(w.m).processes.Of(u)
    ensures r.Returned? && r.value.ok ==>
              && Current(w.m, r.value.audit)
              && snapshot.Of(u).active.Some? && snapshot.Of(u).file.Some?
              && r.value.audit.launchers.Of(u) == LauncherState(Some(false), Some(Prepared(snapshot.Of(u).file.value)))
    ensures w.Valid()
    ensures r.Returned? && !r.value.ok ==> Explained(w.log)
  {
    var target, current := snapshot.Of(u), audit.launchers.Of(u);
    if target.active.None? || target.file.None? || current.active.None? || current.file.None? {
      w.Report(ServiceStateUnknown);
      return Returned(Stage(false, audit, None));
    }
    var ok :- PrepareServiceForActivity(w, u, target.file.value, current.file.value);
    if !ok {
      w.Report(PrepareFailed);
      return Returned(Stage(false, audit, None));
    }
    var after :- w.Audit(u);
    var observed := after.launchers.Of(u);
    if observed.active != Some(false) || observed.file != Some(Prepared(target.file.value)) {
      w.Report(PrepareUnverified);
      return Returned(Stage(false, after, None));
    }
    return Returned(Stage(true, after, None));
  }

  /** Start or stop, only from the prepared unit-file state. */
  method RestoreServiceActivity(w: World, snapshot: LauncherTable, audit: HostAudit, u: Unit)
    returns (r: Outcome<bool>)
    requires snapshot.Of(u).active.Some? && audit.launchers.Of(u).active.Some?
    requires w.Valid() && MayRelease(u, w.m)
    modifies w
    ensures Within(u, old(w.m), w.m) && w.m.progress.closing == old(w.m).progress.closing
    ensures snapshot.Of(u).active == Some(false) ==> w.m.progress.unproven == old(w.m).progress.unproven
    ensures r == Returned(true) && snapshot.Of(u).active == Some(true) && old(w.m).processes.Of(u) == Unread ==>
              w.m.processes.Of(u) == Unread
    ensures w.Valid()
  {
    var target, current := snapshot.Of(u), audit.launchers.Of(u);
    if target.file.None? || target.file.value !in SNAPSHOT_STATES || current.file.None?
       || current.file.value != Prepared(target.file.value) {
      return Returned(false);
    }
    if target.active == current.active { return Returned(true); }
    var v :- w.ValidateUnit(u);
    if !v.0 { return Returned(false); }
    var ok :- w.Systemctl(if target.active.value then Start else Stop, u);
    return Returned(v.1 && ok);
  }

  /** May the unit change activity? Trusted units are validated first. */
  method MayChangeActivity(w: World, target: bool, current: bool, u: Unit) returns (r: Outcome<bool>)
    requires w.Valid()
    modifies w
    ensures w.Valid() && Observes(u, old(w.m), w.m)
    ensures target ==> w.m.processes.Of(u) == old(w.m).processes.Of(u)
    ensures r == Returned(false) ==> Explained(w.log)
  {
    if IsTrusted(u) && target && !current {
      var v :- w.ValidateUnit(u);
      if !v.0 {
        w.Report(StartRefused);
        return Returned(false);
      }
    }
    if IsTrusted(u) && current && !target {
      var identity :- w.ReadIdentity(u, None);
      if identity.None? {
        w.Report(StopRefused);
        return Returned(false);
      }
    }
    return Returned(true);
  }

  /** A fresh audit, then the same process again. */
  method AuditAndReread(w: World, u: Unit, identity: Option<nat>) returns (r: Outcome<Stage>)
    requires w.Valid() && identity.Some?
    modifies w
    ensures w.Valid() && Observes(u, old(w.m), w.m)
    ensures r.Returned? && r.value.ok ==>
              && Current(w.m, r.value.audit)
              && r.value.identity == identity
              && (old(w.m).processes.Of(u) == Bound(identity.value, 0) ==>
                    w.m.processes.Of(u) == Bound(identity.value, 1))
    ensures r.Returned? && !r.value.ok ==> Explained(w.log)
  {
    var after :- w.Audit(u);
    var again :- w.ReadIdentity(u, identity);
    if again.None? { w.Report(IdentityChanged); }
    return Returned(Stage(again.Some?, after, identity));
  }

  /** Audit a restored unit; an active trusted one has its identity read on both sides. */
  method AuditRestored(w: World, held: HostAudit, active: bool, u: Unit) returns (r: Outcome<Stage>)
    requires w.Valid()
    modifies w
    ensures w.Valid() && Observes(u, old(w.m), w.m)
    ensures r.Returned? && r.value.ok ==>
              && Current(w.m, r.value.audit)
              && (IsTrusted(u) && active ==> r.value.identity.Some?)
              && (IsTrusted(u) && active && old(w.m).processes.Of(u) == Unread ==>
                    w.m.processes.Of(u) == Bound(r.value.identity.value, 1))
    ensures r.Returned? && !r.value.ok ==> Explained(w.log)
  {
    if !IsTrusted(u) || !active {
      var after :- w.Audit(u);
      return Returned(Stage(true, after, None));
    }
    var identity :- w.ReadIdentity(u, None);
    if identity.None? {
      w.Report(ActiveUnverified);
      return Returned(Stage(false, held, None));
    }
    r := AuditAndReread(w, u, identity);
  }

  /** Start or stop a unit after its trust was established. */
  method ChangeActivity(w: World, snapshot: LauncherTable, audit: HostAudit, u: Unit) returns (r: Outcome<bool>)
    requires snapshot.Of(u).active.Some? && audit.launchers.Of(u).active.Some?
    requires w.Valid() && MayRelease(u, w.m)
    modifies w
    ensures w.Valid() && Within(u, old(w.m), w.m) && w.m.progress.closing == old(w.m).progress.closing
    ensures snapshot.Of(u).active == Some(false) ==> w.m.progress.unproven == old(w.m).progress.unproven
    ensures r == Returned(true) && snapshot.Of(u).active == Some(true) && old(w.m).processes.Of(u) == Unread ==>
              w.m.processes.Of(u) == Unread
    ensures r == Returned(false) ==> Explained(w.log)
  {
    var may :- MayChangeActivity(w, snapshot.Of(u).active.value, audit.launchers.Of(u).active.value, u);
    if !may { return Returned(false); }
    r := RestoreServiceActivity(w, snapshot, audit, u);
    if r == Returned(false) { w.Report(RestoreFailed); }
  }

  /** Bring one unit to the snapshot's activity and prove it on a fresh audit. */
  method RestoreUnitActivity(w: World, snapshot: LauncherTable, audit: HostAudit, u: Unit) returns (r: Outcome<Stage>)
    requires w.Valid() && MayRelease(u, w.m)
    modifies w
    ensures w.Valid() && Within(u, old(w.m), w.m) && w.m.progress.closing == old(w.m).progress.closing
    ensures snapshot.Of(u).active == Some(false) ==> w.m.progress.unproven == old(w.m).progress.unproven
    ensures r.Returned? && r.value.ok ==>
              && var a := r.value.audit;
              && Current(w.m, a)
              && snapshot.Of(u).active.Some? && a.launchers.Of(u).active == snapshot.Of(u).active
              && (u == FabricManager && snapshot.Of(u).active == Some(true) ==> a.FabricBound())
    ensures r.Returned? && r.value.ok && IsTrusted(u) && snapshot.Of(u).active == Some(true)
            && old(w.m).processes.Of(u) == Unread ==>
              r.value.identity.Some? && w.m.processes.Of(u) == Bound(r.value.identity.value, 1)
    ensures r.Returned? && !r.value.ok ==> Explained(w.log)
  {
    var target, current := snapshot.Of(u).active, audit.launchers.Of(u).active;
    if target.None? || current.None? {
      w.Report(ServiceStateUnknown);
      return Returned(Stage(false, audit, None));
    }
    var ok :- ChangeActivity(w, snapshot, audit, u);
    if !ok { return Returned(Stage(false, audit, None)); }
    var seen :- AuditRestored(w, audit, target.value, u);
    if seen.ok && seen.audit.launchers.Of(u).active != target {
      w.Report(RestoreUnverified);
      return Returned(Stage(false, seen.audit, None));
    }
    if seen.ok && target.value && u == FabricManager && !seen.audit.FabricBound() {
      w.Report(FabricHealthFailed);
      return Returned(Stage(false, seen.audit, None));
    }
    return Returned(seen);
  }

  /** Enable a unit whose exact target is enabled; every other target was reached by preparation,
      and nothing is done about it. */
  method RestoreServiceFileState(w: World, u: Unit, target: Option<FileState>, current: Option<FileState>)
    returns (r: Outcome<bool>)
    requires w.Valid() && MayRelease(u, w.m)
    requires IsDocker(u) ==> !w.m.progress.unproven
    modifies w
    ensures Within(u, old(w.m), w.m)
    ensures w.m.progress.unproven == old(w.m).progress.unproven
    ensures w.m.processes == old(w.m).processes
    ensures target != Some(Enabled) || target == current ==> w.log == old(w.log)
    ensures w.Valid()
  {
    if target == current { return Returned(true); }
    if target.None? || target.value !in SNAPSHOT_STATES || current.None? || current.value !in SNAPSHOT_STATES {
      return Returned(false);
    }
    if current.value != Prepared(target.value) { return Returned(false); }
    if target.value != Enabled { return Returned(true); }
    var v :- w.ValidateUnit(u);
    if !v.0 { return Returned(false); }
    var ok :- w.Systemctl(Enable, u);
    return Returned(v.1 && ok);
  }

  method FinalizeUnitState(w: World, snapshot: LauncherTable, audit: HostAudit, u: Unit)
    returns (r: Outcome<Stage>)
    requires snapshot == w.goal.target
    requires w.Valid() && MayRelease(u, w.m)
    requires IsDocker(u) ==> !w.m.progress.unproven
    modifies w
    ensures Within(u, old(w.m), w.m)
    ensures w.m.progress.unproven == old(w.m).progress.unproven
    ensures r.Returned? && r.value.ok ==> w.m.settled.Of(u) && Current(w.m, r.value.audit)
    ensures w.m.processes == old(w.m).processes
    ensures w.Valid()
    ensures r.Returned? && !r.value.ok ==> Explained(w.log)
  {
    var ok :- RestoreServiceFileState(w, u, snapshot.Of(u).file, audit.launchers.Of(u).file);
    if !ok {
      w.Report(EnableFailed);
      return Returned(Stage(false, audit, None));
    }
    var after :- w.Audit(u);
    var observed, target := after.launchers.Of(u), snapshot.Of(u);
    if observed.active != target.active || observed.file != target.file {
      w.Report(FinalStateUnverified);
      return Returned(Stage(false, after, None));
    }
    return Returned(Stage(true, after, None));
  }

  predicate NeedsActivationProof(snapshot: LauncherTable, u: Unit) {
    snapshot.Of(u).active == Some(false) && snapshot.Of(u).file in {Some(Enabled), Some(Static)}
  }

  function WithActivity(snapshot: LauncherTable, u: Unit, active: bool): LauncherTable {
    snapshot.With(u, snapshot.Of(u).(active := Some(active)))
  }

  /** One NVIDIA unit from quarantine to its exact target. */
  method RestoreUnitStaged(w: World, audit: HostAudit, u: Unit)
    returns (r: Outcome<Stage>)
    requires !IsDocker(u)
    requires w.Valid() && MayRelease(u, w.m)
    requires w.m.processes.Of(u) == Unread
    modifies w
    ensures Within(u, old(w.m), w.m)
    ensures r.Returned? && r.value.ok ==>
              && w.m.settled.Of(u) && w.goal.target.Of(u).active.Some?
              && (w.goal.target.Of(u).active == Some(true) ==>
                    r.value.identity.Some? && w.m.processes.Of(u) == Bound(r.value.identity.value, 1))
    ensures w.Valid()
    ensures r.Returned? && !r.value.ok ==> Explained(w.log)
  {
    var snapshot := w.goal.target;
    var prepared :- PrepareUnit(w, snapshot, audit, u);
    if !prepared.ok { return Returned(Stage(false, prepared.audit, None)); }
    var restored: Stage;
    if NeedsActivationProof(snapshot, u) {
      restored :- RestoreUnitActivity(w, WithActivity(snapshot, u, true), prepared.audit, u);
      if !restored.ok { return Returned(Stage(false, restored.audit, None)); }
      restored :- RestoreUnitActivity(w, snapshot, restored.audit, u);
    } else {
      restored :- RestoreUnitActivity(w, snapshot, prepared.audit, u);
    }
    if !restored.ok { return Returned(Stage(false, restored.audit, None)); }
    var final :- FinalizeUnitState(w, snapshot, restored.audit, u);
    return Returned(Stage(final.ok, final.audit, restored.identity));
  }
}
