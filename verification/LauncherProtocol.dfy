/** The whole launcher commit: quarantine, joint verification, and the four-unit release. */
module LauncherProtocol {
  import opened Outcomes
  import opened LauncherModel
  import opened LauncherCommit
  import opened LauncherMeaning

  /** A fencing stage releases nothing and silences nothing. */
  ghost predicate Fences(m: Monitor, m': Monitor) {
    && m'.progress.disorder == m.progress.disorder
    && (m.progress.alarm ==> m'.progress.alarm)
  }

  /** The last thing seen of u is that it is inactive and masked, and nothing happened since. */
  ghost predicate SeenQuarantined(log: seq<Event>, u: Unit) {
    |log| > 0 && log[|log| - 1] == Observed(u, LauncherState(Some(false), Some(Masked)))
  }

  /** Mask first, then stop an authenticated active unit, and prove both. */
  method QuarantineService(w: World, u: Unit) returns (r: Outcome<bool>)
    requires w.Valid()
    modifies w
    ensures w.Valid() && Fences(old(w.m), w.m)
    ensures Within(u, old(w.m), w.m) && w.m.progress.unproven == old(w.m).progress.unproven
    ensures r == Returned(true) ==> SeenQuarantined(w.log, u)
  {
    var before :- w.Observe(u);
    if !before.0 || before.1.active.None? || before.1.file.None? { return Returned(false); }
    var trust :- Authenticate(w, u, before.1.active.value);
    if trust.None? { return Returned(false); }
    r := MaskAndStop(w, u, trust.value);
  }

  method MaskAndStop(w: World, u: Unit, identity: Option<nat>) returns (r: Outcome<bool>)
    requires w.Valid()
    modifies w
    ensures w.Valid() && Fences(old(w.m), w.m)
    ensures Within(u, old(w.m), w.m) && w.m.progress.unproven == old(w.m).progress.unproven
    ensures r == Returned(true) ==> SeenQuarantined(w.log, u)
  {
    var masked :- w.Systemctl(Mask, u);
    if !masked { return Returned(false); }
    r := StopMasked(w, u, identity);
  }

  /** Validate a unit before it is masked; an active service is bound to its process. */
  method Authenticate(w: World, u: Unit, active: bool) returns (r: Outcome<Option<Option<nat>>>)
    requires w.Valid()
    modifies w
    ensures w.Valid() && Observes(u, old(w.m), w.m) && w.m.progress == old(w.m).progress
  {
    if u != DockerSocket && active {
      var identity :- w.ReadIdentity(u, None);
      return Returned(if identity.None? then None else Some(identity));
    }
    var v :- w.ValidateUnit(u);
    return Returned(if v.0 then Some(None) else None);
  }

  method StopMasked(w: World, u: Unit, identity: Option<nat>) returns (r: Outcome<bool>)
    requires w.Valid()
    modifies w
    ensures w.Valid() && Fences(old(w.m), w.m)
    ensures Within(u, old(w.m), w.m) && w.m.progress.unproven == old(w.m).progress.unproven
    ensures r == Returned(true) ==> SeenQuarantined(w.log, u)
  {
    var seen :- w.Observe(u);
    if !seen.0 || seen.1.active.None? || seen.1.file != Some(Masked) { return Returned(false); }
    if seen.1.active.value {
      if u == DockerSocket {
        var v :- w.ValidateUnit(u);
        if !v.0 { return Returned(false); }
      } else {
        if identity.None? { return Returned(false); }
        var same :- w.ReadIdentity(u, identity);
        if same.None? { return Returned(false); }
      }
      var stopped :- w.Systemctl(Stop, u);
      if !stopped { return Returned(false); }
      seen :- w.Observe(u);
    }
    return Returned(seen.0 && seen.1 == LauncherState(Some(false), Some(Masked)));
  }

  const QUARANTINE_ORDER: seq<Unit> := [DockerSocket, DockerService, Persistenced, FabricManager]

  method ValidateForQuarantine(w: World) returns (r: Outcome<bool>)
    requires w.Valid()
    modifies w
    ensures w.Valid() && w.m == old(w.m).(progress := w.m.progress) && Fences(old(w.m), w.m)
  {
    var order := [DockerService, Persistenced, FabricManager, DockerSocket];
    for i := 0 to |order|
      invariant w.Valid() && w.m == old(w.m)
    {
      var v :- w.ValidateUnit(order[i]);
      if !v.0 {
        w.Report(QuarantineUntrusted);
        return Returned(false);
      }
    }
    return Returned(true);
  }

  /** Stop and mask all four launchers, and prove it on a fresh audit. */
  method DeferLauncherEnablement(w: World, audit: HostAudit) returns (r: Outcome<Stage>)
    requires w.Valid()
    modifies w
    ensures w.Valid() && Fences(old(w.m), w.m)
    ensures r.Returned? && r.value.ok ==> Current(w.m, r.value.audit) && AllMasked(r.value.audit.launchers)
  {
    if exists u: Unit :: audit.launchers.Of(u).file.None? {
      w.Report(EnablementUnknown);
      return Returned(Stage(false, audit, None));
    }
    var trusted :- ValidateForQuarantine(w);
    if !trusted { return Returned(Stage(false, audit, None)); }
    var failed := false;
    var i := 0;
    while i < |QUARANTINE_ORDER| && !failed
      invariant w.Valid() && Fences(old(w.m), w.m)
    {
      var ok :- QuarantineService(w, QUARANTINE_ORDER[i]);
      failed := !ok;
      i := i + 1;
    }
    var after :- w.AuditExactly();
    if failed || !AllMasked(after.launchers) {
      w.Report(LaunchersUnquarantined);
      return Returned(Stage(false, after, None));
    }
    return Returned(Stage(true, after, None));
  }

  /** Fail closed after any partial launcher release. */
  method QuarantineFailedCommit(w: World, guarded: bool) returns (r: Outcome<Stage>)
    requires w.Valid()
    modifies w
    ensures w.Valid() && w.m.progress.disorder == old(w.m).progress.disorder
    ensures r.Returned? ==> !r.value.ok && Contained(w.m)
  {
    if guarded {
      var requiesced :- w.Requiesce();
      if !requiesced { w.Report(RequiesceFailed); }
    }
    var audit :- w.AuditExactly();
    var deferred :- DeferLauncherEnablement(w, audit);
    var workloads :- w.Probe();
    if !deferred.ok || workloads.None? || workloads.value != [] {
      w.Report(QuarantineUnverified);
    }
    return Returned(Stage(false, deferred.audit, None));
  }

  /** Best-effort masks with a runner of their own; nothing can interrupt them. */
  method EmergencyQuarantine(w: World)
    requires w.Valid()
    modifies w
    ensures w.Valid() && w.m.progress.disorder == old(w.m).progress.disorder
    ensures forall u: Unit :: u in w.m.progress.emergency
  {
    for i := 0 to |QUARANTINE_ORDER|
      invariant w.Valid() && w.m.progress.disorder == old(w.m).progress.disorder
      invariant forall j :: 0 <= j < i ==> QUARANTINE_ORDER[j] in w.m.progress.emergency
    {
      w.Emit(EmergencyMasked(QUARANTINE_ORDER[i]));
    }
    assert QUARANTINE_ORDER[0] == DockerSocket && QUARANTINE_ORDER[1] == DockerService;
    assert QUARANTINE_ORDER[2] == Persistenced && QUARANTINE_ORDER[3] == FabricManager;
    forall u: Unit
      ensures u in w.m.progress.emergency
    {
      match u case FabricManager => case Persistenced => case DockerService => case DockerSocket =>
    }
  }

  const TRUSTED_ORDER: seq<Unit> := [FabricManager, Persistenced, DockerService]

  predicate WantsActive(g: Goal, u: Unit) { g.target.Of(u).active == Some(true) }

  /** The token retained for each active trusted service is the process every reading reported. */
  ghost predicate Holds(g: Goal, m: Monitor, tokens: map<Unit, nat>) {
    forall u: Unit :: IsTrusted(u) && WantsActive(g, u) ==>
      u in tokens && m.processes.Of(u).Bound? && m.processes.Of(u).id == tokens[u] && m.processes.Of(u).spans >= 1
  }

  /** Observations that change nothing but how often processes were read. */
  ghost predicate Rereads(m: Monitor, m': Monitor) {
    && m'.progress == m.progress
    && m'.view == m.view.(late := m'.view.late)
  }

  /** Every active trusted service still runs the process of its token. */
  method RereadAll(w: World, tokens: map<Unit, nat>, mistrust: ErrorId) returns (r: Outcome<bool>)
    requires w.Valid() && Holds(w.goal, w.m, tokens) && mistrust != QuarantineUnverified
    modifies w
    ensures w.Valid()
    ensures w.m.progress == old(w.m).progress
    ensures r == Returned(true) ==> Holds(w.goal, w.m, tokens) && Rereads(old(w.m), w.m)
    ensures r == Returned(true) ==> forall u: Unit :: IsTrusted(u) && WantsActive(w.goal, u) ==>
              && w.m.view.late.Of(u)
              && (old(w.m).view.early.Of(u) && !old(w.m).view.late.Of(u) ==> w.m.processes.Of(u).spans >= 2)
    ensures r == Returned(false) ==> Explained(w.log)
  {
    for i := 0 to |TRUSTED_ORDER|
      invariant w.Valid() && Holds(w.goal, w.m, tokens) && Rereads(old(w.m), w.m)
      invariant forall j :: i <= j < |TRUSTED_ORDER| ==>
                  w.m.view.late.Of(TRUSTED_ORDER[j]) == old(w.m).view.late.Of(TRUSTED_ORDER[j])
      invariant forall j :: 0 <= j < i && WantsActive(w.goal, TRUSTED_ORDER[j]) ==>
                  var u := TRUSTED_ORDER[j];
                  && w.m.view.late.Of(u)
                  && (old(w.m).view.early.Of(u) && !old(w.m).view.late.Of(u) ==> w.m.processes.Of(u).spans >= 2)
    {
      var u := TRUSTED_ORDER[i];
      if WantsActive(w.goal, u) {
        var identity, seen := w.ReadIdentityExactly(u, Some(tokens[u]));
        if identity.Raised? { return Raised; }
        if identity.value.None? {
          w.Report(mistrust);
          return Returned(false);
        }
      }
    }
    assert TRUSTED_ORDER[0] == FabricManager && TRUSTED_ORDER[1] == Persistenced && TRUSTED_ORDER[2] == DockerService;
    return Returned(true);
  }

  /** The last thing done was a probe that saw no workload the operator did not accept. */
  ghost predicate AcceptsLast(g: Goal, log: seq<Event>) {
    |log| > 0 && log[|log| - 1].Probed? && Acceptable(log[|log| - 1].workloads, g.allowActive)
  }

  /** The daemon runs and no unaccepted workload came back with it. */
  method WorkloadCheckpoint(w: World) returns (r: Outcome<Stage>)
    requires w.Valid()
    modifies w
    ensures w.Valid() && w.m.processes == old(w.m).processes
    ensures w.m.progress == old(w.m).progress.(unproven := w.m.progress.unproven, alarm := w.m.progress.alarm)
    ensures OthersStaySettled(DockerSocket, old(w.m).settled, w.m.settled)
    ensures w.m.progress.unproven ==> old(w.m).progress.unproven
    ensures r.Returned? && r.value.ok ==> !w.m.progress.unproven && Current(w.m, r.value.audit)
    ensures r.Returned? && r.value.ok ==>
              r.value.audit.launchers.dockerService.active == Some(true) && AcceptsLast(w.goal, w.log)
    ensures r.Returned? && !r.value.ok ==> Explained(w.log)
  {
    var audit :- w.AuditExactly();
    if audit.launchers.dockerService.active != Some(true) {
      w.Report(CheckpointUnavailable);
      return Returned(Stage(false, audit, None));
    }
    var workloads :- w.Probe();
    if workloads.None? {
      w.Report(CheckpointUnknown);
      return Returned(Stage(false, audit, None));
    }
    if workloads.value != [] && !w.goal.allowActive {
      w.Report(CheckpointActive);
      return Returned(Stage(false, audit, None));
    }
    return Returned(Stage(true, audit, None));
  }

  /** A masked inactive socket was already stopped after its gate; every other active daemon is gated again. */
  predicate NeedsFinalCheckpoint(target: LauncherTable) {
    target.dockerService.active == Some(true) && target.dockerSocket != LauncherState(Some(false), Some(Masked))
  }

  lemma AuditReady(g: Goal, m: Monitor, a: HostAudit, tokens: map<Unit, nat>)
    requires Holds(g, m, tokens)
    ensures Holds(g, AfterAudit(g, m, a), tokens)
    ensures forall u: Unit :: IsTrusted(u) && WantsActive(g, u) ==>
              AfterAudit(g, m, a).view.early.Of(u) && !AfterAudit(g, m, a).view.late.Of(u)
  {
  }

  /** One last audit, every token read again after it, and the exact target. */
  method ProveTarget(w: World, tokens: map<Unit, nat>) returns (r: Outcome<Stage>)
    requires w.Valid() && Holds(w.goal, w.m, tokens) && !w.m.progress.unproven && w.m.progress.closing != Strayed
    modifies w
    ensures w.Valid() && w.m.progress.disorder == old(w.m).progress.disorder
    ensures r.Returned? && r.value.ok ==> Committed(w.goal, w.m, r.value.audit)
    ensures r.Returned? && !r.value.ok ==> Explained(w.log)
  {
    var audit :- w.AuditExactly();
    AuditReady(w.goal, old(w.m), audit, tokens);
    var same :- RereadAll(w, tokens, FinalIdentityChanged);
    if same && !MatchesTarget(w.goal.target, audit) { w.Report(JointStateUnverified); }
    return Returned(Stage(same && MatchesTarget(w.goal.target, audit), audit, None));
  }

  /** Prove the all-launcher target after the final release mutation. */
  method VerifyJointCommit(w: World, held: HostAudit, tokens: map<Unit, nat>) returns (r: Outcome<Stage>)
    requires w.Valid() && Holds(w.goal, w.m, tokens) && !w.m.progress.unproven && w.m.progress.closing != Strayed
    modifies w
    ensures w.Valid() && w.m.progress.disorder == old(w.m).progress.disorder
    ensures r.Returned? && r.value.ok ==> Committed(w.goal, w.m, r.value.audit)
    ensures r.Returned? && !r.value.ok ==> Explained(w.log)
  {
    var bound :- RereadAll(w, tokens, FinalIdentityUnverified);
    if !bound { return Returned(Stage(false, held, None)); }
    if NeedsFinalCheckpoint(w.goal.target) {
      var gate :- WorkloadCheckpoint(w);
      if !gate.ok { return Returned(gate); }
    }
    r := ProveTarget(w, tokens);
  }

  ghost predicate HoldsFor(g: Goal, m: Monitor, tokens: map<Unit, nat>, u: Unit) {
    WantsActive(g, u) ==>
      u in tokens && m.processes.Of(u).Bound? && m.processes.Of(u).id == tokens[u] && m.processes.Of(u).spans >= 1
  }

  /** Both NVIDIA units are settled and their processes retained; docker.socket is not final yet. */
  ghost predicate DockerMayRun(g: Goal, m: Monitor, tokens: map<Unit, nat>) {
    && NvidiaSettled(m) && m.progress.closing == Open
    && HoldsFor(g, m, tokens, FabricManager) && HoldsFor(g, m, tokens, Persistenced)
  }

  /** The NVIDIA units, one after the other, each to its exact target. */
  method ReleaseNvidia(w: World, held: HostAudit, guarded: bool)
    returns (r: Outcome<Stage>, tokens: map<Unit, nat>)
    requires w.Valid() && w.m.processes == FRESH.processes
    requires !w.m.progress.dockerReleased && !w.m.progress.unproven && w.m.progress.closing == Open
    modifies w
    ensures w.Valid() && w.m.progress.disorder == old(w.m).progress.disorder
    ensures r.Returned? && r.value.ok ==>
              && DockerMayRun(w.goal, w.m, tokens)
              && !w.m.progress.unproven && w.m.processes.dockerService == Unread
    ensures r.Returned? && !r.value.ok ==> Explained(w.log)
  {
    tokens := map[];
    var fabric := RestoreUnitStaged(w, held, FabricManager);
    if fabric.Raised? || !fabric.value.ok { return fabric, tokens; }
    if fabric.value.identity.Some? { tokens := tokens[FabricManager := fabric.value.identity.value]; }
    if guarded { w.Relinquish(FabricManager); }
    var persistenced := RestoreUnitStaged(w, fabric.value.audit, Persistenced);
    if persistenced.Raised? || !persistenced.value.ok { return persistenced, tokens; }
    if persistenced.value.identity.Some? { tokens := tokens[Persistenced := persistenced.value.identity.value]; }
    if guarded { w.Relinquish(Persistenced); }
    return persistenced, tokens;
  }

  /** docker.service requires docker.socket; a running daemon over a masked socket needs it for a while. */
  predicate TemporarySocket(t: LauncherTable) {
    t.dockerService.active == Some(true) && t.dockerSocket == LauncherState(Some(false), Some(Masked))
  }

  function SocketDependency(t: LauncherTable): LauncherTable {
    if TemporarySocket(t) then t.(dockerSocket := LauncherState(Some(true), Some(Disabled))) else t
  }

  predicate ProvesSocket(t: LauncherTable) {
    TemporarySocket(t) || t.dockerSocket.active == Some(true) || NeedsActivationProof(t, DockerSocket)
  }

  predicate ProvesDocker(t: LauncherTable) {
    t.dockerService.active == Some(true) || NeedsActivationProof(t, DockerService) || ProvesSocket(t)
  }

  /** The target does not say what the Docker units should be like. */
  predicate Unspecified(t: LauncherTable) {
    t.dockerService.active.None? || t.dockerService.file.None? || t.dockerSocket.active.None?
        || t.dockerSocket.file.None?
  }

  /** Both Docker units unmasked but not persistent, and the socket proved where it must be. */
  method PrepareDocker(w: World, held: HostAudit, ghost tokens: map<Unit, nat>) returns (r: Outcome<Stage>)
    requires w.Valid() && DockerMayRun(w.goal, w.m, tokens)
    requires !w.m.progress.unproven && w.m.processes.dockerService == Unread
    modifies w
    ensures w.Valid() && w.m.progress.disorder == old(w.m).progress.disorder
    ensures r.Returned? && r.value.ok ==>
              && DockerMayRun(w.goal, w.m, tokens)
              && !w.m.progress.unproven && w.m.processes.dockerService == Unread
              && w.goal.target.dockerService.active.Some?
    ensures r.Returned? && !r.value.ok ==> Explained(w.log) || Unspecified(w.goal.target)
  {
    var t := w.goal.target;
    if Unspecified(t) {
      return Returned(Stage(false, held, None));
    }
    var socket :- PrepareUnit(w, SocketDependency(t), held, DockerSocket);
    if !socket.ok { return Returned(socket); }
    var service :- PrepareUnit(w, t, socket.audit, DockerService);
    if !service.ok || !ProvesSocket(t) { return Returned(service); }
    var proof := if TemporarySocket(t) then SocketDependency(t) else WithActivity(t, DockerSocket, true);
    r := RestoreUnitActivity(w, proof, service.audit, DockerSocket);
  }

  /** docker.service to its target activity; whenever it was started, through a workload gate. */
  method ActivateDocker(w: World, held: HostAudit, tokens: map<Unit, nat>)
    returns (r: Outcome<Stage>, tokens': map<Unit, nat>)
    requires w.Valid() && DockerMayRun(w.goal, w.m, tokens)
    requires !w.m.progress.unproven && w.m.processes.dockerService == Unread
    requires w.goal.target.dockerService.active.Some?
    modifies w
    ensures w.Valid() && w.m.progress.disorder == old(w.m).progress.disorder
    ensures r.Returned? && r.value.ok ==>
              && DockerMayRun(w.goal, w.m, tokens') && HoldsFor(w.goal, w.m, tokens', DockerService)
              && !w.m.progress.unproven
    ensures r.Returned? && !r.value.ok ==> Explained(w.log)
  {
    tokens' := tokens;
    var t := w.goal.target;
    var proving := ProvesDocker(t);
    var activity := if proving then WithActivity(t, DockerService, true) else t;
    assert t.dockerService.active in {Some(true), Some(false)} by {
      if t.dockerService.active.value {} else {}
    }
    var run := RestoreUnitActivity(w, activity, held, DockerService);
    if run.Raised? || !run.value.ok { return run, tokens'; }
    if run.value.identity.Some? { tokens' := tokens[DockerService := run.value.identity.value]; }
    r := run;
    if proving {
      r := WorkloadCheckpoint(w);
      if r.Raised? || !r.value.ok { return; }
    }
    if t.dockerService.active == Some(false) && proving {
      r := RestoreUnitActivity(w, t, r.value.audit, DockerService);
    }
  }

  predicate DockerActivityProved(t: LauncherTable, a: HostAudit) {
    && t.dockerService.file.Some? && t.dockerSocket.file.Some?
    && a.launchers.dockerService == LauncherState(t.dockerService.active, Some(Prepared(t.dockerService.file.value)))
    && a.launchers.dockerSocket == LauncherState(
         t.dockerSocket.active,
         Some(if TemporarySocket(t) then Disabled else Prepared(t.dockerSocket.file.value)))
  }

  /** docker.socket to its target activity, and both Docker units proved prepared. */
  method SettleSocket(w: World, held: HostAudit, ghost tokens: map<Unit, nat>) returns (r: Outcome<Stage>)
    requires w.Valid() && DockerMayRun(w.goal, w.m, tokens) && HoldsFor(w.goal, w.m, tokens, DockerService)
    requires !w.m.progress.unproven
    modifies w
    ensures w.Valid() && w.m.progress.disorder == old(w.m).progress.disorder
    ensures r.Returned? && r.value.ok ==>
              && DockerMayRun(w.goal, w.m, tokens) && HoldsFor(w.goal, w.m, tokens, DockerService)
              && !w.m.progress.unproven
    ensures r.Returned? && !r.value.ok ==> Explained(w.log) || r.value.audit.launchers.dockerSocket.active.None?
  {
    var t := w.goal.target;
    var audit := held;
    if audit.launchers.dockerSocket.active.None? { return Returned(Stage(false, audit, None)); }
    if audit.launchers.dockerSocket.active != t.dockerSocket.active {
      var moved :- RestoreUnitActivity(w, t, audit, DockerSocket);
      if !moved.ok { return Returned(moved); }
      audit := moved.audit;
    }
    if !DockerActivityProved(t, audit) {
      w.Report(DockerCommitUnverified);
      return Returned(Stage(false, audit, None));
    }
    return Returned(Stage(true, audit, None));
  }

  /** Persistent activation comes last, and docker.socket after docker.service. */
  method FinalizeDocker(w: World, held: HostAudit, ghost tokens: map<Unit, nat>) returns (r: Outcome<Stage>)
    requires w.Valid() && DockerMayRun(w.goal, w.m, tokens) && HoldsFor(w.goal, w.m, tokens, DockerService)
    requires !w.m.progress.unproven
    modifies w
    ensures w.Valid() && w.m.progress.disorder == old(w.m).progress.disorder
    ensures r.Returned? && r.value.ok ==>
              Holds(w.goal, w.m, tokens) && !w.m.progress.unproven && w.m.progress.closing != Strayed
    ensures r.Returned? && !r.value.ok ==> Explained(w.log) || TemporarySocket(w.goal.target)
  {
    var t := w.goal.target;
    var service :- FinalizeUnitState(w, t, held, DockerService);
    if !service.ok { return Returned(service); }
    if !TemporarySocket(t) {
      r := FinalizeUnitState(w, t, service.audit, DockerSocket);
      return;
    }
    var masked :- QuarantineService(w, DockerSocket);
    if !masked { return Returned(Stage(false, service.audit, None)); }
    var after :- w.Audit(DockerSocket);
    if after.launchers.dockerSocket != t.dockerSocket {
      w.Report(SocketFinalUnverified);
      return Returned(Stage(false, after, None));
    }
    return Returned(Stage(true, after, None));
  }

  /** A release that fails without reporting an error was given no Docker target, could not observe docker.socket, or
      had to mask it again at the end. */
  predicate MayFailSilently(t: LauncherTable, a: HostAudit) {
    Unspecified(t) || a.launchers.dockerSocket.active.None? || TemporarySocket(t)
  }

  /** Every release stage in order; the first that fails ends the release. */
  method ReleaseAll(w: World, held: HostAudit, guarded: bool) returns (r: Outcome<Stage>)
    requires w.Valid() && w.m == FRESH
    modifies w
    ensures w.Valid() && !w.m.progress.disorder
    ensures r.Returned? && r.value.ok ==> Committed(w.goal, w.m, r.value.audit)
    ensures r.Returned? && !r.value.ok ==> Explained(w.log) || MayFailSilently(w.goal.target, r.value.audit)
  {
    var tokens;
    r, tokens := ReleaseNvidia(w, held, guarded);
    if r.Raised? || !r.value.ok { return; }
    r := PrepareDocker(w, r.value.audit, tokens);
    if r.Raised? || !r.value.ok { return; }
    r, tokens := ActivateDocker(w, r.value.audit, tokens);
    if r.Raised? || !r.value.ok { return; }
    r := SettleSocket(w, r.value.audit, tokens);
    if r.Raised? || !r.value.ok { return; }
    r := FinalizeDocker(w, r.value.audit, tokens);
    if r.Raised? || !r.value.ok { return; }
    r := VerifyJointCommit(w, r.value.audit, tokens);
  }

  /** The release, and a quarantine on every exit that is not a success. */
  method ReleaseOrFence(w: World, held: HostAudit, guarded: bool) returns (r: Outcome<Stage>)
    requires w.Valid() && w.m == FRESH
    modifies w
    ensures w.Valid() && !w.m.progress.disorder
    ensures r.Returned? && r.value.ok ==> Committed(w.goal, w.m, r.value.audit)
    ensures r.Returned? && !r.value.ok ==> Contained(w.m)
    ensures r.Raised? ==> Contained(w.m) || forall u: Unit :: u in w.m.progress.emergency
  {
    r := ReleaseAll(w, held, guarded);
    if r.Returned? && !r.value.ok {
      r := QuarantineFailedCommit(w, guarded);
    }
    if r.Raised? {
      var fenced := QuarantineFailedCommit(w, guarded);
      if fenced.Raised? { EmergencyQuarantine(w); }
    }
  }

  /** The launcher commit in every environment: released exactly, or fenced; and an exception is only
      re-raised behind a fence or the emergency masks. */
  method CommitServiceActivity(w: World, held: HostAudit, guarded: bool) returns (r: Outcome<Stage>)
    requires w.Valid() && w.log == []
    modifies w
    ensures w.Valid()
    ensures OrderKept(w.goal, w.log)
    ensures r.Returned? && r.value.ok ==> exists n: nat :: SoundCommit(w.goal, w.log, r.value.audit, n)
    ensures r.Returned? && !r.value.ok ==> ProvedIdle(w.log) || ReportedUnverified(w.log)
    ensures r.Raised? ==> ProvedIdle(w.log) || ReportedUnverified(w.log) || EmergencyMaskedAll(w.log)
  {
    r := ReleaseOrFence(w, held, guarded);
    OrderlyRunsKeepOrder(w.goal, w.log, w.ms);
    if r.Returned? && r.value.ok {
      var n := CommittedIsSound(w.goal, w.log, w.ms, r.value.audit);
    } else if Contained(w.m) {
      ContainedIsFenced(w.goal, w.log, w.ms);
    } else {
      EmergencyIsTotal(w.goal, w.log, w.ms);
    }
  }
}
