/** The four transactional launchers, what an audit reports about them, the events a run
    leaves behind, and a monitor that reads a run off its events.

    Nothing here restricts the environment: an audit, a validation or a command may report
    anything at all, and any of them may raise. */
module LauncherModel {
  import opened Outcomes

  datatype Unit = FabricManager | Persistenced | DockerService | DockerSocket

  predicate IsDocker(u: Unit) { u == DockerService || u == DockerSocket }

  /** Units whose active process is bound to a trusted executable. */
  predicate IsTrusted(u: Unit) { u != DockerSocket }

  datatype FileState = Enabled | Disabled | Static | Masked | NotFound | Unsupported(name: string)

  datatype LauncherState = LauncherState(active: Option<bool>, file: Option<FileState>)

  /** One state for each launcher. */
  datatype LauncherTable = LauncherTable(fabricManager: LauncherState, persistenced: LauncherState,
                                         dockerService: LauncherState, dockerSocket: LauncherState) {
    function Of(u: Unit): LauncherState {
      match u
      case FabricManager => fabricManager
      case Persistenced => persistenced
      case DockerService => dockerService
      case DockerSocket => dockerSocket
    }

    function With(u: Unit, t: LauncherState): LauncherTable {
      match u
      case FabricManager => this.(fabricManager := t)
      case Persistenced => this.(persistenced := t)
      case DockerService => this.(dockerService := t)
      case DockerSocket => this.(dockerSocket := t)
    }
  }

  /** One flag for each launcher. */
  datatype Flags = Flags(fabricManager: bool, persistenced: bool, dockerService: bool, dockerSocket: bool) {
    function Of(u: Unit): bool {
      match u
      case FabricManager => fabricManager
      case Persistenced => persistenced
      case DockerService => dockerService
      case DockerSocket => dockerSocket
    }

    function With(u: Unit, t: bool): Flags {
      match u
      case FabricManager => this.(fabricManager := t)
      case Persistenced => this.(persistenced := t)
      case DockerService => this.(dockerService := t)
      case DockerSocket => this.(dockerSocket := t)
    }
  }

  /** One process for each launcher. */
  datatype Processes = Processes(fabricManager: Process, persistenced: Process, dockerService: Process,
                                 dockerSocket: Process) {
    function Of(u: Unit): Process {
      match u
      case FabricManager => fabricManager
      case Persistenced => persistenced
      case DockerService => dockerService
      case DockerSocket => dockerSocket
    }

    function With(u: Unit, t: Process): Processes {
      match u
      case FabricManager => this.(fabricManager := t)
      case Persistenced => this.(persistenced := t)
      case DockerService => this.(dockerService := t)
      case DockerSocket => this.(dockerSocket := t)
    }
  }

  predicate AllMasked(t: LauncherTable) {
    forall u: Unit :: t.Of(u) == LauncherState(Some(false), Some(Masked))
  }

  /** The part of an audit that the launcher protocol reads. */
  datatype HostAudit = HostAudit(
    launchers: LauncherTable,
    fabricHealthy: Option<bool>,
    fabricVersion: Option<string>,
    moduleVersion: Option<string>)
  {
    predicate FabricBound() {
      fabricHealthy == Some(true) && fabricVersion.Some? && fabricVersion == moduleVersion
    }
  }

  /** The exact all-four target holds in this audit. */
  predicate MatchesTarget(target: LauncherTable, a: HostAudit) {
    && (forall u: Unit :: target.Of(u).active.Some? && target.Of(u).file.Some?)
    && (forall u: Unit :: a.launchers.Of(u) == target.Of(u))
    && (target.fabricManager.active == Some(true) ==> a.FabricBound())
  }

  datatype Verb = Unmask | Disable | Enable | Start | Stop | Mask

  datatype ErrorId =
    | ServiceStateUnknown | PrepareFailed | PrepareUnverified
    | StartRefused | StopRefused | RestoreFailed | ActiveUnverified | IdentityChanged
    | RestoreUnverified | FabricHealthFailed
    | EnableFailed | FinalStateUnverified
    | CheckpointUnavailable | CheckpointUnknown | CheckpointActive
    | DockerCommitUnverified | SocketFinalUnverified
    | FinalIdentityUnverified | FinalIdentityChanged | JointStateUnverified
    | EnablementUnknown | QuarantineUntrusted | LaunchersUnquarantined
    | RequiesceFailed | QuarantineUnverified

  datatype Event =
    | Audited(audit: HostAudit)
    | Systemctl(verb: Verb, unit: Unit, ok: bool)
    | IdentityRead(unit: Unit, identity: Option<nat>)
    | UnitValidated(unit: Unit, ok: bool)
    | Observed(unit: Unit, state: LauncherState)
    | Probed(workloads: Option<seq<string>>)
    | GuardRequiesced(ok: bool)
    | Relinquished(unit: Unit)
    | ErrorFound(id: ErrorId)
    | EmergencyMasked(unit: Unit)

  /** Verbs that move a launcher towards running. Quarantine uses only Mask and Stop. */
  predicate Releases(e: Event) {
    e.Systemctl? && (e.verb == Unmask || e.verb == Disable || e.verb == Enable || e.verb == Start)
  }

  predicate ReleasesDocker(e: Event) { Releases(e) && IsDocker(e.unit) }

  predicate ReleasesNvidia(e: Event) { Releases(e) && !IsDocker(e.unit) }

  /** The command that gives docker.socket its final persistent state. */
  predicate FinalizesSocket(e: Event) {
    e.Systemctl? && e.unit == DockerSocket && (e.verb == Enable || e.verb == Mask)
  }

  predicate FinalizesService(e: Event) { e.Systemctl? && e.unit == DockerService && e.verb == Enable }

  predicate EnablesDocker(e: Event) { e.Systemctl? && e.verb == Enable && IsDocker(e.unit) }

  predicate StartsDocker(e: Event) {
    e == Systemctl(Start, DockerService, true) || e == Systemctl(Start, DockerService, false)
  }

  predicate Mutates(e: Event) { e.Systemctl? || e.EmergencyMasked? }

  predicate Acceptable(workloads: Option<seq<string>>, allowActive: bool) {
    workloads.Some? && (workloads.value == [] || allowActive)
  }

  /** What a run is measured against: the commit target and the operator's flag. */
  datatype Goal = Goal(target: LauncherTable, allowActive: bool)

  /** What the identity readings of a unit since its last start, stop or mask say. */
  datatype Process =
    | Unread                       // none was taken
    | Bound(id: nat, spans: nat)   // all report one process; the readings bracket this many audits
    | Mixed                        // they failed or disagree

  /** How recent the knowledge is. */
  datatype View = View(
    last: Option<HostAudit>,     // the latest audit
    dirty: bool,                 // a launcher was mutated after it
    idle: bool,                  // the latest workload probe after it saw none
    early: Flags,                // a process was bound before it
    late: Flags)                 // and was read again after it

  /** The end of a release: docker.service gets its persistent state, then docker.socket, and nothing else
      happens to any launcher unless the run has strayed from this. */
  datatype Closing = Open | ServiceFinal | SocketFinal | Strayed

  /** What has been released so far. */
  datatype Progress = Progress(
    dockerReleased: bool,        // some Docker unit was released
    unproven: bool,              // docker.service was started with no workload checkpoint since
    closing: Closing,            // how far the persistent Docker state is
    alarm: bool,                 // the unverified quarantine was reported since the last release
    emergency: set<Unit>,        // emergency masks since the last release
    disorder: bool)              // the release order was broken

  /** A summary of a run, updated event by event. */
  datatype Monitor = Monitor(
    view: View,
    settled: Flags,      // audited at its target since its last mutation
    processes: Processes,
    progress: Progress)

  const NOBODY: Flags := Flags(false, false, false, false)

  const FRESH: Monitor :=
    Monitor(View(None, false, false, NOBODY, NOBODY), NOBODY,
            Processes(Unread, Unread, Unread, Unread),
            Progress(false, false, Open, false, {}, false))

  predicate NvidiaSettled(m: Monitor) {
    m.settled.fabricManager && m.settled.persistenced
  }

  /** The order every release must respect. */
  predicate BreaksOrder(m: Monitor, e: Event) {
    || (ReleasesNvidia(e) && m.progress.dockerReleased)
    || (ReleasesDocker(e) && !NvidiaSettled(m))
    || (EnablesDocker(e) && m.progress.unproven)
    || (Releases(e) && m.progress.closing != Open && !(m.progress.closing == ServiceFinal && e.unit == DockerSocket))
  }

  function ClosingAfter(c: Closing, e: Event): Closing
    requires e.Systemctl?
  {
    if c == Strayed then Strayed
    else if FinalizesSocket(e) then SocketFinal
    else if c == Open then (if FinalizesService(e) then ServiceFinal else Open)
    else if e.unit == DockerSocket then c
    else Strayed
  }

  function ProcessAfterVerb(p: Process, verb: Verb): Process {
    if verb == Start || verb == Stop || verb == Mask then Unread else p
  }

  function ProcessAfterReading(p: Process, identity: Option<nat>, bracketing: bool): Process {
    if identity.None? then Mixed
    else match p
      case Unread => Bound(identity.value, 0)
      case Bound(id, spans) => if id != identity.value then Mixed
          else Bound(id, if bracketing then spans + 1 else spans)
      case Mixed => Mixed
  }

  function AfterSystemctl(m: Monitor, e: Event): Monitor
    requires e.Systemctl?
  {
    Monitor(
      m.view.(dirty := true, idle := false),
      m.settled.With(e.unit, false),
      m.processes.With(e.unit, ProcessAfterVerb(m.processes.Of(e.unit), e.verb)),
      Progress(
        m.progress.dockerReleased || ReleasesDocker(e),
        m.progress.unproven || StartsDocker(e),
        ClosingAfter(m.progress.closing, e),
        m.progress.alarm && !Releases(e),
        if Releases(e) then {} else m.progress.emergency,
        m.progress.disorder || BreaksOrder(m, e)))
  }

  function WhereBound(t: Processes): Flags {
    Flags(t.fabricManager.Bound?, t.persistenced.Bound?, t.dockerService.Bound?, t.dockerSocket.Bound?)
  }

  function SettledBy(settled: Flags, seen: LauncherTable, target: LauncherTable): Flags {
    Flags(
      settled.fabricManager || seen.fabricManager == target.fabricManager,
      settled.persistenced || seen.persistenced == target.persistenced,
      settled.dockerService || seen.dockerService == target.dockerService,
      settled.dockerSocket || seen.dockerSocket == target.dockerSocket)
  }

  function AfterAudit(g: Goal, m: Monitor, a: HostAudit): Monitor {
    m.(view := View(Some(a), false, false, WhereBound(m.processes), NOBODY),
       settled := SettledBy(m.settled, a.launchers, g.target))
  }

  function AfterIdentity(m: Monitor, u: Unit, identity: Option<nat>): Monitor {
    var bracketing := m.view.early.Of(u) && !m.view.late.Of(u);
    m.(processes := m.processes.With(u, ProcessAfterReading(m.processes.Of(u), identity, bracketing)),
       view := m.view.(late := m.view.late.With(u, true)))
  }

  /** A workload checkpoint: the latest audit shows the daemon running, nothing was mutated since,
      and the probe found no workload that the operator did not accept. */
  predicate PassesCheckpoint(g: Goal, v: View, workloads: Option<seq<string>>) {
    && v.last.Some? && !v.dirty
    && v.last.value.launchers.dockerService.active == Some(true)
    && Acceptable(workloads, g.allowActive)
  }

  function Step(g: Goal, m: Monitor, e: Event): Monitor {
    match e
    case Audited(a) => AfterAudit(g, m, a)
    case Systemctl(_, _, _) => AfterSystemctl(m, e)
    case IdentityRead(u, identity) => AfterIdentity(m, u, identity)
    case Probed(w) =>
      m.(view := m.view.(idle := w == Some([])),
         progress := m.progress.(unproven := m.progress.unproven && !PassesCheckpoint(g, m.view, w)))
    case ErrorFound(id) =>
      m.(progress := m.progress.(alarm := m.progress.alarm || id == QuarantineUnverified))
    case EmergencyMasked(u) =>
      Monitor(m.view.(dirty := true, idle := false), m.settled.With(u, false), m.processes.With(u, Unread),
              m.progress.(emergency := m.progress.emergency + {u}, closing := Strayed))
    case _ => m
  }

  /** ms[i] summarises the first i events of the run. */
  ghost predicate IsRun(g: Goal, log: seq<Event>, ms: seq<Monitor>) {
    && |ms| == |log| + 1
    && ms[0] == FRESH
    && forall i {:trigger log[i]} :: 0 <= i < |log| ==> ms[i + 1] == Step(g, ms[i], log[i])
  }

  /** A successful commit, seen by the monitor. */
  ghost predicate Committed(g: Goal, m: Monitor, a: HostAudit) {
    && m.view.last == Some(a)
    && !m.view.dirty
    && MatchesTarget(g.target, a)
    && !m.progress.unproven && m.progress.closing != Strayed
    && (forall u: Unit :: IsTrusted(u) && g.target.Of(u).active == Some(true) ==>
          m.processes.Of(u).Bound? && m.processes.Of(u).spans >= 2 && m.view.early.Of(u) && m.view.late.Of(u))
  }

  /** A failed commit is fenced: proved idle and masked, or loudly reported. */
  predicate Contained(m: Monitor) {
    || (m.view.last.Some? && !m.view.dirty && m.view.idle && AllMasked(m.view.last.value.launchers))
    || m.progress.alarm
  }
}
