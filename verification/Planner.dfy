/** The plan for a host: what to change, in which order, and when to refuse. */
module Planner {
  import opened Outcomes
  import opened HostState
  import Doctor
  import Mig

  datatype Reason =
    | NoPackageManager | PackageRecipe | MixedBaseline | MigScope | MigUnobservable | MigRollbackGeometry | Precondition
    | ResetScope | ResetUnobservable | ResetRollbackGeometry | PackagePolicy | PolicyStaging

  datatype Lock =
    | PinApt(package: string, conflicting: set<string>)
    | EnableStream(stream: string)
    | AddLock(upperBound: string)

  /** Which components a package transaction installs. */
  datatype Targets = Targets(driver: bool, toolkit: bool, dockerCe: bool, headers: bool, compiler: bool) {
    predicate Any() { driver || toolkit || dockerCe || headers || compiler }
  }

  datatype Action =
    | Unsupported(reason: Reason)
    | Snapshot | LockPolicy(lock: Lock) | InstallPackages(targets: Targets)
    | TeardownGeometry | PrepareModule
    | DisableMig | EnableMig | ConfigureGeometry | ReconcileMig
    | ServiceDocker(enable: bool, start: bool) | ConfigureRuntime(stopFirst: bool)
    | VerifyStack

  // ----- refusals

  /** No qualified package recipe leads from the audit to the desired state. */
  predicate RecipeError(d: Desired, a: Audit) {
    || d.cudaCompat
    || (OnDiskReady(d, a.modul.disk) && (!a.nvml || (a.modul.loaded && !a.smi && !ReloadRequired(a.modul))))
    || (a.modul.disk.version.Some? && !d.Matches(a.modul.disk.version))
    || (a.modul.disk.openModule.Some? && a.modul.disk.openModule != Some(d.openModule))
    || (match a.manager
        case Apt => !a.recipe.releaseKnown
        case Dnf => !a.recipe.releaseKnown || !a.recipe.x86Kernel || (a.recipe.rhel9 && !a.headers) || d.exact
        case Zypper => !a.recipe.releaseKnown || d.exact || !a.recipe.suseKernel
        case _ => true)
  }

  predicate ModeChange(d: Desired, a: Audit) {
    (a.mig.mode == Mig.Enabled || a.mig.mode == Mig.Disabled) && a.mig.mode != d.mig
  }

  predicate GeometryChange(d: Desired, a: Audit) {
    d.mig == Mig.Enabled && a.mig.mode == Mig.Enabled && !FullGeometry(a)
  }

  predicate MigChange(d: Desired, a: Audit) { ModeChange(d, a) || GeometryChange(d, a) }

  ghost predicate Unresolved(d: Desired, a: Audit) { exists f :: Doctor.Reported(f, d, a) && !Doctor.Remediable(f, a) }

  function HasKernelTargets(a: Audit): bool {
    match a.manager
    case Apt => true
    case Dnf | Yum => !a.recipe.rhel9
    case Zypper => a.recipe.suseKernel
    case _ => false
  }

  /** The components observed to be drifted. */
  function InstallTargets(d: Desired, a: Audit): Targets {
    Targets(!OnDiskReady(d, a.modul.disk), !a.docker.toolkit, !a.docker.installed,
            !a.headers && HasKernelTargets(a), !a.compiler)
  }

  /** The packages that the drifted components name. */
  function TargetPackages(d: Desired, a: Audit): set<Package> {
    var t := InstallTargets(d, a);
    (if t.driver then {DriverPackage} else {}) + (if t.toolkit then {ToolkitPackage} else {})
    + (if t.dockerCe then {DockerPackage} else {}) + (if t.headers then KernelPackages(a.manager) else {})
    + (if t.compiler then (if a.manager == Apt then {BuildEssential} else {Gcc, Make}) else {})
  }

  function KernelPackages(manager: Manager): set<Package> {
    match manager
    case Apt => {LinuxHeaders}
    case Zypper => {SuseKernelDevel}
    case _ => {KernelDevel, KernelHeaders}
  }

  predicate ResetRequired(d: Desired, a: Audit) {
    a.modul.loaded && (InstallTargets(d, a).driver || ReloadRequired(a.modul))
  }

  // ----- package policy

  function Pins(selectors: seq<Selector>): set<string> { set s | s in selectors && s.isPin :: s.name }

  predicate AptSelectorOk(s: Selector) {
    s.isPin ==> s.identifier == s.name && !s.isModule && s.relation.None? && s.version.None? && s.repositories == []
  }

  predicate DnfSelectorOk(s: Selector) {
    s.identifier == "nvidia-driver" && s.name == "nvidia-driver" && s.isModule && s.relation == Some("stream")
        && s.version.Some? && s.repositories == []
  }

  function ZypperLock(upperBound: string): Selector {
    Selector("", "*nvidia*", false, Some("ge"), Some(upperBound), [], false, true)
  }

  predicate SameLock(s: Selector, t: Selector) {
    s.name == t.name && s.isModule == t.isModule && s.relation == t.relation && s.version == t.version
        && s.repositories == t.repositories
  }

  function Relevant(selectors: seq<Selector>): seq<Selector> {
    if selectors == [] then [] else (if selectors[0].nvidia then [selectors[0]] else []) + Relevant(selectors[1..])
  }

  /** The actions that bring the package policy to the desired one. */
  function LockActions(d: Desired, a: Audit): seq<Action> {
    if RecipeError(d, a) then [Unsupported(PackageRecipe)]
    else if a.policy.backend != a.manager || !a.policy.observable then [Unsupported(PackagePolicy)]
    else
      match a.manager
      case Apt =>
        if exists s :: s in a.policy.selectors && !AptSelectorOk(s) then [Unsupported(PackagePolicy)]
        else
          var pins := Pins(a.policy.selectors);
          if pins == {d.pinningPackage} then [] else [LockPolicy(PinApt(d.pinningPackage, pins - {d.pinningPackage}))]
      case Dnf =>
        var selectors := a.policy.selectors;
        if selectors == [] then [LockPolicy(EnableStream(d.stream))]
        else if |selectors| > 1 || !DnfSelectorOk(selectors[0]) then [Unsupported(PackagePolicy)]
        else if selectors[0].version == Some(d.stream) then [] else [Unsupported(PackagePolicy)]
      case Zypper =>
        var relevant := Relevant(a.policy.selectors);
        if relevant == [] then [LockPolicy(AddLock(d.upperBound))]
        else if |relevant| == 1 && SameLock(relevant[0], ZypperLock(d.upperBound)) then []
        else [Unsupported(PackagePolicy)]
      case _ => []
  }

  function PolicyActions(d: Desired, a: Audit): seq<Action> { if d.pin then LockActions(d, a) else [] }

  predicate Refuses(actions: seq<Action>) { exists x :: x in actions && x.Unsupported? }

  // ----- the plan

  predicate GeometryLost(a: Audit) { !Mig.Restorable(a.mig.geometry, a.mig.gpuUuids) }

  predicate ResetsMig(d: Desired, a: Audit) { ResetRequired(d, a) && a.mig.mode == Mig.Enabled }

  /** What stands in the way, each reason by itself. */
  ghost predicate Obstacle(r: Reason, d: Desired, a: Audit) {
    match r
    case NoPackageManager => a.manager == NoManager
    case PackageRecipe => RecipeError(d, a)
    case MixedBaseline => a.mig.mode == Mig.Mixed
    case MigScope => MigChange(d, a) && |a.mig.gpuUuids| != 1
    case MigUnobservable => MigChange(d, a) && !a.mig.geometryComplete
    case MigRollbackGeometry => MigChange(d, a) && GeometryLost(a)
    case Precondition => Unresolved(d, a)
    case ResetScope => ResetsMig(d, a) && |a.mig.gpuUuids| != 1
    case ResetUnobservable => ResetsMig(d, a) && !a.mig.geometryComplete
    case ResetRollbackGeometry => ResetsMig(d, a) && GeometryLost(a)
    case PackagePolicy => Refuses(PolicyActions(d, a))
    case PolicyStaging => InstallTargets(d, a).driver && PolicyActions(d, a) != []
  }

  /** The order in which obstacles are looked for. */
  function Rank(r: Reason): nat {
    match r
    case NoPackageManager => 0
    case PackageRecipe => 1
    case MixedBaseline => 2
    case MigScope => 3
    case MigUnobservable => 4
    case MigRollbackGeometry => 5
    case Precondition => 6
    case ResetScope => 7
    case ResetUnobservable => 8
    case ResetRollbackGeometry => 9
    case PackagePolicy => 10
    case PolicyStaging => 11
  }

  /** The reason is the first obstacle, and there is none without a reason. */
  ghost predicate FirstObstacle(reason: Option<Reason>, d: Desired, a: Audit) {
    && (reason.Some? ==> Obstacle(reason.value, d, a))
    && forall r :: Obstacle(r, d, a) ==> reason.Some? && Rank(reason.value) <= Rank(r)
  }

  lemma RankIsInjective(p: Reason, q: Reason)
    ensures Rank(p) == Rank(q) ==> p == q
  {
  }

  /** Among obstacles there is a first one. */
  lemma {:induction false} LeastObstacle(d: Desired, a: Audit, r: Reason)
    requires Obstacle(r, d, a)
    ensures exists least :: FirstObstacle(Some(least), d, a)
    decreases Rank(r)
  {
    if q :| Obstacle(q, d, a) && Rank(q) < Rank(r) {
      LeastObstacle(d, a, q);
    } else {
      assert FirstObstacle(Some(r), d, a);
    }
  }

  /** Why the host cannot be converged safely, if so. */
  ghost function Refusal(d: Desired, a: Audit): (reason: Option<Reason>)
    ensures FirstObstacle(reason, d, a)
  {
    if exists r :: Obstacle(r, d, a) then
      var r :| Obstacle(r, d, a);
      LeastObstacle(d, a, r);
      var least :| FirstObstacle(Some(least), d, a);
      Some(least)
    else None
  }

  lemma NoObstacle(d: Desired, a: Audit, r: Reason)
    requires Refusal(d, a).None?
    ensures !Obstacle(r, d, a)
  {
  }

  lemma RefusalIsTheFirst(d: Desired, a: Audit, reason: Option<Reason>)
    requires FirstObstacle(reason, d, a)
    ensures reason == Refusal(d, a)
  {
    if reason.Some? && Refusal(d, a).Some? { RankIsInjective(reason.value, Refusal(d, a).value); }
  }

  function PackageSteps(d: Desired, a: Audit): seq<Action> {
    var targets := InstallTargets(d, a);
    if targets.Any() then [Snapshot] + PolicyActions(d, a) + [InstallPackages(targets)] else PolicyActions(d, a)
  }

  function ModuleSteps(d: Desired, a: Audit): seq<Action> {
    (if ResetsMig(d, a) && a.mig.geometry != [] then [TeardownGeometry] else [])
    + (if !a.modul.loaded || ResetRequired(d, a) then [PrepareModule] else [])
  }

  function MigSteps(d: Desired, a: Audit): seq<Action> {
    if ResetRequired(d, a) then [ReconcileMig]
    else if d.mig == Mig.Disabled && a.mig.mode == Mig.Enabled then [DisableMig]
    else if d.mig == Mig.Enabled && a.mig.mode == Mig.Disabled then [EnableMig]
    else if GeometryChange(d, a) then [ConfigureGeometry]
    else []
  }

  /** What to do about the Docker service before, or instead of, configuring its runtime. */
  function DockerServiceAction(a: Audit, deferStart: bool): seq<Action> {
    var enable, start := a.docker.enabled == Some(false), !deferStart && a.docker.active == Some(false);
    if enable || start then [ServiceDocker(enable, start)] else []
  }

  function DockerSteps(d: Desired, a: Audit): seq<Action> {
    var configure := a.docker.gpusUsable != Some(true);
    if !d.docker then []
    else DockerServiceAction(a, configure) + if configure then [ConfigureRuntime(a.docker.active == Some(true))] else []
  }

  /** The plan: a refusal, or the steps of each component and the final verification. */
  ghost function BuildPlan(d: Desired, a: Audit): seq<Action> {
    match Refusal(d, a)
    case Some(PackagePolicy) => PolicyActions(d, a)
    case Some(reason) => [Unsupported(reason)]
    case None => PackageSteps(d, a) + ModuleSteps(d, a) + MigSteps(d, a) + DockerSteps(d, a) + [VerifyStack]
  }

  /** Nothing stands in the way that would be found before a rank. */
  ghost predicate NothingBefore(rank: nat, d: Desired, a: Audit) {
    forall r :: Rank(r) < rank ==> !Obstacle(r, d, a)
  }

  /** Look for an obstacle, in order. */
  method FirstRefusal(d: Desired, a: Audit, findings: seq<Doctor.Finding>) returns (reason: Option<Reason>)
    requires findings == Doctor.Diagnose(d, a)
    ensures FirstObstacle(reason, d, a)
  {
    if a.manager == NoManager { return Some(NoPackageManager); }
    if RecipeError(d, a) { return Some(PackageRecipe); }
    if a.mig.mode == Mig.Mixed { return Some(MixedBaseline); }
    reason := FirstMigRefusal(d, a, findings);
  }

  /** The same from the change of MIG on. */
  method FirstMigRefusal(d: Desired, a: Audit, findings: seq<Doctor.Finding>) returns (reason: Option<Reason>)
    requires findings == Doctor.Diagnose(d, a) && NothingBefore(Rank(MigScope), d, a)
    ensures FirstObstacle(reason, d, a)
  {
    if MigChange(d, a) {
      if |a.mig.gpuUuids| != 1 { return Some(MigScope); }
      if !a.mig.geometryComplete { return Some(MigUnobservable); }
      if GeometryLost(a) { return Some(MigRollbackGeometry); }
    }
    UnresolvedIsFound(d, a);
    if exists i :: 0 <= i < |findings| && findings[i] != Doctor.StackHealthy && !Doctor.Remediable(findings[i], a) {
      return Some(Precondition);
    }
    reason := FirstResetRefusal(d, a);
  }

  /** The same from the reset of the module on. */
  method FirstResetRefusal(d: Desired, a: Audit) returns (reason: Option<Reason>)
    requires NothingBefore(Rank(ResetScope), d, a)
    ensures FirstObstacle(reason, d, a)
  {
    if ResetsMig(d, a) {
      if |a.mig.gpuUuids| != 1 { return Some(ResetScope); }
      if !a.mig.geometryComplete { return Some(ResetUnobservable); }
      if GeometryLost(a) { return Some(ResetRollbackGeometry); }
    }
    if Refuses(PolicyActions(d, a)) { return Some(PackagePolicy); }
    if InstallTargets(d, a).driver && PolicyActions(d, a) != [] { return Some(PolicyStaging); }
    return None;
  }

  /** Plan from a diagnosis. */
  method MakePlan(d: Desired, a: Audit, findings: seq<Doctor.Finding>) returns (actions: seq<Action>)
    requires findings == Doctor.Diagnose(d, a)
    ensures actions == BuildPlan(d, a)
    ensures Refuses(actions) <==> exists r :: Obstacle(r, d, a)
    ensures !Refuses(actions) ==> Staged(actions) && Fits(actions, d, a)
  {
    var refusal := FirstRefusal(d, a, findings);
    RefusalIsTheFirst(d, a, refusal);
    RefusalShows(d, a);
    if refusal.None? { PlanIsStaged(d, a); PlanFits(d, a); }
    if refusal == Some(PackagePolicy) { return PolicyActions(d, a); }
    if refusal.Some? { return [Unsupported(refusal.value)]; }
    actions := PackageSteps(d, a);
    actions := actions + ModuleSteps(d, a);
    actions := actions + MigSteps(d, a);
    actions := actions + DockerSteps(d, a);
    actions := actions + [VerifyStack];
  }

  // ----- what a plan is

  function Stage(x: Action): nat {
    match x
    case Unsupported(_) => 0
    case Snapshot => 1
    case LockPolicy(_) => 2
    case InstallPackages(_) => 3
    case TeardownGeometry => 4
    case PrepareModule => 5
    case DisableMig | EnableMig | ConfigureGeometry | ReconcileMig => 6
    case ServiceDocker(_, _) => 7
    case ConfigureRuntime(_) => 8
    case VerifyStack => 9
  }

  predicate Increasing(actions: seq<Action>, from: nat, to: nat) {
    && (forall i :: 0 <= i < |actions| ==> from <= Stage(actions[i]) < to)
    && forall i, j :: 0 <= i < j < |actions| ==> Stage(actions[i]) < Stage(actions[j])
  }

  /** Each kind of action at most once, in the order of the stages, and the verification last. */
  ghost predicate Staged(actions: seq<Action>) {
    Increasing(actions, 1, 10) && actions != [] && actions[|actions| - 1] == VerifyStack
  }

  /** When the audit calls for an action. */
  predicate CalledFor(x: Action, d: Desired, a: Audit) {
    match x
    case Unsupported(_) => false
    case Snapshot => InstallTargets(d, a).Any()
    case LockPolicy(_) => x in PolicyActions(d, a)
    case InstallPackages(t) => t == InstallTargets(d, a) && t.Any()
    case TeardownGeometry => ResetsMig(d, a) && a.mig.geometry != []
    case PrepareModule => !a.modul.loaded || ResetRequired(d, a)
    case DisableMig => !ResetRequired(d, a) && d.mig == Mig.Disabled && a.mig.mode == Mig.Enabled
    case EnableMig => !ResetRequired(d, a) && d.mig == Mig.Enabled && a.mig.mode == Mig.Disabled
    case ConfigureGeometry => !ResetRequired(d, a) && GeometryChange(d, a)
    case ReconcileMig => ResetRequired(d, a)
    case ServiceDocker(enable, start) =>
      && d.docker && (enable || start) && enable == (a.docker.enabled == Some(false))
      && start == (a.docker.active == Some(false) && a.docker.gpusUsable == Some(true))
    case ConfigureRuntime(stopFirst) =>
      d.docker && a.docker.gpusUsable != Some(true) && stopFirst == (a.docker.active == Some(true))
    case VerifyStack => true
  }

  /** The plan has exactly the actions that are called for. */
  ghost predicate Fits(actions: seq<Action>, d: Desired, a: Audit) {
    forall x :: x in actions <==> CalledFor(x, d, a)
  }

  lemma IncreasingConcat(p: seq<Action>, q: seq<Action>, from: nat, mid: nat, to: nat)
    requires Increasing(p, from, mid) && Increasing(q, mid, to) && from <= mid <= to
    ensures Increasing(p + q, from, to)
  {
  }

  lemma PolicyIsOneLock(d: Desired, a: Audit)
    requires !Refuses(PolicyActions(d, a)) && PolicyActions(d, a) != []
    ensures exists lock :: PolicyActions(d, a) == [LockPolicy(lock)] == LockActions(d, a)
  {
    var first := PolicyActions(d, a)[0];
    assert first in PolicyActions(d, a);
    assert PolicyActions(d, a) == [first];
  }

  lemma PackagesAreStaged(d: Desired, a: Audit)
    requires !Refuses(PolicyActions(d, a))
    ensures Increasing(PackageSteps(d, a), 1, 4)
  {
    var policy, targets := PolicyActions(d, a), InstallTargets(d, a);
    if policy != [] { PolicyIsOneLock(d, a); }
    assert Increasing(policy, 2, 3);
    IncreasingConcat([Snapshot], policy, 1, 2, 3);
    IncreasingConcat([Snapshot] + policy, [InstallPackages(targets)], 1, 3, 4);
  }

  lemma ModuleIsStaged(d: Desired, a: Audit)
    ensures Increasing(ModuleSteps(d, a), 4, 6)
  {
    var teardown := if ResetsMig(d, a) && a.mig.geometry != [] then [TeardownGeometry] else [];
    var prepare := if !a.modul.loaded || ResetRequired(d, a) then [PrepareModule] else [];
    IncreasingConcat(teardown, prepare, 4, 5, 6);
  }

  lemma DockerIsStaged(d: Desired, a: Audit)
    ensures Increasing(DockerSteps(d, a), 7, 9)
  {
    var configure := a.docker.gpusUsable != Some(true);
    var runtime := if configure then [ConfigureRuntime(a.docker.active == Some(true))] else [];
    IncreasingConcat(DockerServiceAction(a, configure), runtime, 7, 8, 9);
  }

  lemma ConcatIsStaged(p1: seq<Action>, p2: seq<Action>, p3: seq<Action>, p4: seq<Action>)
    requires Increasing(p1, 1, 4) && Increasing(p2, 4, 6) && Increasing(p3, 6, 7) && Increasing(p4, 7, 9)
    ensures Staged(p1 + p2 + p3 + p4 + [VerifyStack])
  {
    IncreasingConcat(p1, p2, 1, 4, 6);
    IncreasingConcat(p1 + p2, p3, 1, 6, 7);
    IncreasingConcat(p1 + p2 + p3, p4, 1, 7, 9);
    IncreasingConcat(p1 + p2 + p3 + p4, [VerifyStack], 1, 9, 10);
  }

  lemma PlanIsStaged(d: Desired, a: Audit)
    requires Refusal(d, a).None?
    ensures Staged(BuildPlan(d, a))
  {
    NoObstacle(d, a, PackagePolicy);
    PackagesAreStaged(d, a);
    ModuleIsStaged(d, a);
    assert Increasing(MigSteps(d, a), 6, 7);
    DockerIsStaged(d, a);
    ConcatIsStaged(PackageSteps(d, a), ModuleSteps(d, a), MigSteps(d, a), DockerSteps(d, a));
  }

  lemma PackageStepsFit(d: Desired, a: Audit, x: Action)
    requires !Refuses(PolicyActions(d, a))
    ensures x in PackageSteps(d, a) <==> CalledFor(x, d, a) && Stage(x) < 4
  {
    if PolicyActions(d, a) != [] { PolicyIsOneLock(d, a); }
  }

  lemma LaterStepsFit(d: Desired, a: Audit, x: Action)
    ensures x in ModuleSteps(d, a) <==> CalledFor(x, d, a) && 4 <= Stage(x) < 6
    ensures x in MigSteps(d, a) <==> CalledFor(x, d, a) && Stage(x) == 6
    ensures x in DockerSteps(d, a) <==> CalledFor(x, d, a) && 7 <= Stage(x) < 9
  {
  }

  lemma PlanFits(d: Desired, a: Audit)
    requires Refusal(d, a).None?
    ensures Fits(BuildPlan(d, a), d, a)
  {
    var p1, p2, p3, p4 := PackageSteps(d, a), ModuleSteps(d, a), MigSteps(d, a), DockerSteps(d, a);
    NoObstacle(d, a, PackagePolicy);
    forall x
      ensures x in BuildPlan(d, a) <==> CalledFor(x, d, a)
    {
      PackageStepsFit(d, a, x);
      LaterStepsFit(d, a, x);
      assert x in p1 + p2 + p3 + p4 + [VerifyStack] <==> x in p1 || x in p2 || x in p3 || x in p4 || x == VerifyStack;
    }
  }

  lemma StepsAreSupported(d: Desired, a: Audit)
    requires !Refuses(PolicyActions(d, a))
    ensures !Refuses(PackageSteps(d, a)) && !Refuses(ModuleSteps(d, a)) && !Refuses(MigSteps(d, a))
            && !Refuses(DockerSteps(d, a))
  {
  }

  /** A refusal, and nothing else, puts an unsupported action into the plan. */
  lemma RefusalShows(d: Desired, a: Audit)
    ensures Refuses(BuildPlan(d, a)) <==> Refusal(d, a).Some?
  {
    if Refusal(d, a).None? {
      NoObstacle(d, a, PackagePolicy);
      StepsAreSupported(d, a);
      assert !Refuses([VerifyStack]);
    } else if Refusal(d, a) == Some(PackagePolicy) {
      assert Refuses(PolicyActions(d, a));
    } else {
      assert BuildPlan(d, a)[0] in BuildPlan(d, a);
    }
  }

  lemma UnresolvedIsFound(d: Desired, a: Audit)
    ensures Unresolved(d, a)
       <==> exists f :: f in Doctor.Diagnose(d, a) && f != Doctor.StackHealthy && !Doctor.Remediable(f, a)
  {
    if Unresolved(d, a) {
      var f :| Doctor.Reported(f, d, a) && !Doctor.Remediable(f, a);
      Doctor.DiagnosisIsExact(d, a, f);
    }
    if f :| f in Doctor.Diagnose(d, a) && f != Doctor.StackHealthy && !Doctor.Remediable(f, a) {
      Doctor.DiagnosisIsExact(d, a, f);
    }
  }
}
