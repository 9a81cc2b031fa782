/** One pass of planning and execution on an obedient host, and what the next plan then says. */
module FixedPoint {
  import opened Outcomes
  import opened HostState
  import opened Planner
  import Doctor
  import Mig

  // ----- an obedient host

  function PinSelector(package: string): Selector { Selector(package, package, false, None, None, [], true, true) }

  function StreamSelector(stream: string): Selector {
    Selector("nvidia-driver", "nvidia-driver", true, Some("stream"), Some(stream), [], false, true)
  }

  function Unpinned(selectors: seq<Selector>, names: set<string>): seq<Selector> {
    if selectors == [] then []
    else
      var first := if selectors[0].isPin && selectors[0].name in names then [] else [selectors[0]];
      first + Unpinned(selectors[1..], names)
  }

  /** The selectors that are observed once a policy command has done what it says. */
  function Locked(lock: Lock, selectors: seq<Selector>): seq<Selector> {
    match lock
    case PinApt(package, conflicting) =>
        Unpinned(selectors, conflicting) + (if package in Pins(selectors) then [] else [PinSelector(package)])
    case EnableStream(stream) => selectors + [StreamSelector(stream)]
    case AddLock(upperBound) => selectors + [ZypperLock(upperBound)]
  }

  /** The GPU behind an audit; mode changes take effect at once. */
  function GpuOf(m: Mig.MigAudit): Mig.Gpu
    requires |m.gpuUuids| == 1
  {
    Mig.Gpu(m.gpuUuids[0], m.mode, m.pending, m.geometry, false)
  }

  /** MIG is planned from a fresh audit and carried out. */
  function MigReconciled(d: Desired, a: Audit): Audit
    requires Mig.Settled(d.mig)
  {
    if |a.mig.gpuUuids| != 1 then a
    else
      var g := Mig.Round(d.mig, GpuOf(a.mig)).1;
      a.(mig := a.mig.(mode := g.current, pending := g.pending, geometry := g.geometry),
         migDevices := if Mig.ReconciliationActions(d.mig, a.mig) == [] then a.migDevices else |g.geometry|)
  }

  /** What an action leaves. `delivered` is the module on disk after a package transaction that names the driver;
      resetting a loaded module destroys MIG instances. */
  function Step(x: Action, d: Desired, a: Audit, delivered: Metadata): Audit
    requires Mig.Settled(d.mig)
  {
    match x
    case LockPolicy(lock) => a.(policy := a.policy.(selectors := Locked(lock, a.policy.selectors)))
    case InstallPackages(t) => Installed(d, t, a, delivered)
    case TeardownGeometry => a.(mig := a.mig.(geometry := []), migDevices := 0)
    case PrepareModule => Prepared(a)
    case DisableMig | EnableMig | ConfigureGeometry | ReconcileMig => MigReconciled(d, a)
    case ServiceDocker(enable, start) =>
      a.(docker := a.docker.(enabled := if enable then Some(true) else a.docker.enabled,
                             active := if start then Some(true) else a.docker.active))
    case ConfigureRuntime(_) => a.(docker := a.docker.(active := Some(true), gpusUsable := Some(true)))
    case _ => a
  }

  function Installed(d: Desired, t: Targets, a: Audit, delivered: Metadata): Audit {
    a.(upToDate := a.upToDate + TargetPackages(d, a),
       modul := if t.driver then a.modul.(disk := delivered) else a.modul, nvml := a.nvml || t.driver,
       headers := a.headers || t.headers, compiler := a.compiler || t.compiler,
       docker := a.docker.(installed := a.docker.installed || t.dockerCe, toolkit := a.docker.toolkit || t.toolkit))
  }

  function Prepared(a: Audit): Audit {
    a.(modul := Module(true, a.modul.disk, a.modul.disk), smi := a.nvml,
       mig := if a.modul.loaded then a.mig.(geometry := []) else a.mig,
       migDevices := if a.modul.loaded then 0 else a.migDevices)
  }

  function Execute(plan: seq<Action>, d: Desired, a: Audit, delivered: Metadata): Audit
    requires Mig.Settled(d.mig)
  {
    if plan == [] then a else Execute(plan[1..], d, Step(plan[0], d, a, delivered), delivered)
  }

  lemma {:induction false} ExecuteAppend(p: seq<Action>, q: seq<Action>, d: Desired, a: Audit, delivered: Metadata)
    requires Mig.Settled(d.mig)
    ensures Execute(p + q, d, a, delivered) == Execute(q, d, Execute(p, d, a, delivered), delivered)
    decreases |p|
  {
    if p == [] {
      assert p + q == q;
    } else {
      assert (p + q)[1..] == p[1..] + q;
      ExecuteAppend(p[1..], q, d, Step(p[0], d, a, delivered), delivered);
    }
  }

  lemma ExecuteOne(x: Action, d: Desired, a: Audit, delivered: Metadata)
    requires Mig.Settled(d.mig)
    ensures Execute([x], d, a, delivered) == Step(x, d, a, delivered)
  {
  }

  // ----- the package policy settles

  lemma {:induction false} UnpinnedPins(selectors: seq<Selector>, names: set<string>)
    ensures Pins(Unpinned(selectors, names)) == Pins(selectors) - names
    ensures forall s :: s in Unpinned(selectors, names) ==> s in selectors
  {
    if selectors != [] {
      UnpinnedPins(selectors[1..], names);
      var rest, s := Unpinned(selectors[1..], names), selectors[0];
      assert selectors == [s] + selectors[1..];
      PinsOfCons(s, selectors[1..]);
      PinsOfCons(s, rest);
      assert Unpinned(selectors, names) == if s.isPin && s.name in names then rest else [s] + rest;
    }
  }

  lemma PinsOfCons(s: Selector, rest: seq<Selector>)
    ensures Pins([s] + rest) == Pins(rest) + if s.isPin then {s.name} else {}
  {
  }

  lemma {:induction false} RelevantAppend(selectors: seq<Selector>, s: Selector)
    ensures Relevant(selectors + [s]) == Relevant(selectors) + if s.nvidia then [s] else []
  {
    if selectors == [] {
      assert selectors + [s] == [s] && [s][1..] == [];
    } else {
      assert (selectors + [s])[0] == selectors[0] && (selectors + [s])[1..] == selectors[1..] + [s];
      RelevantAppend(selectors[1..], s);
      var head := if selectors[0].nvidia then [selectors[0]] else [];
      var tail := if s.nvidia then [s] else [];
      assert head + (Relevant(selectors[1..]) + tail) == (head + Relevant(selectors[1..])) + tail;
    }
  }

  /** After its one action, the policy needs no action. */
  lemma PolicySettles(d: Desired, a: Audit, lock: Lock, after: Audit)
    requires LockActions(d, a) == [LockPolicy(lock)] && !RecipeError(d, after)
    requires after.manager == a.manager && after.policy == a.policy.(selectors := Locked(lock, a.policy.selectors))
    ensures LockActions(d, after) == []
  {
    var selectors := a.policy.selectors;
    match a.manager
    case Apt =>
      var kept := Unpinned(selectors, lock.conflicting);
      UnpinnedPins(selectors, lock.conflicting);
      var observed := after.policy.selectors;
      assert forall s :: s in observed ==> s in selectors || s == PinSelector(d.pinningPackage);
      if d.pinningPackage in Pins(selectors) {
        assert observed == kept;
      } else {
        PinsOfSnoc(kept, PinSelector(d.pinningPackage));
      }
      assert Pins(observed) == {d.pinningPackage};
    case Dnf =>
    case Zypper => RelevantAppend(selectors, ZypperLock(d.upperBound));
    case _ =>
  }

  lemma PinsOfSnoc(selectors: seq<Selector>, s: Selector)
    requires s.isPin
    ensures Pins(selectors + [s]) == Pins(selectors) + {s.name}
  {
  }

  // ----- a host at the desired state

  predicate PlatformGood(d: Desired, a: Audit) {
    && a.manager != NoManager && a.mig.packageInventoryComplete && a.headers && a.compiler
    && a.secureBoot.Some? && (!d.signedBoot ==> a.secureBoot == Some(false))
         && (d.openModule ==> a.openSupported == Some(true))
  }

  predicate DriverGood(d: Desired, a: Audit) {
    && a.modul.loaded && OnDiskReady(d, a.modul.disk)
    && a.modul.live.version == a.modul.disk.version && a.modul.live.openModule == a.modul.disk.openModule
    && (a.modul.disk.signed.Some? ==> a.modul.live.signed == a.modul.disk.signed)
    && a.smi && a.nvml && !d.cudaCompat
  }

  predicate DockerGood(d: Desired, a: Audit) {
    a.docker.installed && a.docker.toolkit
        && (d.docker ==> a.docker.active == a.docker.enabled == a.docker.gpusUsable == Some(true))
  }

  predicate FabricGood(d: Desired, a: Audit) {
    d.fabric ==> && a.fabric.applicable == a.fabric.active == a.fabric.enabled == a.fabric.healthy == Some(true)
                 && a.fabric.installed && d.Matches(a.fabric.version)
  }

  predicate FabricBound(d: Desired, a: Audit) { d.fabric ==> a.fabric.version == a.modul.live.version }

  predicate MigGood(d: Desired, a: Audit) {
    && Doctor.AtMode(d, a) && a.mig.geometryComplete
    && (d.mig == Mig.Enabled ==> a.migCapable == Some(true) && FullGeometry(a) && a.migDevices == 1)
    && (d.mig == Mig.Disabled ==> a.mig.geometry == [] && a.migDevices == 0)
  }

  predicate Good(d: Desired, a: Audit) {
    PlatformGood(d, a) && DriverGood(d, a) && DockerGood(d, a) && FabricGood(d, a) && FabricBound(d, a) && MigGood(d, a)
  }

  lemma GoodIsClean(d: Desired, a: Audit)
    requires Mig.Settled(d.mig) && Good(d, a)
    ensures Doctor.Clean(d, a)
  {
  }

  /** At the desired state, with a qualified recipe and nothing to do about the policy, only the verification is
      planned. */
  lemma GoodNeedsNoPlan(d: Desired, a: Audit)
    requires Mig.Settled(d.mig) && Good(d, a) && !RecipeError(d, a) && PolicyActions(d, a) == []
    ensures BuildPlan(d, a) == [VerifyStack]
  {
    GoodIsClean(d, a);
    assert Refusal(d, a).None?;
    assert PackageSteps(d, a) == [] && ModuleSteps(d, a) == [] && MigSteps(d, a) == [] && DockerSteps(d, a) == [];
  }

  /** Where the planner asks for more than the doctor: it wants Docker's packages in any case, and reloads a
      module whose signature is not that of the one on disk even where none is desired. */
  predicate PlannerAgrees(a: Audit) {
    a.docker.installed && a.docker.toolkit && (a.modul.disk.signed.Some? ==> a.modul.live.signed == a.modul.disk.signed)
  }

  lemma CleanIsGood(d: Desired, a: Audit)
    requires Mig.Settled(d.mig) && Doctor.Clean(d, a) && !RecipeError(d, a) && PlannerAgrees(a)
    ensures Good(d, a)
  {
    CleanPlatformIsGood(d, a);
    CleanVersionsAreKnown(d, a);
    CleanFlavorIsDesired(d, a);
    CleanMigIsGood(d, a);
    if d.docker { CleanDockerRuns(d, a); }
    CleanFabricIsGood(d, a);
  }

  lemma CleanIsResolved(d: Desired, a: Audit, f: Doctor.Finding)
    requires Doctor.Clean(d, a)
    ensures !Unresolved(d, a) && !Doctor.Reported(f, d, a)
  {
  }

  lemma CleanPlatformIsGood(d: Desired, a: Audit)
    requires Doctor.Clean(d, a)
    ensures PlatformGood(d, a)
  {
    CleanIsResolved(d, a, Doctor.PackageManagerMissing);
    CleanIsResolved(d, a, Doctor.HeadersMissing);
    CleanIsResolved(d, a, Doctor.CompilerMissing);
    ResolvedPlatform(d, a);
  }

  lemma CleanVersionsAreKnown(d: Desired, a: Audit)
    requires Doctor.Clean(d, a)
    ensures a.modul.loaded && a.smi && a.nvml
    ensures a.modul.live.version.Some? && a.modul.disk.version == a.modul.live.version
  {
    CleanIsResolved(d, a, Doctor.ModuleNotLoaded);
    CleanIsResolved(d, a, Doctor.LoadedVersionUnknown);
    CleanIsResolved(d, a, Doctor.InstalledVersionUnknown);
    CleanIsResolved(d, a, Doctor.ModuleVersionMismatch);
    CleanIsResolved(d, a, Doctor.SmiFailed);
    CleanIsResolved(d, a, Doctor.NvmlFailed);
  }

  lemma CleanFlavorIsDesired(d: Desired, a: Audit)
    requires Doctor.Clean(d, a)
    ensures a.modul.disk.openModule == Some(d.openModule) && (d.signedBoot ==> a.modul.disk.signed == Some(true))
    ensures a.modul.loaded ==> a.modul.live.openModule == a.modul.disk.openModule
  {
    KnownIsTrueOrFalse(a.modul.disk.openModule);
    CleanIsResolved(d, a, Doctor.ModuleFlavorUnknown);
    CleanIsResolved(d, a, Doctor.ModuleFlavorMismatch);
    CleanIsResolved(d, a, Doctor.InstalledClosedModule);
    CleanIsResolved(d, a, Doctor.InstalledOpenModule);
    CleanIsResolved(d, a, Doctor.InstalledFlavorUnknown);
    CleanIsResolved(d, a, Doctor.InstalledModuleUnsigned);
  }

  lemma CleanIsAtMode(d: Desired, a: Audit)
    requires Mig.Settled(d.mig) && Doctor.Clean(d, a)
    ensures Doctor.AtMode(d, a) && (d.mig == Mig.Enabled ==> a.migCapable == Some(true))
  {
    CleanIsResolved(d, a, Doctor.MigMixed);
    CleanIsResolved(d, a, Doctor.MigEnabled);
    CleanIsResolved(d, a, Doctor.MigDisabled);
    ResolvedMigMode(d, a);
  }

  lemma CleanGeometryIsFull(d: Desired, a: Audit)
    requires d.mig == Mig.Enabled && Doctor.Clean(d, a) && Doctor.AtMode(d, a) && a.mig.geometryComplete
    ensures FullGeometry(a)
  {
    CleanIsResolved(d, a, Doctor.GeometryMissing);
    CleanIsResolved(d, a, Doctor.GeometryMismatch);
  }

  lemma CleanMigIsGood(d: Desired, a: Audit)
    requires Mig.Settled(d.mig) && Doctor.Clean(d, a)
    ensures MigGood(d, a)
  {
    CleanIsResolved(d, a, Doctor.MigMixed);
    CleanIsAtMode(d, a);
    ResolvedMigGeometry(d, a);
    if d.mig == Mig.Enabled { CleanGeometryIsFull(d, a); }
  }

  lemma CleanDockerRuns(d: Desired, a: Audit)
    requires Doctor.Clean(d, a) && a.docker.installed && d.docker
    ensures a.docker.active == a.docker.enabled == a.docker.gpusUsable == Some(true)
  {
    KnownIsTrueOrFalse(a.docker.active);
    KnownIsTrueOrFalse(a.docker.enabled);
    KnownIsTrueOrFalse(a.docker.gpusUsable);
    CleanIsResolved(d, a, Doctor.DockerInactive);
    CleanIsResolved(d, a, Doctor.DockerDisabled);
    CleanIsResolved(d, a, Doctor.NvidiaRuntimeMissing);
    CleanIsResolved(d, a, Doctor.DockerRuntimeUnknown);
    ResolvedPlatform(d, a);
  }

  lemma CleanFabricIsGood(d: Desired, a: Audit)
    requires Doctor.Clean(d, a) && a.modul.live.version.Some?
    ensures FabricGood(d, a) && FabricBound(d, a)
  {
    CleanIsResolved(d, a, Doctor.FabricVersionMismatch);
    ResolvedFabric(d, a);
  }

  /** So a host with a clean diagnosis is left alone exactly if the recipe and the policy allow it and both agree. */
  lemma CleanIsLeftAloneIff(d: Desired, a: Audit)
    requires Mig.Settled(d.mig) && Doctor.Clean(d, a)
    ensures BuildPlan(d, a) == [VerifyStack] <==> !RecipeError(d, a) && PolicyActions(d, a) == [] && PlannerAgrees(a)
  {
    if !RecipeError(d, a) && PolicyActions(d, a) == [] && PlannerAgrees(a) {
      CleanIsGood(d, a);
      GoodNeedsNoPlan(d, a);
    }
    if BuildPlan(d, a) == [VerifyStack] {
      LeftAloneMeans(d, a);
      CleanIsResolved(d, a, Doctor.ModuleNotLoaded);
    }
  }

  /** If only the verification is planned, the policy is settled, nothing is to be installed or reloaded. */
  lemma LeftAloneMeans(d: Desired, a: Audit)
    requires BuildPlan(d, a) == [VerifyStack]
    ensures !RecipeError(d, a) && PolicyActions(d, a) == [] && !InstallTargets(d, a).Any() && !ResetRequired(d, a)
  {
    RefusalShows(d, a);
    PlanFits(d, a);
    UnrefusedMeans(d, a);
    assert forall x :: CalledFor(x, d, a) ==> x == VerifyStack;
    assert !CalledFor(InstallPackages(InstallTargets(d, a)), d, a) && !CalledFor(ReconcileMig, d, a);
    if PolicyActions(d, a) != [] { PolicyIsOneLock(d, a); }
  }

  /** A clean host whose module is reloaded: it was loaded before the one on disk was signed. */
  lemma CleanHostIsReloaded()
    ensures var d, signed := PlainDesired(false), Metadata(Some("1"), Some(true), Some(true));
            var a := PlainHost(Apt, true, signed, {}).(modul := Module(true, signed.(signed := Some(false)), signed));
            Doctor.Clean(d, a) && ResetRequired(d, a) && BuildPlan(d, a) != [VerifyStack]
  {
  }

  // ----- what an unrefused audit promises

  lemma NothingUnremediable(d: Desired, a: Audit, f: Doctor.Finding)
    requires !Unresolved(d, a) && !Doctor.Remediable(f, a)
    ensures !Doctor.Reported(f, d, a)
  {
  }

  lemma KnownIsTrueOrFalse(x: Option<bool>)
    ensures x.None? || x == Some(true) || x == Some(false)
  {
    if x.Some? && x != Some(true) { assert x.value == false; }
  }

  lemma ResolvedPlatform(d: Desired, a: Audit)
    requires !Unresolved(d, a)
    ensures a.mig.packageInventoryComplete && a.secureBoot.Some?
    ensures (!d.signedBoot ==> a.secureBoot == Some(false)) && (d.openModule ==> a.openSupported == Some(true))
    ensures d.docker ==> a.docker.active.Some? && a.docker.enabled.Some?
  {
    KnownIsTrueOrFalse(a.secureBoot);
    KnownIsTrueOrFalse(a.openSupported);
    NothingUnremediable(d, a, Doctor.InventoryIncomplete);
    NothingUnremediable(d, a, Doctor.SecureBootUnknown);
    NothingUnremediable(d, a, Doctor.SecureBootEnabled);
    NothingUnremediable(d, a, Doctor.OpenModuleUnsupported);
    NothingUnremediable(d, a, Doctor.OpenModuleSupportUnknown);
    NothingUnremediable(d, a, Doctor.DockerActivityUnknown);
    NothingUnremediable(d, a, Doctor.DockerEnablementUnknown);
  }

  lemma ResolvedFabricService(d: Desired, a: Audit)
    requires !Unresolved(d, a) && d.fabric
    ensures a.fabric.active == a.fabric.enabled == Some(true) && a.fabric.installed
  {
    KnownIsTrueOrFalse(a.fabric.active);
    KnownIsTrueOrFalse(a.fabric.enabled);
    NothingUnremediable(d, a, Doctor.FabricMissing);
    NothingUnremediable(d, a, Doctor.FabricInactive);
    NothingUnremediable(d, a, Doctor.FabricUnknown);
    NothingUnremediable(d, a, Doctor.FabricDisabled);
    NothingUnremediable(d, a, Doctor.FabricEnablementUnknown);
  }

  lemma ResolvedFabric(d: Desired, a: Audit)
    requires !Unresolved(d, a)
    ensures FabricGood(d, a)
  {
    KnownIsTrueOrFalse(a.fabric.applicable);
    KnownIsTrueOrFalse(a.fabric.healthy);
    NothingUnremediable(d, a, Doctor.FabricNotApplicable);
    NothingUnremediable(d, a, Doctor.FabricApplicabilityUnknown);
    NothingUnremediable(d, a, Doctor.FabricUnhealthy);
    NothingUnremediable(d, a, Doctor.FabricHealthUnknown);
    NothingUnremediable(d, a, Doctor.FabricVersionUnknown);
    NothingUnremediable(d, a, Doctor.FabricVersionMismatch);
    if d.fabric { ResolvedFabricService(d, a); }
  }

  lemma ResolvedMigMode(d: Desired, a: Audit)
    requires Mig.Settled(d.mig) && !Unresolved(d, a) && a.mig.mode != Mig.Mixed
    ensures Mig.Settled(a.mig.mode) && a.mig.pending == a.mig.mode
    ensures d.mig == Mig.Enabled ==> a.migCapable == Some(true)
  {
    KnownIsTrueOrFalse(a.migCapable);
    NothingUnremediable(d, a, Doctor.MigUnsupported);
    NothingUnremediable(d, a, Doctor.MigCapabilityUnknown);
    NothingUnremediable(d, a, Doctor.MigPendingUnknown);
    NothingUnremediable(d, a, Doctor.MigPendingReboot);
    NothingUnremediable(d, a, Doctor.MigUnknown);
  }

  lemma ResolvedMigGeometry(d: Desired, a: Audit)
    requires !Unresolved(d, a) && Doctor.AtMode(d, a)
    ensures a.mig.geometryComplete
    ensures d.mig == Mig.Enabled && FullGeometry(a) ==> a.migDevices == 1
    ensures d.mig == Mig.Disabled ==> a.mig.geometry == [] && a.migDevices == 0
  {
    NothingUnremediable(d, a, Doctor.GeometryUnobservable);
    NothingUnremediable(d, a, Doctor.DeviceUnobservable);
    NothingUnremediable(d, a, Doctor.DisabledWithInstances);
  }

  /** What it means that the planner did not refuse, before any finding is looked at. */
  lemma UnrefusedMeans(d: Desired, a: Audit)
    requires Refusal(d, a).None?
    ensures a.manager != NoManager && !RecipeError(d, a) && a.mig.mode != Mig.Mixed && !Unresolved(d, a)
    ensures MigChange(d, a) ==> a.mig.geometryComplete
    ensures MigChange(d, a) || (ResetRequired(d, a) && a.mig.mode == Mig.Enabled) ==>
              |a.mig.gpuUuids| == 1 && Mig.Restorable(a.mig.geometry, a.mig.gpuUuids)
    ensures !Refuses(PolicyActions(d, a)) && (InstallTargets(d, a).driver ==> PolicyActions(d, a) == [])
  {
    NoObstacle(d, a, NoPackageManager);
    NoObstacle(d, a, PackageRecipe);
    NoObstacle(d, a, MixedBaseline);
    NoObstacle(d, a, MigScope);
    NoObstacle(d, a, MigUnobservable);
    NoObstacle(d, a, MigRollbackGeometry);
    NoObstacle(d, a, Precondition);
    NoObstacle(d, a, ResetScope);
    NoObstacle(d, a, ResetRollbackGeometry);
    NoObstacle(d, a, PackagePolicy);
    NoObstacle(d, a, PolicyStaging);
  }

  // ----- the four stages of a pass

  function AfterPackages(d: Desired, a: Audit, delivered: Metadata): Audit
    requires Mig.Settled(d.mig)
  {
    var targets, policy := InstallTargets(d, a), Execute(PolicyActions(d, a), d, a, delivered);
    if targets.Any() then Installed(d, targets, policy, delivered) else policy
  }

  lemma PackagesRun(d: Desired, a: Audit, delivered: Metadata)
    requires Mig.Settled(d.mig)
    ensures Execute(PackageSteps(d, a), d, a, delivered) == AfterPackages(d, a, delivered)
  {
    var targets, policy := InstallTargets(d, a), PolicyActions(d, a);
    if targets.Any() {
      ExecuteAppend([Snapshot] + policy, [InstallPackages(targets)], d, a, delivered);
      ExecuteAppend([Snapshot], policy, d, a, delivered);
      ExecuteOne(Snapshot, d, a, delivered);
      ExecuteOne(InstallPackages(targets), d, Execute(policy, d, a, delivered), delivered);
    }
  }

  /** Stage one settles the policy and delivers every drifted component. */
  lemma PackagesSettle(d: Desired, a: Audit, delivered: Metadata, b: Audit)
    requires Mig.Settled(d.mig) && Refusal(d, a).None? && b == AfterPackages(d, a, delivered)
    ensures b == a.(policy := b.policy, modul := b.modul, nvml := b.nvml, headers := true, compiler := true,
                    docker := b.docker, upToDate := b.upToDate)
    ensures b.upToDate == a.upToDate + TargetPackages(d, a)
    ensures b.docker == a.docker.(installed := true, toolkit := true)
    ensures b.modul == if InstallTargets(d, a).driver then a.modul.(disk := delivered) else a.modul
    ensures b.nvml == (a.nvml || InstallTargets(d, a).driver)
    ensures b.policy == a.policy.(selectors := b.policy.selectors)
    ensures forall c: Audit :: c.manager == a.manager && c.policy == b.policy && !RecipeError(d, c) ==>
              PolicyActions(d, c) == []
  {
    UnrefusedMeans(d, a);
    var policy := PolicyActions(d, a);
    if policy != [] {
      PolicyIsOneLock(d, a);
      ExecuteOne(policy[0], d, a, delivered);
      forall c: Audit | c.manager == a.manager && c.policy == b.policy && !RecipeError(d, c)
        ensures PolicyActions(d, c) == []
      {
        PolicySettles(d, a, policy[0].lock, c);
      }
    }
  }

  function AfterModule(d: Desired, a: Audit, b: Audit): Audit {
    if !a.modul.loaded || ResetRequired(d, a) then Prepared(b) else b
  }

  lemma ModuleRun(d: Desired, a: Audit, b: Audit, delivered: Metadata)
    requires Mig.Settled(d.mig) && b.modul.loaded == a.modul.loaded
    ensures Execute(ModuleSteps(d, a), d, b, delivered) == AfterModule(d, a, b)
  {
    if !a.modul.loaded || ResetRequired(d, a) {
      var teardown := ResetRequired(d, a) && a.mig.mode == Mig.Enabled && a.mig.geometry != [];
      var torn := if teardown then Step(TeardownGeometry, d, b, delivered) else b;
      ExecuteAppend(if teardown then [TeardownGeometry] else [], [PrepareModule], d, b, delivered);
      ExecuteOne(TeardownGeometry, d, b, delivered);
      ExecuteOne(PrepareModule, d, torn, delivered);
    }
  }

  /** Stage two leaves the module on disk loaded, and everything else known to work. */
  lemma ModuleSettles(d: Desired, a: Audit, b: Audit, c: Audit)
    requires !RecipeError(d, a) && c == AfterModule(d, a, b)
    requires b.modul == if InstallTargets(d, a).driver then a.modul.(disk := b.modul.disk) else a.modul
    requires b.nvml == (a.nvml || InstallTargets(d, a).driver) && b.smi == a.smi
    ensures c.modul.loaded && c.modul.disk == b.modul.disk && c.nvml && c.smi
    ensures c.modul.live.version == c.modul.disk.version && c.modul.live.openModule == c.modul.disk.openModule
    ensures c.modul.disk.signed.Some? ==> c.modul.live.signed == c.modul.disk.signed
  {
  }

  function AfterMig(d: Desired, a: Audit, c: Audit): Audit
    requires Mig.Settled(d.mig)
  {
    if MigSteps(d, a) != [] then MigReconciled(d, c) else c
  }

  lemma MigRun(d: Desired, a: Audit, c: Audit, delivered: Metadata)
    requires Mig.Settled(d.mig)
    ensures Execute(MigSteps(d, a), d, c, delivered) == AfterMig(d, a, c)
  {
  }

  /** A reconciliation that is not refused reaches the desired mode and geometry. */
  lemma ReconciledIsGood(d: Desired, c: Audit)
    requires Mig.Settled(d.mig) && Mig.Settled(c.mig.mode) && c.mig.pending == c.mig.mode && |c.mig.gpuUuids| == 1
    requires c.mig.packageInventoryComplete && c.mig.geometryComplete
             && (c.mig.mode == Mig.Disabled ==> c.mig.geometry == [])
    requires Mig.Restorable(c.mig.geometry, c.mig.gpuUuids) && (d.mig == Mig.Enabled ==> c.migCapable == Some(true))
    requires Mig.ReconciliationActions(d.mig, c.mig) == [] ==> c.migDevices == if d.mig == Mig.Enabled then 1 else 0
    ensures MigGood(d, MigReconciled(d, c))
  {
    var g := GpuOf(c.mig);
    assert [c.mig.gpuUuids[0]] == c.mig.gpuUuids;
    assert g.Truth() == c.mig;
    var actions := Mig.ReconciliationActions(d.mig, c.mig);
    if actions != [] { assert actions == [actions[0]]; }
    Mig.RoundSucceeds(d.mig, g);
  }

  /** Stage three leaves MIG at the desired mode and geometry. */
  lemma MigSettles(d: Desired, a: Audit, c: Audit)
    requires Mig.Settled(d.mig) && Refusal(d, a).None? && (a.mig.mode == Mig.Disabled ==> a.mig.geometry == [])
    requires c.migCapable == a.migCapable
    requires c.mig == if ResetRequired(d, a) then a.mig.(geometry := []) else a.mig
    requires c.migDevices == if ResetRequired(d, a) then 0 else a.migDevices
    ensures MigGood(d, AfterMig(d, a, c))
            && AfterMig(d, a, c) == c.(mig := AfterMig(d, a, c).mig, migDevices := AfterMig(d, a, c).migDevices)
    ensures AfterMig(d, a, c).mig.packageInventoryComplete
  {
    UnrefusedMeans(d, a);
    ResolvedPlatform(d, a);
    ResolvedMigMode(d, a);
    if Doctor.AtMode(d, a) { ResolvedMigGeometry(d, a); }
    if MigSteps(d, a) != [] && |a.mig.gpuUuids| == 1 { ReconciledIsGood(d, c); }
  }

  function AfterDocker(d: Desired, c: Audit): Audit {
    if d.docker then c.(docker := c.docker.(active := Some(true), enabled := Some(true), gpusUsable := Some(true)))
        else c
  }

  lemma DockerRun(d: Desired, a: Audit, c: Audit, delivered: Metadata)
    requires Mig.Settled(d.mig) && !Unresolved(d, a) && c.docker == a.docker.(installed := true, toolkit := true)
    ensures Execute(DockerSteps(d, a), d, c, delivered) == AfterDocker(d, c)
  {
    ResolvedPlatform(d, a);
    if d.docker {
      var configure := a.docker.gpusUsable != Some(true);
      var service := DockerServiceAction(a, configure);
      var runtime := if configure then [ConfigureRuntime(a.docker.active == Some(true))] else [];
      ExecuteAppend(service, runtime, d, c, delivered);
      ServiceRun(d, a, c, configure, delivered);
      if configure { ExecuteOne(runtime[0], d, Execute(service, d, c, delivered), delivered); }
    }
  }

  lemma ServiceRun(d: Desired, a: Audit, c: Audit, deferStart: bool, delivered: Metadata)
    requires Mig.Settled(d.mig) && c.docker.active == a.docker.active && c.docker.enabled == a.docker.enabled
    requires a.docker.active.Some? && a.docker.enabled.Some?
    ensures var active := if deferStart then c.docker.active else Some(true);
            Execute(DockerServiceAction(a, deferStart), d, c, delivered)
            == c.(docker := c.docker.(enabled := Some(true), active := active))
  {
    KnownIsTrueOrFalse(a.docker.active);
    KnownIsTrueOrFalse(a.docker.enabled);
    var service := DockerServiceAction(a, deferStart);
    if service != [] { ExecuteOne(service[0], d, c, delivered); }
  }

  // ----- the fixed point

  /** MIG instances exist only while MIG is enabled. */
  predicate Plausible(a: Audit) { a.mig.mode == Mig.Disabled ==> a.mig.geometry == [] }

  ghost function AfterPass(d: Desired, a: Audit, delivered: Metadata): Audit
    requires Mig.Settled(d.mig)
  {
    Execute(BuildPlan(d, a), d, a, delivered)
  }

  function DiskAfter(d: Desired, a: Audit, delivered: Metadata): Metadata {
    if InstallTargets(d, a).driver then delivered else a.modul.disk
  }

  /** The whole pass, stage by stage. */
  lemma PassInStages(d: Desired, a: Audit, delivered: Metadata)
    requires Mig.Settled(d.mig) && Refusal(d, a).None?
    ensures AfterPass(d, a, delivered) == 
            AfterDocker(d, AfterMig(d, a, AfterModule(d, a, AfterPackages(d, a, delivered))))
  {
    var p1, p2, p3, p4 := PackageSteps(d, a), ModuleSteps(d, a), MigSteps(d, a), DockerSteps(d, a);
    var b := AfterPackages(d, a, delivered);
    var c := AfterModule(d, a, b);
    var m := AfterMig(d, a, c);
    PackagesRun(d, a, delivered);
    PackagesSettle(d, a, delivered, b);
    ModuleRun(d, a, b, delivered);
    MigRun(d, a, c, delivered);
    UnrefusedMeans(d, a);
    DockerRun(d, a, m, delivered);
    ExecuteAppend(p1 + p2 + p3 + p4, [VerifyStack], d, a, delivered);
    ExecuteAppend(p1 + p2 + p3, p4, d, a, delivered);
    ExecuteAppend(p1 + p2, p3, d, a, delivered);
    ExecuteAppend(p1, p2, d, a, delivered);
    ExecuteOne(VerifyStack, d, AfterDocker(d, m), delivered);
  }

  lemma ModuleStageKeeps(d: Desired, a: Audit, b: Audit)
    ensures var c := AfterModule(d, a, b); c == b.(modul := c.modul, smi := c.smi, mig := c.mig, migDevices :=
                                                   c.migDevices)
  {
  }

  lemma MigStageKeeps(d: Desired, a: Audit, c: Audit)
    requires Mig.Settled(d.mig)
    ensures var m := AfterMig(d, a, c); m == c.(mig := m.mig, migDevices := m.migDevices)
  {
  }

  lemma DockerStageKeeps(d: Desired, m: Audit)
    ensures var z := AfterDocker(d, m);
            && z == m.(docker := z.docker)
            && z.docker.installed == m.docker.installed && z.docker.toolkit == m.docker.toolkit
            && (d.docker ==> z.docker.active == z.docker.enabled == z.docker.gpusUsable == Some(true))
  {
  }

  /** The platform, Docker, Fabric Manager and the policy after the pass. */
  lemma PassSettlesHost(d: Desired, a: Audit, delivered: Metadata, z: Audit)
    requires Mig.Settled(d.mig) && Refusal(d, a).None? && z == AfterPass(d, a, delivered)
    requires z.mig.packageInventoryComplete
    ensures PlatformGood(d, z) && DockerGood(d, z) && FabricGood(d, z) && z.fabric == a.fabric
    ensures z.manager == a.manager && z.recipe == a.recipe && z.upToDate == a.upToDate + TargetPackages(d, a)
    ensures !RecipeError(d, z) ==> PolicyActions(d, z) == []
  {
    var b := AfterPackages(d, a, delivered);
    var c := AfterModule(d, a, b);
    PassInStages(d, a, delivered);
    UnrefusedMeans(d, a);
    ResolvedPlatform(d, a);
    ResolvedFabric(d, a);
    PackagesSettle(d, a, delivered, b);
    ModuleStageKeeps(d, a, b);
    MigStageKeeps(d, a, c);
    DockerStageKeeps(d, AfterMig(d, a, c));
  }

  /** The module and MIG after the pass. */
  lemma PassSettlesGpu(d: Desired, a: Audit, delivered: Metadata, z: Audit)
    requires Mig.Settled(d.mig) && Refusal(d, a).None? && Plausible(a) && z == AfterPass(d, a, delivered)
    ensures MigGood(d, z) && z.mig.packageInventoryComplete
    ensures z.modul.loaded && z.nvml && z.smi && z.headers && z.modul.disk == DiskAfter(d, a, delivered)
    ensures z.modul.live.version == z.modul.disk.version && z.modul.live.openModule == z.modul.disk.openModule
    ensures z.modul.disk.signed.Some? ==> z.modul.live.signed == z.modul.disk.signed
  {
    var b := AfterPackages(d, a, delivered);
    var c := AfterModule(d, a, b);
    PassInStages(d, a, delivered);
    UnrefusedMeans(d, a);
    PackagesSettle(d, a, delivered, b);
    ModuleSettles(d, a, b, c);
    ModuleStageKeeps(d, a, b);
    MigSettles(d, a, c);
    DockerStageKeeps(d, AfterMig(d, a, c));
  }

  /** After the pass only the version on disk can be wrong: everything else is as desired. */
  lemma PassSettles(d: Desired, a: Audit, delivered: Metadata, z: Audit)
    requires Mig.Settled(d.mig) && Refusal(d, a).None? && Plausible(a) && z == AfterPass(d, a, delivered)
    ensures PlatformGood(d, z) && DockerGood(d, z) && FabricGood(d, z) && MigGood(d, z)
    ensures z.modul.disk == DiskAfter(d, a, delivered)
            && (OnDiskReady(d, z.modul.disk) ==> DriverGood(d, z) && !RecipeError(d, z))
    ensures z.modul.live.version == z.modul.disk.version && z.fabric == a.fabric
    ensures z.upToDate == a.upToDate + TargetPackages(d, a)
    ensures !RecipeError(d, z) ==> PolicyActions(d, z) == []
  {
    UnrefusedMeans(d, a);
    PassSettlesGpu(d, a, delivered, z);
    PassSettlesHost(d, a, delivered, z);
    if OnDiskReady(d, z.modul.disk) { ReadyDriverIsGood(d, a, z); }
  }

  lemma ReadyDriverIsGood(d: Desired, a: Audit, z: Audit)
    requires !RecipeError(d, a) && OnDiskReady(d, z.modul.disk)
    requires z.manager == a.manager && z.recipe == a.recipe && z.headers && z.smi && z.nvml && z.modul.loaded
    requires z.modul.live.version == z.modul.disk.version && z.modul.live.openModule == z.modul.disk.openModule
    requires z.modul.disk.signed.Some? ==> z.modul.live.signed == z.modul.disk.signed
    ensures DriverGood(d, z) && !RecipeError(d, z)
  {
  }

  lemma OnlyVerifying(d: Desired, a: Audit)
    ensures BuildPlan(d, a) == [VerifyStack] ==> !InstallTargets(d, a).driver
  {
  }

  /** The forward preflight demands an action on every package that is named as a target, and the solver has
      one exactly for those that are not installed as the repositories offer them. */
  predicate Admitted(d: Desired, a: Audit) { TargetPackages(d, a) !! a.upToDate }

  /** One run: a refused plan or transaction changes nothing. `offered` is the module of the driver package
      in the repositories. */
  ghost function Pass(d: Desired, a: Audit, offered: Metadata): Audit
    requires Mig.Settled(d.mig)
  {
    if Refuses(BuildPlan(d, a)) || !Admitted(d, a) then a else AfterPass(d, a, offered)
  }

  ghost function Passes(d: Desired, a: Audit, offered: Metadata, n: nat): Audit
    requires Mig.Settled(d.mig)
  {
    if n == 0 then a else Pass(d, Passes(d, a, offered, n - 1), offered)
  }

  /** The diagnosis is clean, and only the verification is planned. */
  ghost predicate Converged(d: Desired, a: Audit) { Doctor.Clean(d, a) && BuildPlan(d, a) == [VerifyStack] }

  /** What a caller can see before the first run: the plan is not refused, no package to install is up to date
      already, the repositories offer the desired driver, and Fabric Manager has the version it will have. */
  ghost predicate Convergeable(d: Desired, a: Audit, offered: Metadata) {
    && !Refuses(BuildPlan(d, a)) && Admitted(d, a)
    && (InstallTargets(d, a).driver ==> OnDiskReady(d, offered))
    && (d.fabric ==> a.fabric.version == DiskAfter(d, a, offered).version)
  }

  /** One run on an obedient host converges exactly if that is so. */
  lemma OnePassFixedPoint(d: Desired, a: Audit, offered: Metadata)
    requires Mig.Settled(d.mig) && Plausible(a)
    ensures Converged(d, Pass(d, a, offered)) <==> Convergeable(d, a, offered)
  {
    RefusalShows(d, a);
    if Refuses(BuildPlan(d, a)) {
    } else if !Admitted(d, a) {
      OnlyVerifying(d, a);
    } else {
      var z := AfterPass(d, a, offered);
      PassSettles(d, a, offered, z);
      ConvergedExactly(d, z);
    }
  }

  lemma VerifyingChangesNothing(d: Desired, a: Audit, offered: Metadata)
    requires Mig.Settled(d.mig) && BuildPlan(d, a) == [VerifyStack]
    ensures Pass(d, a, offered) == a
  {
    ExecuteOne(VerifyStack, d, a, offered);
  }

  lemma UnboundFabricIsRefused(d: Desired, z: Audit)
    requires FabricGood(d, z) && !FabricBound(d, z) && z.modul.live.version.Some?
    ensures Refuses(BuildPlan(d, z))
  {
    assert Doctor.Reported(Doctor.FabricVersionMismatch, d, z);
    assert Unresolved(d, z);
    assert Obstacle(Precondition, d, z);
    RefusalShows(d, z);
  }

  /** A host that one run did not converge is refused by the next: the driver package is up to date now,
      or Fabric Manager does not fit. */
  lemma StuckAfterPass(d: Desired, a: Audit, offered: Metadata)
    requires Mig.Settled(d.mig) && Plausible(a)
    requires !Refuses(BuildPlan(d, a)) && Admitted(d, a) && !Converged(d, AfterPass(d, a, offered))
    ensures var z := AfterPass(d, a, offered); Refuses(BuildPlan(d, z)) || !Admitted(d, z)
  {
    var z := AfterPass(d, a, offered);
    RefusalShows(d, a);
    PassSettles(d, a, offered, z);
    ConvergedExactly(d, z);
    if OnDiskReady(d, z.modul.disk) {
      UnboundFabricIsRefused(d, z);
    } else {
      assert DriverPackage in TargetPackages(d, z) && DriverPackage in z.upToDate;
    }
  }

  /** A second run changes nothing, whatever the first one did. */
  lemma PassIsIdempotent(d: Desired, a: Audit, offered: Metadata)
    requires Mig.Settled(d.mig) && Plausible(a)
    ensures Pass(d, Pass(d, a, offered), offered) == Pass(d, a, offered)
  {
    if !Refuses(BuildPlan(d, a)) && Admitted(d, a) {
      var z := AfterPass(d, a, offered);
      if Converged(d, z) { VerifyingChangesNothing(d, z, offered); } else { StuckAfterPass(d, a, offered); }
    }
  }

  lemma {:induction false} PassesAreOne(d: Desired, a: Audit, offered: Metadata, n: nat)
    requires Mig.Settled(d.mig) && Plausible(a) && n > 0
    ensures Passes(d, a, offered, n) == Pass(d, a, offered)
  {
    if n > 1 {
      PassesAreOne(d, a, offered, n - 1);
      PassIsIdempotent(d, a, offered);
    } else {
      assert Passes(d, a, offered, n - 1) == a;
    }
  }

  /** Any number of runs converges a host exactly if one does: what the first leaves undone stays undone. */
  lemma PassesConverge(d: Desired, a: Audit, offered: Metadata, n: nat)
    requires Mig.Settled(d.mig) && Plausible(a) && n > 0
    ensures Converged(d, Passes(d, a, offered, n)) <==> Convergeable(d, a, offered)
  {
    PassesAreOne(d, a, offered, n);
    OnePassFixedPoint(d, a, offered);
  }

  /** With only the version on disk in question, a host is converged exactly if that is right. */
  lemma ConvergedExactly(d: Desired, z: Audit)
    requires Mig.Settled(d.mig) && PlatformGood(d, z) && DockerGood(d, z) && FabricGood(d, z) && MigGood(d, z)
    requires OnDiskReady(d, z.modul.disk) ==> DriverGood(d, z) && !RecipeError(d, z)
    requires z.modul.live.version == z.modul.disk.version && (!RecipeError(d, z) ==> PolicyActions(d, z) == [])
    ensures Converged(d, z) <==> OnDiskReady(d, z.modul.disk) && FabricBound(d, z)
  {
    if OnDiskReady(d, z.modul.disk) && FabricBound(d, z) {
      GoodIsClean(d, z);
      GoodNeedsNoPlan(d, z);
    } else if OnDiskReady(d, z.modul.disk) {
      assert Doctor.Reported(Doctor.FabricVersionMismatch, d, z);
    } else {
      OnlyVerifying(d, z);
    }
  }

  // ----- hosts that are planned for and never converge

  /** Driver 1 with its open module, pinned, and Docker, on a host without MIG or Fabric Manager. */
  function PlainDesired(signedBoot: bool): Desired {
    Desired((v: string) => v == "1", false, true, signedBoot, Mig.Disabled, true, false, true, false,
            "pin-1", "1-open", "2")
  }

  /** A host with everything in place but what the arguments say. */
  function PlainHost(manager: Manager, compiler: bool, disk: Metadata, upToDate: set<Package>): Audit {
    var selectors := if manager == Apt then [PinSelector("pin-1")] else [StreamSelector("1-open")];
    Audit(manager, Recipe(true, false, true, true), true, compiler, Some(false), Some(true), Module(true, disk, disk),
          true, true, Docker(true, true, Some(true), Some(true), Some(true)),
          Fabric(None, false, None, None, None, None), Some(false),
          Mig.MigAudit(true, Mig.Disabled, Mig.Disabled, ["GPU"], [], true), 0,
          Policy(manager, true, selectors), upToDate)
  }

  lemma PlainPolicyIsSettled(signedBoot: bool, manager: Manager, compiler: bool, disk: Metadata, upToDate: set<Package>)
    requires manager == Apt || manager == Dnf
    requires !RecipeError(PlainDesired(signedBoot), PlainHost(manager, compiler, disk, upToDate))
    ensures PolicyActions(PlainDesired(signedBoot), PlainHost(manager, compiler, disk, upToDate)) == []
  {
  }

  /** The driver package is installed but its module is not signed. */
  lemma UnsignedDriverNeverConverges(offered: Metadata, n: nat)
    ensures var d := PlainDesired(true);
            var a := PlainHost(Apt, true, Metadata(Some("1"), Some(true), Some(false)), {DriverPackage});
            !Refuses(BuildPlan(d, a)) && !Converged(d, Passes(d, a, offered, n))
  {
    var d := PlainDesired(true);
    var a := PlainHost(Apt, true, Metadata(Some("1"), Some(true), Some(false)), {DriverPackage});
    PlainPolicyIsSettled(true, Apt, true, Metadata(Some("1"), Some(true), Some(false)), {DriverPackage});
    assert !Unresolved(d, a);
    assert FirstObstacle(None, d, a);
    RefusalIsTheFirst(d, a, None);
    RefusalShows(d, a);
    OnlyVerifying(d, a);
    if n > 0 { PassesConverge(d, a, offered, n); }
  }

  /** DNF builds need gcc and make, and a host without a compiler often has make. */
  lemma MissingCompilerNeverConverges(offered: Metadata, n: nat)
    ensures var d := PlainDesired(false);
            var a := PlainHost(Dnf, false, Metadata(Some("1"), Some(true), Some(true)), {Make});
            !Refuses(BuildPlan(d, a)) && !Converged(d, Passes(d, a, offered, n))
  {
    var d := PlainDesired(false);
    var a := PlainHost(Dnf, false, Metadata(Some("1"), Some(true), Some(true)), {Make});
    PlainPolicyIsSettled(false, Dnf, false, Metadata(Some("1"), Some(true), Some(true)), {Make});
    assert !Unresolved(d, a);
    assert FirstObstacle(None, d, a);
    RefusalIsTheFirst(d, a, None);
    RefusalShows(d, a);
    OnlyVerifying(d, a);
    if n > 0 { PassesConverge(d, a, offered, n); }
  }
}
