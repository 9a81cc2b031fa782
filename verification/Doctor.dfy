/** The diagnosis of a host: which findings an audit gives rise to. */
module Doctor {
  import opened Outcomes
  import opened HostState
  import Mig

  datatype Finding =
    | PackageManagerMissing | InventoryIncomplete | HeadersMissing | CompilerMissing | SecureBootEnabled
    | UnsignedModule | InstalledModuleUnsigned | SecureBootUnknown | OpenModuleUnsupported | OpenModuleSupportUnknown
    | ModuleNotLoaded | LoadedVersionUnknown | InstalledVersionUnknown | ModuleVersionMismatch | DriverVersionMismatch
    | ClosedModule | OpenModule | ModuleFlavorUnknown
    | InstalledClosedModule | InstalledOpenModule | InstalledFlavorUnknown
    | ModuleFlavorMismatch | SmiFailed | NvmlFailed | CudaCompatUnmodeled
    | DockerMissing | DockerInactive | DockerActivityUnknown | DockerDisabled | DockerEnablementUnknown
    | ToolkitMissing | NvidiaRuntimeMissing | DockerRuntimeUnknown
    | FabricNotApplicable | FabricApplicabilityUnknown | FabricMissing | FabricInactive | FabricUnknown | FabricDisabled
    | FabricEnablementUnknown | FabricUnhealthy | FabricHealthUnknown | FabricVersionUnknown | FabricVersionMismatch
    | MigUnsupported | MigCapabilityUnknown | MigPendingUnknown | MigPendingReboot
    | MigUnknown | MigEnabled | MigDisabled | MigMixed
    | GeometryUnobservable | GeometryMissing | GeometryMismatch | DeviceUnobservable | DisabledWithInstances
    | StackHealthy

  /** When the audit gives rise to an error finding. */
  predicate Reported(f: Finding, d: Desired, a: Audit) {
    match f
    case PackageManagerMissing => a.manager == NoManager
    case InventoryIncomplete => !a.mig.packageInventoryComplete
    case HeadersMissing => !a.headers
    case CompilerMissing => !a.compiler
    case SecureBootEnabled => !d.signedBoot && a.secureBoot == Some(true)
    case UnsignedModule => d.signedBoot && a.modul.live.signed != Some(true)
    case InstalledModuleUnsigned => d.signedBoot && a.modul.disk.signed != Some(true)
    case SecureBootUnknown => a.secureBoot.None?
    case OpenModuleUnsupported => d.openModule && a.openSupported == Some(false)
    case OpenModuleSupportUnknown => d.openModule && a.openSupported.None?
    case ModuleNotLoaded => !a.modul.loaded
    case LoadedVersionUnknown => a.modul.loaded && a.modul.live.version.None?
    case InstalledVersionUnknown => a.modul.loaded && a.modul.disk.version.None?
    case ModuleVersionMismatch =>
      && a.modul.loaded && a.modul.live.version.Some? && a.modul.disk.version.Some?
      && a.modul.live.version != a.modul.disk.version
    case DriverVersionMismatch =>
      a.modul.live.version.Some? && a.modul.live.version.value != "" && !d.Matches(a.modul.live.version)
    case ClosedModule => d.openModule && a.modul.live.openModule == Some(false)
    case OpenModule => !d.openModule && a.modul.live.openModule == Some(true)
    case ModuleFlavorUnknown => a.modul.live.openModule.None?
    case InstalledClosedModule => d.openModule && a.modul.disk.openModule == Some(false)
    case InstalledOpenModule => !d.openModule && a.modul.disk.openModule == Some(true)
    case InstalledFlavorUnknown => a.modul.disk.openModule.None?
    case ModuleFlavorMismatch =>
      && a.modul.loaded && a.modul.live.openModule.Some? && a.modul.disk.openModule.Some?
      && a.modul.live.openModule != a.modul.disk.openModule
    case SmiFailed => !a.smi
    case NvmlFailed => !a.nvml
    case CudaCompatUnmodeled => d.cudaCompat
    case DockerMissing => d.docker && !a.docker.installed
    case DockerInactive => d.docker && a.docker.active == Some(false)
    case DockerActivityUnknown => d.docker && a.docker.active.None?
    case DockerDisabled => d.docker && a.docker.enabled == Some(false)
    case DockerEnablementUnknown => d.docker && a.docker.enabled.None?
    case ToolkitMissing => d.docker && !a.docker.toolkit
    case NvidiaRuntimeMissing => d.docker && a.docker.gpusUsable == Some(false)
    case DockerRuntimeUnknown => d.docker && a.docker.installed && a.docker.gpusUsable.None?
    case FabricNotApplicable => d.fabric && a.fabric.applicable == Some(false)
    case FabricApplicabilityUnknown => d.fabric && a.fabric.applicable.None?
    case FabricMissing => d.fabric && !a.fabric.installed
    case FabricInactive => d.fabric && a.fabric.active == Some(false)
    case FabricUnknown => d.fabric && a.fabric.active.None?
    case FabricDisabled => d.fabric && a.fabric.enabled == Some(false)
    case FabricEnablementUnknown => d.fabric && a.fabric.enabled.None?
    case FabricUnhealthy => d.fabric && a.fabric.healthy == Some(false)
    case FabricHealthUnknown => d.fabric && a.fabric.healthy.None?
    case FabricVersionUnknown => d.fabric && a.fabric.installed && a.fabric.version.None?
    case FabricVersionMismatch => d.fabric && a.fabric.installed && a.fabric.version.Some?
                                  && (!d.Matches(a.fabric.version)
                                      || (a.modul.live.version.Some? && a.fabric.version != a.modul.live.version))
    case MigUnsupported => d.mig == Mig.Enabled && a.migCapable == Some(false)
    case MigCapabilityUnknown => d.mig == Mig.Enabled && a.migCapable.None?
    case MigPendingUnknown => a.mig.pending == Mig.Unknown
    case MigPendingReboot => a.mig.pending != Mig.Unknown && a.mig.mode != Mig.Unknown && a.mig.pending != a.mig.mode
    case MigUnknown => a.mig.mode == Mig.Unknown
    case MigEnabled => a.mig.mode == Mig.Enabled != d.mig
    case MigDisabled => a.mig.mode == Mig.Disabled != d.mig
    case MigMixed => a.mig.mode == Mig.Mixed != d.mig
    case GeometryUnobservable => AtMode(d, a) && !a.mig.geometryComplete
    case GeometryMissing =>
      && AtMode(d, a) && a.mig.geometryComplete && d.mig == Mig.Enabled && !FullGeometry(a)
      && a.mig.geometry == []
    case GeometryMismatch =>
      && AtMode(d, a) && a.mig.geometryComplete && d.mig == Mig.Enabled && !FullGeometry(a)
      && a.mig.geometry != []
    case DeviceUnobservable =>
      && AtMode(d, a) && a.mig.geometryComplete && d.mig == Mig.Enabled && FullGeometry(a)
      && a.migDevices != 1
    case DisabledWithInstances =>
      && AtMode(d, a) && a.mig.geometryComplete && d.mig == Mig.Disabled
      && (a.mig.geometry != [] || a.migDevices != 0)
    case StackHealthy => false
  }

  /** MIG is in the desired mode, with nothing pending. */
  predicate AtMode(d: Desired, a: Audit) { a.mig.mode == d.mig == a.mig.pending }

  ghost predicate Clean(d: Desired, a: Audit) { forall f :: !Reported(f, d, a) }

  /** What the planner can remedy by itself. */
  predicate Remediable(f: Finding, a: Audit) {
    match f
    case CompilerMissing | ToolkitMissing | DockerMissing | HeadersMissing | ModuleNotLoaded | SmiFailed | NvmlFailed
      | ClosedModule | OpenModule | ModuleFlavorUnknown | ModuleFlavorMismatch | LoadedVersionUnknown
      | InstalledClosedModule | InstalledOpenModule | InstalledFlavorUnknown | InstalledVersionUnknown
      | DriverVersionMismatch | ModuleVersionMismatch | UnsignedModule | InstalledModuleUnsigned => true
    case NvidiaRuntimeMissing | DockerDisabled | DockerInactive
      | MigDisabled | MigEnabled | GeometryMismatch | GeometryMissing => true
    case DockerRuntimeUnknown => a.docker.active == Some(false)
    case _ => false
  }

  // ----- the diagnosis, in the order of its branches

  function PlatformBranches(): seq<Finding> {
    [PackageManagerMissing, InventoryIncomplete, HeadersMissing, CompilerMissing, SecureBootEnabled,
     UnsignedModule, InstalledModuleUnsigned, SecureBootUnknown, OpenModuleUnsupported,
     OpenModuleSupportUnknown]
  }

  function DriverBranches(): seq<Finding> {
    [ModuleNotLoaded, LoadedVersionUnknown, InstalledVersionUnknown, ModuleVersionMismatch,
     DriverVersionMismatch, ClosedModule, OpenModule, ModuleFlavorUnknown, InstalledClosedModule,
     InstalledOpenModule, InstalledFlavorUnknown, ModuleFlavorMismatch, SmiFailed, NvmlFailed,
     CudaCompatUnmodeled]
  }

  function DockerBranches(): seq<Finding> {
    [DockerMissing, DockerInactive, DockerActivityUnknown, DockerDisabled, DockerEnablementUnknown,
     ToolkitMissing, NvidiaRuntimeMissing, DockerRuntimeUnknown]
  }

  function FabricBranches(): seq<Finding> {
    [FabricNotApplicable, FabricApplicabilityUnknown, FabricMissing, FabricInactive, FabricUnknown,
     FabricDisabled, FabricEnablementUnknown, FabricUnhealthy, FabricHealthUnknown, FabricVersionUnknown,
     FabricVersionMismatch]
  }

  function MigBranches(): seq<Finding> {
    [MigUnsupported, MigCapabilityUnknown, MigPendingUnknown, MigPendingReboot, MigUnknown, MigEnabled,
     MigDisabled, MigMixed, GeometryUnobservable, GeometryMissing, GeometryMismatch, DeviceUnobservable,
     DisabledWithInstances]
  }

  /** The branches whose conditions hold, in order. */
  function Collect(branches: seq<Finding>, d: Desired, a: Audit): seq<Finding> {
    if branches == [] then []
    else (if Reported(branches[0], d, a) then [branches[0]] else []) + Collect(branches[1..], d, a)
  }

  function Errors(d: Desired, a: Audit): seq<Finding> {
    Collect(PlatformBranches(), d, a) + Collect(DriverBranches(), d, a) + Collect(DockerBranches(), d, a)
    + Collect(FabricBranches(), d, a) + Collect(MigBranches(), d, a)
  }

  function Diagnose(d: Desired, a: Audit): seq<Finding> { if Errors(d, a) == [] then [StackHealthy] else Errors(d, a) }

  lemma {:induction false} Collects(branches: seq<Finding>, d: Desired, a: Audit)
    ensures forall f :: f in Collect(branches, d, a) <==> f in branches && Reported(f, d, a)
  {
    if branches != [] {
      Collects(branches[1..], d, a);
      assert branches == [branches[0]] + branches[1..];
    }
  }

  lemma BranchesCover(f: Finding)
    ensures f == StackHealthy || f in PlatformBranches() || f in DriverBranches() || f in DockerBranches()
            || f in FabricBranches() || f in MigBranches()
  {
  }

  lemma ErrorsAreReported(d: Desired, a: Audit, f: Finding)
    ensures f in Errors(d, a) <==> Reported(f, d, a)
  {
    Collects(PlatformBranches(), d, a);
    Collects(DriverBranches(), d, a);
    Collects(DockerBranches(), d, a);
    Collects(FabricBranches(), d, a);
    Collects(MigBranches(), d, a);
    BranchesCover(f);
  }

  /** The diagnosis reports exactly the errors whose conditions hold, and health exactly if there are none. */
  lemma DiagnosisIsExact(d: Desired, a: Audit, f: Finding)
    ensures f in Diagnose(d, a) <==> if f == StackHealthy then Clean(d, a) else Reported(f, d, a)
  {
    ErrorsAreReported(d, a, f);
    if Errors(d, a) == [] {
      forall g
        ensures !Reported(g, d, a)
      {
        ErrorsAreReported(d, a, g);
      }
    } else {
      ErrorsAreReported(d, a, Errors(d, a)[0]);
    }
  }
}
