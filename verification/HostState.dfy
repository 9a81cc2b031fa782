/** The desired state, and what an audit says about a host. */
module HostState {
  import opened Outcomes
  import Mig

  /** `accepts` says whether a non-empty driver version is the desired version or on the desired branch. */
  datatype Desired = Desired(
    accepts: string -> bool, exact: bool, openModule: bool, signedBoot: bool, mig: Mig.Mode,
    docker: bool, fabric: bool, pin: bool, cudaCompat: bool,
    pinningPackage: string, stream: string, upperBound: string) {
    predicate Matches(version: Option<string>) { version.Some? && version.value != "" && accepts(version.value) }
  }

  datatype Manager = Apt | Dnf | Yum | Zypper | NoManager | OtherManager

  /** What the recipe tables say about this release and kernel. */
  datatype Recipe = Recipe(releaseKnown: bool, rhel9: bool, x86Kernel: bool, suseKernel: bool)

  datatype Metadata = Metadata(version: Option<string>, openModule: Option<bool>, signed: Option<bool>)

  /** The loaded module, and the one on disk for the running kernel. */
  datatype Module = Module(loaded: bool, live: Metadata, disk: Metadata)

  datatype Docker = Docker(installed: bool, toolkit: bool, active: Option<bool>, enabled: Option<bool>,
                           gpusUsable: Option<bool>)

  datatype Fabric = Fabric(applicable: Option<bool>, installed: bool, active: Option<bool>, enabled: Option<bool>,
                           healthy: Option<bool>, version: Option<string>)

  /** `isPin` and `nvidia` classify the name: a vendor pinning package; anything that mentions NVIDIA. */
  datatype Selector = Selector(identifier: string, name: string, isModule: bool, relation: Option<string>,
                               version: Option<string>, repositories: seq<string>, isPin: bool, nvidia: bool)

  datatype Policy = Policy(backend: Manager, observable: bool, selectors: seq<Selector>)

  /** The packages that a driver, tool or build-input target can name. */
  datatype Package =
    | DriverPackage | ToolkitPackage | DockerPackage
    | LinuxHeaders | KernelDevel | KernelHeaders | SuseKernelDevel
    | BuildEssential | Gcc | Make

  /** `upToDate`: the packages that are installed just as the repositories offer them. */
  datatype Audit = Audit(
    manager: Manager, recipe: Recipe, headers: bool, compiler: bool, secureBoot: Option<bool>,
    openSupported: Option<bool>, modul: Module, smi: bool, nvml: bool, docker: Docker, fabric: Fabric,
    migCapable: Option<bool>, mig: Mig.MigAudit, migDevices: nat, policy: Policy, upToDate: set<Package>)

  /** The on-disk module is the desired one. */
  predicate OnDiskReady(d: Desired, disk: Metadata) {
    d.Matches(disk.version) && disk.openModule == Some(d.openModule) && (d.signedBoot ==> disk.signed == Some(true))
  }

  /** A loaded module differs from what is known about the one on disk. */
  predicate ReloadRequired(m: Module) {
    m.loaded && (|| (m.disk.version.Some? && m.live.version != m.disk.version)
                 || (m.disk.openModule.Some? && m.live.openModule != m.disk.openModule)
                 || (m.disk.signed.Some? && m.live.signed != m.disk.signed))
  }

  predicate FullGeometry(a: Audit) { Mig.FullGeometryMatches(a.mig.geometry, a.mig.gpuUuids) }
}
