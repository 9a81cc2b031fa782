# nvidia-converge: protocols and decision procedures, verified

`nvidia-converge` brings the NVIDIA stack of a host to a desired state: it audits, plans, takes a snapshot,
quarantines the services that can launch GPU work, changes packages, modules, MIG and Docker, verifies, and
then commits or compensates. This project models its protocols and its decision procedures in Dafny and proves
what they promise. The operating system is a world whose commands may succeed, fail, lie, or be followed by
anything: whatever such an operation returns is chosen nondeterministically (`x := *`), except where a statement
names an obedient host. Exceptions are `Outcome` values that `:-` re-raises.

| files | what they model |
|---|---|
| `LauncherModel`, `LauncherCommit`, `LauncherProtocol`, `LauncherMeaning` | the release of the four launcher units after an operation, its quarantine, and what a run's log of events then says |
| `RunModel`, `RunSteps`, `InstallRun`, `OperationRun` | an applied installation with its compensation, and applied verification, policy lock and rollback, each with its exit status |
| `HostState`, `Doctor`, `Planner`, `FixedPoint` | diagnosis, planning, and one pass on an obedient host |
| `Mig` | MIG reconciliation: plan, executor, and both together around a reboot |
| `Journal`, `Reservation` | the crash journal: appends, and the fsync order of a reservation |
| `Inventory`, `Admission` | inventories, the planned rollback difference, and the admission of APT, DNF and Zypper transactions |
| `Payloads`, `PayloadStaging` | validation and staging of the retained package payloads |
| `DirectoryTree`, `PayloadCleanup`, `SnapshotCleanup` | bounded removal of directory trees, and cleanup after an interrupted snapshot |
| `CommandLayout` | how transactions are written as command lines and read back |
| `UnloadOrder`, `ServiceGuard`, `MapsScan` | module unload order, the stop/restore guard, the chunked maps scanner |
| `Outcomes` | `Option` and `Outcome` |

`dafny verify dfyconfig.toml` checks everything.

## What the proofs found

Where a natural reading of a promise is false of the code, the code is kept as it is, a concrete input is proved
to fail, and the promise is proved exactly where it holds.

- **One-pass fixed point** (`FixedPoint.PassesConverge`, `FixedPoint.OnePassFixedPoint`). The forward preflight demands a
  solver action on every package that the plan names as a target (preflight.py 1791-1795, 1937-1942, 2110-2114; in
  `Admission` the refusal `MissingTarget`). A target that is already installed as the repositories offer it has none, so
  the run is refused, and every later one too. Runs converge exactly if the plan is not refused, no target is up to date
  already, the offered driver is the desired one, and Fabric Manager has its version: all of it visible before the first
  run. A second run never helps (`FixedPoint.PassIsIdempotent`). Inputs that are planned for and never converge: an
  installed driver package whose module is unsigned where a signed one is desired
  (`FixedPoint.UnsignedDriverNeverConverges`), and a DNF host without gcc on which make is installed
  (`FixedPoint.MissingCompilerNeverConverges`).
- **A clean diagnosis and the planner** (`FixedPoint.CleanIsLeftAloneIff`). A host the doctor finds healthy may still be
  planned for: the planner reloads a module that is signed differently from the one on disk even where no signature is
  desired (`FixedPoint.CleanHostIsReloaded`). It is left alone exactly if recipe and policy allow it and the two agree on
  Docker's packages and the signature.
- **Zypper rollback** (`Admission.ZypperRollbackIsExactIff`). Zypper's summary does not say which installed packages its
  changes take away. An accepted transaction leaves the baseline after every outcome the summary allows exactly if two
  things hold: no correct baseline package is removed or within reach of a change, and every package that has to make room
  is removed or is the only one that some upgrade, downgrade or change of architecture supersedes. Both fail for accepted
  transactions: `Admission.ArchitectureChangeLosesBaseline`, `Admission.InstallationLeavesOccupant`. The forward checker
  refuses changes of architecture.
- **DNF rollback with several versions in a slot** (`Admission.DnfRollbackIsExact`). `rollback.py` leaves baseline
  packages out of the removals it expects, `preflight.py` does not. A rollback can be accepted exactly if no kept baseline
  package shares its name and architecture with a restored one; with two kernel-devel versions, one of them missing, every
  solver answer is refused (`Admission.MissingKernelVersionIsRefused`).
- **Reservation** (`Reservation.ReserveAppliedReport`, `Reservation.HalfMadeMarkerIsOrphaned`). If making the active
  marker fails half way, the marker is unlinked without a directory sync before the journal is unlinked; a crash
  may then leave a marker without its journal. The crash invariant holds exactly outside such runs.
- **Guard** (`ServiceGuard.RestoreAgain`). Restore errors are never cleared: after a restore that failed no later one
  returns True, and a restore returns True exactly if none was ever recorded. In `ServiceGuard.RecoveredTooLate` a unit is
  stopped at the gate and cannot be started for a while; then the host recovers, the next restore brings the unit back, and
  is False all the same.
- **Exit status and launcher commit** (`OperationRun.Verify`, `OperationRun.Lock`, `OperationRun.Rollback`). Status 0 reads as
  if the launchers had been committed. Only for an installation it means that in every run.
  - The status of `lock` looks at the plan, the checks, four finding ids and the command results (cli.py 2956-2972). A launcher
    commit that fails on an audit adds none of them, so a lock exits 0 with all launchers masked
    (`OperationRun.LockWithoutCommit`). With status 0 and something to change, the launchers were committed exactly if no error
    finding of the operation was kept and the commit did not fail silently; where nothing else starts docker.service, a
    report without error findings is enough. A lock with nothing to change exits 0 and does nothing.
  - A launcher commit fails silently, without a finding of its own, only if docker.socket cannot be observed on the audit it
    holds, or has to be masked again at the end (`LauncherProtocol.ReleaseAll`). A rollback with
    status 0 has not committed exactly if its commit failed so (`OperationRun.RollbackWithoutCommit`); the launchers are then
    left fenced.
  - A verification exits 0 without a commit only if its last audit sees docker.service running behind the fence, that is, if
    someone else started it (`OperationRun.VerifyWithoutCommit`); on a host of its own status 0 means the commit.

Two more readings are settled without a failing input.

- **docker.socket last** (`LauncherProtocol.CommitServiceActivity`). A unit whose target is not enabled needs no final
  command, and gets none (`LauncherCommit.RestoreServiceFileState`), so the last launcher touched may be docker.service.
  What holds: in every run, after docker.service's final state only docker.socket is released and after docker.socket's
  nothing is; in a successful one no other launcher is touched in any way after either.
- **Maps scanner** (`MapsScan.CutsAgree`). Because a read is no longer than the longest allowed record, a read that
  completes a record never leaves an overlong one behind; the early refusal of an overlong rest and the parser's own
  refusal are then one and the same, and the answer is that of the whole file however the reads cut it.

## Model

| member | source | states |
|---|---|---|
| LauncherProtocol.CommitServiceActivity | nvidia_converge/cli.py:5186-5582 | In every environment: the release order is kept at every position of the log; a True result means the last audit shows all four launchers exactly at their target, nothing was changed after it, each active trusted service was one process before and after two audits, and after the final command of docker.service or docker.socket nothing but docker.socket was touched; every False or exceptional exit is fenced: proved idle on a fresh audit, reported, or masked by the emergency path. |
| LauncherProtocol.ReleaseAll | nvidia_converge/cli.py:5186-5549 | In every environment no stage breaks the release order, and success means the commit condition holds on the last audit; failure ends in a reported error, unless the Docker targets are unspecified, docker.socket is unobservable on the audit returned, or the target masks the socket again. |
| LauncherProtocol.ReleaseNvidia | nvidia_converge/cli.py:5197-5218 | Never breaks the release order; success means both NVIDIA units were audited at their exact targets and stayed there, their processes are retained, and no Docker process was read or start left unproven yet. |
| LauncherProtocol.PrepareDocker | nvidia_converge/cli.py:5220-5325 | Never breaks the release order; success keeps the NVIDIA units settled with their retained processes, and leaves no start of the daemon unproven. |
| LauncherProtocol.ActivateDocker | nvidia_converge/cli.py:5327-5386 | Never breaks the release order; success means a daemon that is to run has its process retained, and every start of it so far passed a workload checkpoint. |
| LauncherProtocol.FinalizeDocker | nvidia_converge/cli.py:5465-5532 | Never breaks the release order: docker.service is final before docker.socket, and nothing is released after that; success keeps every active trusted service on its retained process with no start unproven, and touched nothing but docker.socket after the first final command. |
| LauncherProtocol.VerifyJointCommit | nvidia_converge/cli.py:5045-5183 | The joint verification succeeds only if every token is read again around a last audit that shows the exact target. |
| LauncherProtocol.WorkloadCheckpoint | nvidia_converge/cli.py:3167-3229 | The checkpoint passes only on a current audit with an active daemon, followed by a probe with no unaccepted workload, and then every earlier start is proved harmless. |
| LauncherProtocol.DeferLauncherEnablement | nvidia_converge/cli.py:3267-3398 | Success means a fresh audit shows all four launchers inactive and masked. |
| LauncherProtocol.QuarantineService | nvidia_converge/rollback.py:2869-2965 | True means the last thing seen of the unit, with nothing since, is that it is inactive and masked; in any case it releases nothing, silences no alarm, proves no start, and affects no other unit. |
| LauncherProtocol.QuarantineFailedCommit | nvidia_converge/cli.py:4992-5029 | The quarantine never reports success; it either proves all launchers masked on an idle node or leaves an error finding. |
| LauncherProtocol.EmergencyQuarantine | nvidia_converge/cli.py:4126-4140 | The emergency path masks every launcher whatever happens. |
| LauncherCommit.RestoreUnitStaged | nvidia_converge/cli.py:4924-4989 | Success means an NVIDIA unit was audited at its exact target and, if active, is retained as one process that was read before and after an audit; no other unit is affected. |
| LauncherCommit.RestoreUnitActivity | nvidia_converge/cli.py:4717-4870 | Success means the returned audit is current and shows the target activity, Fabric Manager healthy and version-bound if it is active, and a trusted service that runs is one process read before and after that audit. |
| LauncherCommit.PrepareUnit | nvidia_converge/cli.py:4653-4714 | Success means a current audit shows the unit inactive in its prepared, not persistent, file state; nothing is started and no other unit is affected. |
| LauncherCommit.FinalizeUnitState | nvidia_converge/cli.py:4873-4921 | Success means a current audit shows the unit exactly at its target; no process changes. |
| LauncherCommit.RestoreServiceFileState | nvidia_converge/rollback.py:3147-3203 | A unit whose target is not enabled, or already reached, gets no final command at all. |
| LauncherMeaning.OrderlyRunsKeepOrder | nvidia_converge/cli.py:5197-5549 | NVIDIA units are settled before any Docker unit is released and never released again; no Docker unit becomes persistent with an ungated start behind it; after docker.service is final only docker.socket is released, and nothing after docker.socket is. |
| LauncherMeaning.CommittedIsSound | nvidia_converge/cli.py:5045-5183 | The commit condition means, on the events: exact target on the last audit, no later change, one process throughout, every start of the daemon gated, and after the final command of a Docker unit only docker.socket touched. |
| LauncherMeaning.BoundMeans | nvidia_converge/cli.py:5059-5110 | A retained identity is one process, unrestarted since a position of the log, whose readings bracket as many audits as counted. |
| LauncherMeaning.ContainedIsFenced | nvidia_converge/cli.py:4992-5029 | A contained run is fenced on its events: idle and masked on the last audit, or reported with nothing released since. |
| LauncherMeaning.EmergencyIsTotal | nvidia_converge/cli.py:4126-4140 | After the emergency path every launcher was masked and nothing released since. |
| InstallRun.Install | nvidia_converge/cli.py:832-1945 | However it ends, the log of an applied installation is safe as a statement on its events; status 0 means that in the log the core was verified, then the journal authorized the installed state, then the launcher commit to it returned True, and that there is no failure, pending reboot or compensation, and no bad command result, verification or error finding. |
| InstallRun.OpenInstall | nvidia_converge/cli.py:832-1125 | Up to the binding of the snapshot no host command is started; going on means it is bound. |
| InstallRun.QuarantineFirst | nvidia_converge/cli.py:1126-1370 | Going on after the first stop means every check passed on a fresh audit; otherwise the failure is in the log. |
| InstallRun.InstallPackages | nvidia_converge/cli.py:1371-1407 | Package commands run only while nothing failed, and any later phase has a checkpoint behind them. |
| InstallRun.PrepareModule | nvidia_converge/cli.py:1409-1468 | Teardown and module loading run only while nothing failed; a module that is not ready has failed the phase or waits for a reboot, and either is in the log. |
| InstallRun.ReconcileMig | nvidia_converge/cli.py:1470-1540 | Guarded by the flags alone, MIG commands run only in an unfailed run with the module ready and behind a safe boundary; a failure or a pending mode is in the log. |
| InstallRun.ConfigureDocker | nvidia_converge/cli.py:1542-1566 | Guarded by the flags alone, the Docker runtime is configured only while nothing failed or waits for a reboot; a failure stops the run before any release. |
| InstallRun.Converge | nvidia_converge/cli.py:1371-1566 | The four flags are enough: after all phases they say whether the run may go on, and if they do not, a failure or a pending reboot is in the log. |
| InstallRun.ReleaseInstalled | nvidia_converge/cli.py:1600-1701 | The release happens only with the core verified and the journal's authorization, and reaching the end means it was committed. |
| InstallRun.Compensate | nvidia_converge/cli.py:4216-4537 | Compensation runs only behind a failure or a pending reboot; True means its commands ran. |
| InstallRun.ApplyPlan | nvidia_converge/cli.py:1126-1902 | Whatever does not get through leaves an error finding that the final report keeps. |
| RunSteps.Run.Mutate | nvidia_converge/cli.py:383-430 | A host command happens between its two journal records and its result is recorded; if either record cannot be written and a command was ever started, masking the launchers is the last thing in the log. |
| RunSteps.Run.Commands | nvidia_converge/cli.py:3133-3148 | No command of the phase failed, or only its last one, which then is the last event; an exception leaves the launchers masked if any command was started. |
| RunSteps.CommitLaunchers | nvidia_converge/cli.py:5186-5582 | As a step of a run: True is the commit to the target with the report unspoiled; False leaves a finding or is silent, and leaves the launchers fenced or a finding that says they are not. |
| OperationRun.Verify | nvidia_converge/cli.py:1968-2208 | Safe however it ends; status 0 means good checks, no error finding, and a commit to the target in the log, after its authorization, after core verification, unless docker.service was seen running behind a fence, which cannot be if nothing else starts it. |
| OperationRun.Lock | nvidia_converge/cli.py:2212-2972 | Safe however it ends; status 0 means that nothing was done, or that all commands and checks are good and the release is authorized; the launchers were then committed if and only if no error finding was kept and the commit did not fail silently; with a clean report on a host of its own they were. |
| OperationRun.Rollback | nvidia_converge/cli.py:436-800 | Safe however it ends; status 0 means that all commands, checks and findings are good and the release is authorized, and that the launchers were committed if and only if the commit did not fail silently; otherwise the log ends fenced. |
| OperationRun.LockWithoutCommit | nvidia_converge/cli.py:2956-2972 | A run of the lock with status 0, authorized and not committed. |
| OperationRun.RollbackWithoutCommit | nvidia_converge/cli.py:5385-5395 | A run of the rollback with status 0, fenced and not committed. |
| OperationRun.VerifyWithoutCommit | nvidia_converge/cli.py:6062-6067 | A run of the verification with status 0 and docker.service running behind its fence. |
| RunModel.RecoveryAuthorityFirst | nvidia_converge/cli.py:4035-4067 | In a safe log the snapshot binding precedes every stop, mask or other change, at every point where the run may be cut off. |
| RunModel.NothingForwardAfterFailure | nvidia_converge/cli.py:1300-1735 | After a failure or a pending reboot no command of the plan follows, and launchers are released to nothing but the baseline. |
| RunModel.PhasesInOrder | nvidia_converge/cli.py:1371-1566 | Packages, teardown, module, MIG and Docker follow in this order. |
| RunModel.CheckpointBetween | nvidia_converge/cli.py:1377-1407 | Before any module, MIG or Docker change a workload checkpoint passed after the last package command. |
| RunModel.CompensationHasCause | nvidia_converge/cli.py:1704-1735 | Compensation has a failure or a pending reboot before it. |
| RunModel.ReleaseIsAuthorized | nvidia_converge/cli.py:4097-4123 | Launchers are released only after the journal authorized the target. |
| RunModel.AuthorizationIsEarned | nvidia_converge/cli.py:1652-1830 | The baseline is authorized only after compensation, any other target only after its core was verified. |
| RunModel.CommitIsAuthorized | nvidia_converge/cli.py:4097-4123 | A launcher commit returns True only after the journal authorized its target. |
| RunModel.ValidIsSafe | nvidia_converge/cli.py:1126-1902 | All of these rules together, said of the events of a run alone. |
| Doctor.DiagnosisIsExact | nvidia_converge/doctor.py:7-296 | Helper for the planner: the list of branches misses no finding, so a finding is listed exactly if its transcribed condition holds, and health exactly if none does. |
| Planner.FirstRefusal | nvidia_converge/planner.py:75-238 | The reason is a real obstacle and the first in the order; there is no reason exactly if none of the twelve obstacles stands in the way. |
| Planner.MakePlan | nvidia_converge/planner.py:75-427 | The plan refuses exactly if there is an obstacle; any other plan has each action called for by the audit and no other, each at most once and in the order of the stages, and ends with the verification. |
| FixedPoint.OnePassFixedPoint | nvidia_converge/planner.py:75-427 | From every plausible audit: one run on an obedient host gives a clean diagnosis and a plan that only verifies, if and only if the plan is not refused, no target package is up to date already, the offered driver is the desired one, and Fabric Manager, if desired, has its version. |
| FixedPoint.PassesConverge | nvidia_converge/planner.py:75-427 | Any number of runs, one or more, converge under exactly the same condition. |
| FixedPoint.PassIsIdempotent | nvidia_converge/planner.py:75-427 | A second run on an obedient host changes nothing: the first converged it, or left it refused. |
| FixedPoint.UnsignedDriverNeverConverges | nvidia_converge/preflight.py:1791-1795 | An installed driver package with an unsigned module is planned for and never converges, after any number of runs. |
| FixedPoint.MissingCompilerNeverConverges | nvidia_converge/preflight.py:1939-1943 | Neither does a DNF host without gcc on which make is installed. |
| FixedPoint.CleanIsLeftAloneIff | nvidia_converge/planner.py:705-754 | For a host with a clean diagnosis only the verification is planned exactly if recipe and policy allow it, Docker's packages are installed, and a known signature on disk is that of the loaded module. |
| FixedPoint.CleanHostIsReloaded | nvidia_converge/planner.py:718-731 | A healthy host whose module was loaded before the one on disk was signed is not left alone. |
| FixedPoint.PassSettles | nvidia_converge/planner.py:239-427 | After a pass everything but the version on disk is as desired. |
| FixedPoint.PassInStages | nvidia_converge/cli.py:1285-1560 | Executing the plan is the package, module, MIG and Docker stages one after the other. |
| FixedPoint.PackagesSettle | nvidia_converge/planner.py:705-754 | Stage one delivers every drifted component and leaves a policy that needs no action. |
| FixedPoint.PolicySettles | nvidia_converge/planner.py:601-702 | After its one lock action the policy is the desired one for APT, DNF and Zypper. |
| FixedPoint.ModuleSettles | nvidia_converge/planner.py:718-731 | After stage two the loaded module is the one on disk and the userspace works. |
| FixedPoint.MigSettles | nvidia_converge/planner.py:474-598 | After stage three MIG is at the desired mode, geometry and device count. |
| FixedPoint.DockerRun | nvidia_converge/planner.py:430-471 | The Docker steps leave the daemon active, enabled and configured. |
| Planner.RefusalShows | nvidia_converge/planner.py:75-280 | An unsupported action is in the plan exactly if there is a reason to refuse. |
| FixedPoint.GoodNeedsNoPlan | nvidia_converge/planner.py:412-427 | At the desired state only the verification is planned. |
| FixedPoint.ResolvedFabric | nvidia_converge/doctor.py:181-240 | Without unremediable findings a desired Fabric Manager is applicable, installed, active, enabled, healthy and of a desired version. |
| Mig.ExecuteReconciliation | nvidia_converge/cli.py:3745-3836 | In every environment a create for an enabled target directly follows an audit with the mode enabled, each command that is followed by anything succeeded and was audited, and success means current and pending mode equal the target or exactly the pending one does; on an obedient GPU the result is the executor function's. |
| Mig.RunOne | nvidia_converge/cli.py:3766-3830 | One command between its gate and its fresh checkpoint. |
| Mig.RoundSucceeds | nvidia_converge/planner.py:474-598 | An unrefused plan reaches the target mode and geometry in one round, or stages the mode for a reboot. |
| Mig.ReconciliationConverges | nvidia_converge/planner.py:474-598 | One round, or two around one reboot, reach the target, after which re-planning gives no action. |
| Mig.RefusedExactly | nvidia_converge/planner.py:474-543 | An obedient GPU is refused exactly for a conflicting pending mode or geometry that cannot be recreated. |
| Mig.TargetNeedsNoPlan | nvidia_converge/mig.py:11-24 | At the target mode and geometry no action is planned. |
| Journal.JournalFile.Append | nvidia_converge/report.py:163-252 | Under short writes and I/O errors: a normal return adds exactly the record, a plain error leaves the bytes unchanged, only an integrity error may leave a tail; at most two tries and one release of the reserve. |
| Journal.JournalFile.TryAppend | nvidia_converge/report.py:163-252 | One try writes all of the record durably, or rolls back to the old bytes, or reports the loss of integrity; a journal without a complete last record is left alone. |
| Journal.JournalFile.RollBack | nvidia_converge/report.py:693-729 | A rollback that returns has restored the bytes durably. |
| Journal.JournalFile.ValidateBoundary | nvidia_converge/report.py:664-690 | Only a journal that ends in a complete record may be appended to. |
| Journal.JournalFile.WriteAll | nvidia_converge/report.py:759-765 | The write loop adds a prefix of the payload, and all of it if there was no error. |
| Journal.AppendAll | nvidia_converge/report.py:163-252 | Over any run of appends the journal is what was there and what each append kept, and it ends in a complete record exactly if none was torn. |
| Journal.CleanRunIsExact | nvidia_converge/report.py:163-252 | Without integrity errors the journal holds exactly the returned records, in order. |
| Reservation.ReserveAppliedReport | nvidia_converge/report.py:69-160 | At every crash point a marker that can be on disk has a durable complete journal, if and only if no half-made marker is orphaned; success leaves all four files durable; a failed run whose unlinks succeed leaves none. |
| Reservation.Build | nvidia_converge/report.py:84-129 | The forward path keeps the crash invariant and succeeds exactly if no step fails. |
| Reservation.HalfMadeMarkerIsOrphaned | nvidia_converge/report.py:581-634 | A single failing sync of the marker breaks the crash invariant even though every cleanup step succeeds. |
| Inventory.DifferenceIsComplete | nvidia_converge/rollback.py:2563-2635 | What is removed and what is displaced by a restored package is together exactly what the baseline does not contain. |
| Inventory.IndexInventory | nvidia_converge/preflight.py:1586-1604 | The audited packages by slot, refused exactly if a slot is listed twice. |
| Admission.ParseAptTransaction | nvidia_converge/preflight.py:1459-1504 | The actions of simulated output, refused exactly if one is malformed or repeated. |
| Admission.ResolutionIsUnambiguous | nvidia_converge/preflight.py:1514-1537 | A removal means the only installed package it fits, or the native one; it fails to resolve exactly otherwise. |
| Admission.AptRollbackError | nvidia_converge/preflight.py:1564-1655 | Accepts exactly bound operands with truthful replacements, resolvable removals and the expected sets. |
| Admission.AptRollbackIsExact | nvidia_converge/preflight.py:1564-1655 | An accepted APT rollback of the planned difference leaves exactly the baseline. |
| Admission.HonestRollbackIsAdmitted | nvidia_converge/preflight.py:1564-1655 | A solver that reports the planned difference faithfully is always accepted. |
| Admission.DnfRollbackError | nvidia_converge/preflight.py:2130-2260 | Accepts exactly bound operands, a command bound to the proven sets, and observations equal to them. |
| Admission.DnfRollbackIsExact | nvidia_converge/preflight.py:2130-2260 | An accepted DNF rollback of the planned difference leaves exactly the baseline, with any number of versions per slot; it can be accepted if and only if no kept package shares a slot with a restored one. |
| Admission.MissingKernelVersionIsRefused | nvidia_converge/preflight.py:2130-2260 | With two kernel-devel versions in the baseline, one of them missing, every solver answer is refused. |
| Admission.ZypperRollbackError | nvidia_converge/preflight.py:2311-2410 | Accepts exactly the actions that change the restore targets and remove the removal targets, and otherwise only from restored slots. |
| Admission.ZypperRollbackIsExactIff | nvidia_converge/preflight.py:2311-2410 | An accepted Zypper rollback leaves the baseline after every outcome that its summary allows if and only if no correct baseline package is in reach of its changes and every displaced package is removed or the only one that some action supersedes. |
| Admission.ZypperRollbackIsExact | nvidia_converge/preflight.py:2311-2410 | With one version per slot and no change of architecture it does so if and only if every displaced package is removed or its slot is upgraded or downgraded. |
| Admission.ArchitectureChangeLosesBaseline | nvidia_converge/preflight.py:2300-2410 | An accepted change of architecture can lose a baseline package. |
| Admission.InstallationLeavesOccupant | nvidia_converge/preflight.py:2311-2410 | An accepted installation into an occupied slot can leave the version it should displace. |
| Admission.DnfForwardError | nvidia_converge/preflight.py:1900-1944 | Accepts exactly transactions within the plan: allowed names, audited removals with replacements, every target acted on. |
| Admission.AptForwardError | nvidia_converge/preflight.py:1729-1796 | The same for simulated APT output with truthful replacements. |
| Admission.ZypperForwardError | nvidia_converge/preflight.py:2044-2115 | The same for Zypper's actions, refusing every change of architecture. |
| Admission.WithinPlanConservesSlots | nvidia_converge/preflight.py:1900-1944 | A DNF transaction within the plan keeps every slot populated, changes only allowed packages and installs every target. |
| Admission.AptForwardConservesSlots | nvidia_converge/preflight.py:1729-1796 | So does an accepted APT transaction. |
| Admission.ZypperForwardConservesSlots | nvidia_converge/preflight.py:2044-2115 | So does an accepted Zypper transaction, whatever its changes replace. |
| Payloads.ValidatePackagePayloads | nvidia_converge/package_payloads.py:656-796 | Accepts exactly valid bundles: manifest one-to-one with both sides, files exactly the manifest's, digests, sizes, headers, signers and the total right; the paths are those of the manifest. |
| Payloads.ValidateEntries | nvidia_converge/package_payloads.py:726-775 | The entry loop accepts exactly if every entry is right and the sizes fit the limit. |
| Payloads.ValidBundleHoldsBaseline | nvidia_converge/package_payloads.py:656-796 | A valid bundle has, for every baseline package, a file whose header names it. |
| PayloadStaging.StagePackagePayloads | nvidia_converge/package_payloads.py:316-653 | Whatever is downloaded: a normal return has published a bundle that validation accepts, after downloading every requested package in exactly one batch; a failure leaves what was published before, unless the discarding fails too. |
| PayloadStaging.AssembleBundle | nvidia_converge/package_payloads.py:332-611 | Everything before publication establishes what validation demands. |
| PayloadStaging.MergeRequests | nvidia_converge/package_payloads.py:334-344 | One request for each package, with exactly the sides that want it. |
| PayloadStaging.BatchesPartition | nvidia_converge/package_payloads.py:376-400 | The two batches are disjoint and cover the request. |
| PayloadStaging.InspectBatch | nvidia_converge/package_payloads.py:458-528 | The payload files of a batch are one-to-one with the packages asked for, by their own headers. |
| PayloadStaging.MovePayload | nvidia_converge/package_payloads.py:535-598 | A moved payload makes one right entry under a new name and touches nothing else. |
| PayloadStaging.MoveAll | nvidia_converge/package_payloads.py:532-598 | All requests are moved, in order, with the roles of their sides and the total within the limit. |
| PayloadCleanup.RemoveTree | nvidia_converge/package_payloads.py:1399-1588 | Normal return removes exactly the named subtree, and only if it was small, shallow and trusted enough for the budget; without I/O faults it returns exactly then; on every exit only entries of the subtree are gone and at most one entry beyond the limit was visited. |
| PayloadCleanup.RemoveChildren | nvidia_converge/package_payloads.py:1535-1575 | The children are removed within the same budget, each acceptable. |
| PayloadCleanup.Budget.Consume | nvidia_converge/package_payloads.py:112-127 | The budget counts every entry and every file byte, and raises exactly beyond its limits. |
| PayloadCleanup.ChildFits | nvidia_converge/package_payloads.py:1505-1588 | If a directory fits the budget, so does each child after its removed siblings were paid for. |
| PayloadCleanup.EmptiedDirectoryFits | nvidia_converge/package_payloads.py:1505-1588 | A directory whose children were removed within the budget fits it as a whole. |
| PayloadCleanup.ScanFits | nvidia_converge/package_payloads.py:1536-1552 | The scan of a directory that fits stays within the entry limit. |
| SnapshotCleanup.CleanupSnapshotArtifacts | nvidia_converge/package_payloads.py:150-244 | Removes exactly the names derived from the snapshot's own, under one budget, and keeps everything else on every exit; without I/O faults it succeeds exactly if they all fit and, where it is to be kept, the bound pair is intact. |
| SnapshotCleanup.BoundPairIsKept | nvidia_converge/package_payloads.py:181-236 | A bound snapshot and everything in its bundle outlive the cleanup. |
| SnapshotCleanup.RemoveExactFile | nvidia_converge/package_payloads.py:1798-1821 | Removes one private regular file by its exact name, within the budget. |
| CommandLayout.ScriptReadsBack | nvidia_converge/dnf_transaction.py:322-340 | For all operand lists: the script reads back exactly the transaction the command was built from if no operand is a marker and no list repeats one, and refuses it otherwise. |
| CommandLayout.ScriptWordsAreUnambiguous | nvidia_converge/dnf_transaction.py:322-333 | The script's own marker and mode words meet what the layout needs of its words. |
| CommandLayout.AcceptedIsRebuilt | nvidia_converge/dnf_transaction.py:469-490 | What the script accepts is exactly what the builder would have written. |
| CommandLayout.ExtractorsReadBack | nvidia_converge/preflight.py:1269-1334 | The preflight extractors return the restore and removal lists of the DNF command. |
| CommandLayout.AptReadsBack | nvidia_converge/preflight.py:1269-1341 | Both lists of an APT rollback command are read back if and only if no path looks like an option or a removal and no removal like an option. |
| CommandLayout.ZypperReadsBack | nvidia_converge/preflight.py:1303-1355 | Both lists of a Zypper rollback command are read back if and only if no path looks like an option. |
| CommandLayout.ForwardReadsBack | nvidia_converge/preflight.py:948-986 | The payload paths and removals of a forward APT command are recovered if and only if no removal ends like a payload, and the command is refused otherwise. |
| UnloadOrder.ModuleUnloadOrder | nvidia_converge/module_safety.py:24-80 | An order is returned exactly if the holder closure of the loaded modules is known, observable and acyclic; it lists that closure once each, holders first. |
| UnloadOrder.Search.Visit | nvidia_converge/module_safety.py:45-72 | The search terminates although the loaded set grows, orders what it visits, and fails only if no order exists. |
| UnloadOrder.FinishedSearch | nvidia_converge/module_safety.py:74-80 | A finished search ordered exactly the closure, which therefore has no cycle. |
| ServiceGuard.Guard.Quiesce | nvidia_converge/gpu_safety.py:334-399 | Success means every unit was last seen stopped, and exactly the units found running are waiting; an exception at any point is raised again after the restore, with all invariants kept. |
| ServiceGuard.Guard.Requiesce | nvidia_converge/gpu_safety.py:278-331 | Success means every unit is stopped and waiting units equal the originally active ones. |
| ServiceGuard.Guard.Restore | nvidia_converge/gpu_safety.py:214-276 | True exactly if no restore error was ever recorded, and recorded ones stay; whatever it does is about selected units that were waiting; only these stop waiting, each last seen running; True means none of the selected still waits. |
| ServiceGuard.RestoreAgain | nvidia_converge/gpu_safety.py:214-276 | In any sequence of restores none returns True after one that did not. |
| ServiceGuard.LateRestoreFails | nvidia_converge/gpu_safety.py:272-276 | After a recorded error even a restore on an obedient host, which brings every waiting unit back, is not True. |
| ServiceGuard.RecoveredTooLate | nvidia_converge/gpu_safety.py:214-276 | Such a run from the gate on: the host refuses to start the unit, then recovers, and the second restore is complete and False. |
| ServiceGuard.Perform | nvidia_converge/gpu_safety.py:180-331 | After any sequence of restores, requiesces and handovers, on a host that changes its ways in between: every start was of a unit found running at the gate and not handed over, only such units wait, and recorded errors stay. |
| ServiceGuard.Guard.Relinquish | nvidia_converge/gpu_safety.py:207-212 | A relinquished unit is no longer the guard's, and never started again. |
| ServiceGuard.QuiesceThenRestore | nvidia_converge/gpu_safety.py:180-399 | On an obedient host the gate followed by a restore gives back exactly what was running. |
| ServiceGuard.RestoreAfterPhase | nvidia_converge/gpu_safety.py:214-331 | After a phase in which units came back on their own, exactly the originally active ones run. |
| MapsScan.ProcessMapsUseNvidia | nvidia_converge/gpu_safety.py:1962-2040 | The reading loop returns the answer and the exact byte count of the scan of its reads. |
| MapsScan.ScanRefinesFold | nvidia_converge/gpu_safety.py:1962-2040 | For every file, every cut into reads of at most 64 KiB and every ending, the scan answers exactly as the fold over the newline-split contents, or refuses a file beyond the byte limit. |
| MapsScan.CutsAgree | nvidia_converge/gpu_safety.py:1962-2040 | Up to the byte limit the answer does not depend on the cut at all, overlong records included. |
| MapsScan.AnswerMeans | nvidia_converge/gpu_safety.py:1962-2040 | A match is always some record of the map; without match or problem every byte was read and every record is harmless. |

## Left out

- Subprocesses, systemd, procfs, nvidia-smi and the package managers: nondeterministic answers, except where an obedient host or GPU is named.
- Ownership, mode and link checks of `files.py` and `locking.py`, file descriptors and metadata fingerprints: kept only as the guard of an entry and as operations that may fail.
- Parsing of text, XML and JSON into records, regular expressions, and the wording of findings and reports.
- `report.findings`, results and verifications of a run: kept as whether they are all good and whether a kept error exists.
- RunSteps.Run.Mutate: the admission of disk capacity and the reporting around a journal failure are one nondeterministic failure.
- RunSteps.CommitLaunchers: the launcher commit is one step of a run here, which is sound, fails with a finding, or fails silently; its own protocol is the launcher modules'.
- OperationRun.Verify: the operation's own work is one phase of commands between its checks; a diagnosis is clean or not, and clean only with docker.service running. Marking interrupted operations as recovered is left out.
- ServiceGuard.Guard.Restore: exceptions inside a restore or a requiesce are not modelled, only those of the gate.
- LauncherProtocol.CommitServiceActivity: the journal failure that masks launchers in the middle of a command (cli.py 391-430) is modelled in `RunSteps`, not here; the guard's requiesce is one event; process identity is followed from the last start, because the socket may start the daemon by itself.
- Doctor.DiagnosisIsExact: the source appends findings to one list branch by branch; here the branches are an ordered list of conditions, and the evidence and texts are not kept.
- InstallRun.Converge: the plan's parts that may have nothing to do are flags of `Planned`; what a phase commands is `Planner`'s and `FixedPoint`'s.
- MapsScan.ProcessMapsUseNvidia: opening the map and reading the fields of a record are parameters; the refusals of empty and overlong records are not.
- Planner.MakePlan: commands inside the actions are kept as what they do; release and kernel-name tables are flags of the audit.
- FixedPoint.OnePassFixedPoint: the obedient host has no MIG instances while MIG is disabled (`Plausible`), applies MIG modes at once (the reboot boundary is `Mig`'s), and installing Docker's package neither starts nor enables it; its solver acts on exactly the targets that are not up to date, and every driver package in the repositories brings the same module.
- PayloadCleanup.RemoveTree: one method for the strict removal and for discarding a private staging root, which differ in the metadata they demand; children are taken in any order, which covers the sorted one.
- UnloadOrder.ModuleUnloadOrder: modules are taken in any order, which covers the sorted one.
- PayloadStaging.StagePackagePayloads: download size plans and free-space reserves only ever refuse, and are part of the nondeterministic failures.
- CommandLayout.ForwardReadsBack: takes the removals as the sorted list without repetitions; sorting itself is not modelled, and the branches of the extractors for plain dnf and yum commands are left out.
- Admission.AptForwardError: the closure of allowed names and the target names are sets of the plan; the name rules that produce them are not modelled.
- The APT pin-policy checker, `lock` preflights, the DNF module transaction, and the embedded scripts beyond their argument parse: the same set reasoning on smaller sets.
- SHA-256 and package headers are functions of the bytes; nothing is assumed of the digest but its shape.
- `human.py`, `support.py`, argument parsing, the desired-state reader, CUDA compatibility tables, the C probe and packaging.
