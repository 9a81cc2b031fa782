/** An applied installation, phase by phase, with its compensation. */
module InstallRun {
  import opened Outcomes
  import opened RunModel
  import opened RunSteps

  // ----- an installation, phase by phase

  /** Which parts of the plan have anything to do. */
  datatype Planned = Planned(packages: bool, modul: bool, mig: bool, docker: bool) {
    predicate NeedsCheckpoint() { packages || modul || mig || docker }
  }

  /** The run so far: bound, no phase beyond a rank begun, and going on exactly if nothing has failed. */
  ghost predicate Going(v: View, rank: nat, on: bool) {
    && v.bound && v.rank <= rank && on == !v.stopped
    && !v.coreVerified && !v.installAuthorized && !v.baselineAuthorized && !v.operationAuthorized && !v.released
         && !v.committed && !v.compensated
  }

  /** Plan, check the workloads, preflight, stage, and persist and bind the snapshot; False ends the run with status
      2. */
  method OpenInstall(run: Run) returns (o: Outcome<bool>)
    requires run.s == START
    modifies run
    ensures Grew(old(run.s), run.s) && !run.s.mutating
    ensures o.Returned? && o.value ==> run.s.view == NOTHING.(bound := true)
  {
    var planned :- run.Observe();
    if !planned { return Returned(false); }
    var unoccupied :- run.Observe();
    if !unoccupied { return Returned(false); }
    var replanned :- run.Observe();
    if !replanned { return Returned(false); }
    var resolved :- run.Observe();
    if !resolved { return Returned(false); }
    var persisted :- run.Observe();
    if !persisted { return Returned(false); }
    run.Emit(Bound);
    o := CheckAgainstSnapshot(run);
  }

  /** What is checked between the binding and the first change. */
  method CheckAgainstSnapshot(run: Run) returns (o: Outcome<bool>)
    requires run.s.Valid()
    modifies run
    ensures Grew(old(run.s), run.s) && run.s.view == old(run.s).view && run.s.mutating == old(run.s).mutating
  {
    var bound :- run.Observe();
    if !bound { return Returned(false); }
    var forwardResolves :- run.Observe();
    if !forwardResolves { return Returned(false); }
    o := run.Observe();
  }

  /** Stop and mask every launcher for the first time, and check everything again on a fresh audit. */
  method QuarantineFirst(run: Run) returns (o: Outcome<bool>)
    requires run.s.Valid() && run.s.view == NOTHING.(bound := true)
    modifies run
    ensures Grew(old(run.s), run.s)
    ensures o.Returned? ==> Going(run.s.view, 0, o.value)
    ensures o == Returned(true) ==> run.s.view.cleared && !run.s.view.checkpointed
  {
    var gated :- run.Checkpoint();
    var ok := gated;
    if gated {
      ok :- run.Checkpoint();
      if ok { ok :- Recheck(run); }
    } else {
      var quarantined :- run.Checkpoint();
    }
    ok := ok && run.s.CommandsOk();
    if ok { ok :- run.Observe(); }
    if ok { run.Emit(Cleared(Packages)); } else { run.Fail(); }
    return Returned(ok);
  }

  /** The package transactions, and the checkpoint after them. */
  method InstallPackages(run: Run, plan: Planned) returns (o: Outcome<bool>)
    requires run.s.Valid() && Going(run.s.view, 0, true) && run.s.view.cleared && !run.s.view.checkpointed
    modifies run
    ensures Grew(old(run.s), run.s)
    ensures o.Returned? ==> Going(run.s.view, 1, o.value)
    ensures o == Returned(true) && plan.NeedsCheckpoint() ==> run.s.view.checkpointed
  {
    var ok := true;
    if plan.packages { ok :- run.Advance(Packages); }
    if ok && plan.NeedsCheckpoint() {
      ok :- run.Checkpoint();
      if ok { ok :- run.Observe(); }
      if ok { run.Emit(Cleared(ModuleStack)); }
    }
    if !ok { run.Fail(); }
    return Returned(ok);
  }

  /** Whether the phases succeeded so far, the module is ready, and a reboot is awaited for the module or for MIG. */
  datatype Flags = Flags(succeeded: bool, ready: bool, modulePending: bool, migPending: bool) {
    predicate On() { succeeded && ready && !modulePending && !migPending }

    /** A module that is not ready has failed the phase or waits for a reboot. */
    ghost predicate Sound() { modulePending <==> succeeded && !ready }
  }

  /** Tear down MIG instances if the module is to be reset, then load the module on disk. */
  method PrepareModule(run: Run) returns (o: Outcome<Flags>)
    requires run.s.Valid() && Going(run.s.view, 1, true) && run.s.view.checkpointed
    modifies run
    ensures Grew(old(run.s), run.s)
    ensures o.Returned? ==> o.value.Sound() && !o.value.migPending && Going(run.s.view, 3, o.value.On())
  {
    var succeeded :- run.Observe();
    if succeeded { succeeded :- run.Advance(Teardown); }
    if !succeeded {
      run.Fail();
      return Returned(Flags(false, true, false, false));
    }
    var loaded :- run.Advance(ModuleStack);
    var ready :- run.Observe();
    ready := ready && loaded;
    if ready { return Returned(Flags(true, true, false, false)); }
    var afterReboot: bool := *;
    run.Emit(if afterReboot then Pending else Failure);
    return Returned(Flags(afterReboot, false, afterReboot, false));
  }

  /** Reconcile MIG from a fresh audit, unless a phase failed or the module is not ready. */
  method ReconcileMig(run: Run, planned: bool, f: Flags) returns (o: Outcome<Flags>)
    requires run.s.Valid() && Going(run.s.view, 3, f.On()) && f.Sound() && !f.migPending
    requires planned && f.On() ==> run.s.view.checkpointed
    modifies run
    ensures Grew(old(run.s), run.s)
    ensures o.Returned? ==> o.value.Sound() && Going(run.s.view, 4, o.value.On())
  {
    if !(f.succeeded && f.ready) { return Returned(f); }
    o := ReconcileReady(run, planned);
  }

  method ReconcileReady(run: Run, planned: bool) returns (o: Outcome<Flags>)
    requires run.s.Valid() && Going(run.s.view, 3, true) && (planned ==> run.s.view.checkpointed)
    modifies run
    ensures Grew(old(run.s), run.s)
    ensures o.Returned? ==> o.value.Sound() && Going(run.s.view, 4, o.value.On())
  {
    var actions, pending := false, false;
    var succeeded :- run.Observe();
    if succeeded && planned {
      succeeded :- run.Observe();
      actions, pending := *, *;
    }
    if succeeded && actions {
      succeeded :- run.Advance(MigMode);
      pending := *;
    }
    EndPhase(run, succeeded, pending, 4);
    return Returned(Flags(succeeded, true, false, pending));
  }

  /** A phase ends, failed or waiting for a reboot if need be. */
  method EndPhase(run: Run, succeeded: bool, pending: bool, rank: nat)
    requires run.s.Valid() && Going(run.s.view, rank, true)
    modifies run
    ensures Grew(old(run.s), run.s) && Going(run.s.view, rank, succeeded && !pending)
    ensures succeeded && !pending ==> run.s == old(run.s)
  {
    if !succeeded { run.Fail(); } else if pending { run.Emit(Pending); }
  }

  /** Configure the container runtime, unless a phase failed or a reboot is awaited. */
  method ConfigureDocker(run: Run, planned: bool, f: Flags) returns (o: Outcome<Flags>)
    requires run.s.Valid() && Going(run.s.view, 4, f.On()) && f.Sound()
    requires planned && f.On() ==> run.s.view.checkpointed
    modifies run
    ensures Grew(old(run.s), run.s)
    ensures o.Returned? ==> Going(run.s.view, 5, o.value.On())
  {
    var succeeded := f.succeeded;
    if f.succeeded && f.ready && !f.modulePending && !f.migPending && planned {
      succeeded :- run.Advance(DockerRuntime);
      if succeeded { succeeded :- run.Observe(); }
      if !succeeded { run.Fail(); }
    }
    return Returned(f.(succeeded := succeeded));
  }

  /** Everything between the quarantine and the verification of the installed state. */
  method Converge(run: Run, plan: Planned) returns (o: Outcome<bool>)
    requires run.s.Valid() && Going(run.s.view, 0, true) && run.s.view.cleared && !run.s.view.checkpointed
    modifies run
    ensures Grew(old(run.s), run.s)
    ensures o.Returned? ==> run.s.view.bound && if o.value then Going(run.s.view, 5, true) else run.s.view.stopped
  {
    var installed :- InstallPackages(run, plan);
    var f := Flags(installed, true, false, false);
    if f.succeeded && plan.modul { f :- PrepareModule(run); }
    f :- ReconcileMig(run, plan.mig, f);
    f :- ConfigureDocker(run, plan.docker, f);
    return Returned(f.On());
  }

  // ----- release and compensation

  /** Verification workloads on the released launchers; their checks go into the report. */
  method VerifyWorkloads(run: Run) returns (o: Outcome<bool>)
    requires run.s.Valid() && run.s.view.bound
    modifies run
    ensures Grew(old(run.s), run.s) && run.s.view == old(run.s).view
    ensures o.Returned? && !o.value ==> !run.s.checksOk
  {
    var ran :- run.ProbeWorkloads();
    var ok: bool := *;
    run.Record(ok);
    return Returned(ok);
  }

  /** Verify the core of the installed state, and let the journal authorize the release of launchers. */
  method AuthorizeInstalled(run: Run) returns (o: Outcome<bool>)
    requires run.s.Valid() && Going(run.s.view, 5, true)
    modifies run
    ensures Grew(old(run.s), run.s)
    ensures o.Returned? ==> run.s.view == old(run.s).view.(coreVerified := o.value, installAuthorized := o.value)
  {
    var bounded :- run.Observe();
    if !bounded { return Returned(false); }
    var coreVerified :- run.Observe();
    if !coreVerified { return Returned(false); }
    var _ :- run.Journal();
    run.Authorize(InstallTarget);
    return Returned(true);
  }

  /** Commit the launchers to the installed state and verify workloads on them.
      True: the transition reached its final verification. */
  method ReleaseInstalled(run: Run) returns (o: Outcome<bool>)
    requires run.s.Valid() && Going(run.s.view, 5, true)
    modifies run
    ensures Grew(old(run.s), run.s)
    ensures o.Returned? ==> !run.s.view.stopped && !run.s.view.compensated
    ensures o.Returned? && o.value ==> run.s.view.committed && run.s.view.coreVerified
  {
    var authorized :- AuthorizeInstalled(run);
    if !authorized { return Returned(false); }
    var committed :- CommitLaunchers(run, InstallTarget);
    if !committed { return Returned(false); }
    var fabric :- VerifyWorkloads(run);
    if !fabric { return Returned(false); }
    var docker :- VerifyWorkloads(run);
    return Returned(true);
  }

  /** Quarantine, then apply the rollback of the bound snapshot; True if its commands succeeded. */
  method Compensate(run: Run) returns (o: Outcome<bool>)
    requires run.s.Valid() && run.s.view.bound && run.s.view.stopped
    modifies run
    ensures Grew(old(run.s), run.s)
    ensures o.Returned? && o.value ==> run.s.view.compensated
  {
    var ready :- run.Checkpoint();
    if !ready { return Returned(false); }
    var first :- run.Mutate(Compensated);
    if !first { return Returned(false); }
    o := run.Commands(Compensated);
  }

  /** Verify the compensation, and release the launchers to the baseline only if it holds. */
  method ReleaseBaseline(run: Run) returns (o: Outcome<()>)
    requires run.s.Valid() && run.s.view.bound && run.s.view.compensated
    modifies run
    ensures Grew(old(run.s), run.s)
  {
    var coreVerified :- run.Observe();
    if !coreVerified {
      var quiesced :- run.Checkpoint();
      return Returned(());
    }
    var _ :- run.Journal();
    run.Emit(Authorized(Baseline));
    var committed :- CommitLaunchers(run, Baseline);
    if committed { var verified :- run.Observe(); }
    return Returned(());
  }

  /** Converge, release, and look at the result once more. True: nothing needs to be compensated. */
  method ConvergeAndRelease(run: Run, plan: Planned) returns (o: Outcome<bool>)
    requires run.s.Valid() && run.s.view == NOTHING.(bound := true)
    modifies run
    ensures Grew(old(run.s), run.s)
    ensures o.Returned? ==> run.s.view.bound
    ensures o == Returned(true) ==> run.s.view.committed && run.s.view.coreVerified && !run.s.view.stopped
  {
    var reached :- QuarantineFirst(run);
    if !reached { return Returned(false); }
    reached :- Converge(run, plan);
    if !reached { return Returned(false); }
    reached :- ReleaseInstalled(run);
    if !reached { return Returned(false); }
    o := run.Observe();
  }

  /** Everything from the first stop on: whatever does not get through is compensated. */
  method ApplyPlan(run: Run, plan: Planned) returns (o: Outcome<()>)
    requires run.s.Valid() && run.s.view == NOTHING.(bound := true)
    modifies run
    ensures Grew(old(run.s), run.s)
    ensures o.Returned? ==> run.s.keptError || (run.s.view.committed && run.s.view.coreVerified && !run.s.view.stopped)
  {
    var reached :- ConvergeAndRelease(run, plan);
    if reached { return Returned(()); }
    run.Report(true);
    run.Fail();
    var applied :- Compensate(run);
    if applied { var _ :- ReleaseBaseline(run); }
    return Returned(());
  }

  /** An applied installation. The status is 0 only if the launchers were committed to the installed state, nothing
      failed or waits for a reboot, nothing was compensated, and every command result, verification and final
      finding is good. */
  method Install(run: Run, plan: Planned) returns (o: Outcome<int>)
    requires run.s == START
    modifies run
    ensures run.s.Valid() && Safe(run.s.log)
    ensures o == Returned(0) ==> CommittedTo(run.s.log, InstallTarget)
    ensures o == Returned(0) ==> Failure !in run.s.log && Pending !in run.s.log && Compensated !in run.s.log
    ensures o == Returned(0) ==> Spotless(run.s) && run.s.EndsWith(DockerSeen)
  {
    o := InstallPlanned(run, plan);
    ValidIsSafe(run.s);
    InstallEnded(run.s);
  }

  method InstallPlanned(run: Run, plan: Planned) returns (o: Outcome<int>)
    requires run.s == START
    modifies run
    ensures run.s.Valid()
    ensures o == Returned(0) ==> run.s.view.committed && !run.s.view.stopped
    ensures o == Returned(0) ==> Spotless(run.s) && run.s.EndsWith(DockerSeen)
  {
    var begun :- OpenInstall(run);
    if !begun { return Returned(2); }
    var _ :- ApplyPlan(run, plan);
    var clean :- run.Diagnose();
    return Returned(if Spotless(run.s) && clean then 0 else 2);
  }
}
