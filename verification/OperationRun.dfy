/** The other applied commands, verification, policy lock and rollback, and what their exit status says. */
module OperationRun {
  import opened Outcomes
  import opened RunModel
  import opened RunSteps

  /** A snapshot is bound; `ready` says that the checks on the quarantined host passed. */
  predicate Prepared(v: View, ready: bool) {
    v == if ready then Next(Next(NOTHING, Bound), Cleared(Packages)) else Next(NOTHING, Bound)
  }

  /** Bind a snapshot: a new one of the untouched host, or the one to roll back to. */
  method BindSnapshot(run: Run) returns (o: Outcome<bool>)
    requires run.s == START
    modifies run
    ensures run.s.Valid()
    ensures o == Returned(true) ==> Prepared(run.s.view, false) && run.s.log != [] && Spotless(run.s)
    ensures run.env.calm ==> o == Returned(true)
  {
    var persisted :- run.Observe();
    if !persisted { return Returned(false); }
    var _ :- run.Journal();
    run.Emit(Bound);
    return Returned(true);
  }

  /** The maintenance gate: trusted services stop and no unaccepted workload is left, or everything is quarantined. */
  method Gate(run: Run) returns (o: Outcome<bool>)
    requires run.s.Valid() && Prepared(run.s.view, false)
    modifies run
    ensures Grew(old(run.s), run.s)
    ensures o == Returned(true) ==> run.s.view == old(run.s).view && SameReport(old(run.s), run.s)
    ensures o == Returned(true) ==> run.s.failed == old(run.s).failed
    ensures run.env.calm ==> o == Returned(true)
  {
    var gated :- run.Checkpoint();
    if !gated { var quarantined :- run.Quarantine(); }
    return Returned(gated);
  }

  /** The checkpoint before the first change, and all checks again on a fresh audit. */
  method Prepare(run: Run) returns (o: Outcome<bool>)
    requires run.s.Valid() && Prepared(run.s.view, false)
    modifies run
    ensures Grew(old(run.s), run.s) && (o.Returned? ==> Prepared(run.s.view, o.value))
    ensures o == Returned(true) ==> SameReport(old(run.s), run.s) && run.s.failed == old(run.s).failed
    ensures run.env.calm ==> o == Returned(true)
  {
    var quiesced :- run.Checkpoint();
    if !quiesced { return Returned(false); }
    var resolves :- Recheck(run);
    if !resolves { return Returned(false); }
    run.Emit(Cleared(Packages));
    return Returned(true);
  }

  /** How the release of an operation went: the launchers were committed to its target, or not. */
  ghost predicate ReleasedTo(s: State, t: State, core: bool, ok: bool) {
    && !t.view.end.intruded && (core <==> t.view.operationAuthorized) && t.checksOk == s.checksOk
    && (ok <==> t.view.end.achieved) && (ok ==> core && SameReport(s, t) && !t.view.end.unexplained)
    && (!ok ==> t.keptError || t.view.end.fenced)
    && (!ok && core ==> t.keptError || t.view.end.unexplained)
  }

  /** Commit the launchers to the operation's target if its core was verified, and quarantine them otherwise. */
  method Release(run: Run, core: bool) returns (o: Outcome<bool>)
    requires run.s.Valid() && (Prepared(run.s.view, true) || (!core && Prepared(run.s.view, false)))
    modifies run
    ensures Grew(old(run.s), run.s)
    ensures o.Returned? ==> ReleasedTo(old(run.s), run.s, core, o.value)
    ensures run.env.calm && core ==> AsFated(old(run.s), run.s, run.env.fate, o)
  {
    if core {
      o := CommitOperation(run);
    } else {
      var quarantined :- run.Quarantine();
      o := Returned(false);
    }
  }

  method CommitOperation(run: Run) returns (o: Outcome<bool>)
    requires run.s.Valid() && Prepared(run.s.view, true)
    modifies run
    ensures Grew(old(run.s), run.s)
    ensures o.Returned? ==> ReleasedTo(old(run.s), run.s, true, o.value)
    ensures run.env.calm ==> AsFated(old(run.s), run.s, run.env.fate, o)
  {
    var _ :- run.Journal();
    run.Authorize(OperationTarget);
    o := CommitLaunchers(run, OperationTarget);
  }

  // ----- verification

  /** Prepare the module where the checks passed, and verify the core of the stack. */
  method VerifyCore(run: Run, ready: bool) returns (o: Outcome<bool>)
    requires run.s.Valid() && Prepared(run.s.view, ready)
    modifies run
    ensures Grew(old(run.s), run.s) && run.s.view == old(run.s).view
    ensures o == Returned(true) ==> ready && SameReport(old(run.s), run.s)
    ensures run.env.calm ==> o == Returned(ready)
  {
    if !ready { return Returned(false); }
    var worked :- run.Apply();
    var prepared := run.Check();
    if !worked || !prepared { return Returned(false); }
    var bounded :- run.Observe();
    if !bounded { return Returned(false); }
    var core := run.Check();
    return Returned(core);
  }

  /** The verification behind its gate. The command results do not count for its status. */
  method VerifyGated(run: Run) returns (o: Outcome<int>)
    requires run.s.Valid() && Prepared(run.s.view, false)
    modifies run
    ensures Grew(old(run.s), run.s)
    ensures o == Returned(0) ==> run.s.checksOk && !run.s.keptError && run.s.EndsWith(DockerSeen)
    ensures o == Returned(0) ==> run.s.view.end.achieved || (run.s.view.end.intruded && !run.env.alone)
    ensures run.env.calm && run.env.fate == Silent && !run.env.alone && run.env.dockerReturns
            && Spotless(old(run.s)) ==>
              o == Returned(0) && !run.s.view.end.achieved
  {
    var ready :- Prepare(run);
    var core :- VerifyCore(run, ready);
    var restored :- Release(run, core);
    o := VerifyReleased(run, restored);
  }

  /** Workloads on the released launchers, or nothing more than the guard's services stopped; then the last audit. */
  method VerifyReleased(run: Run, restored: bool) returns (o: Outcome<int>)
    requires run.s.Valid() && run.s.view.bound && !run.s.view.end.intruded && (restored <==> run.s.view.end.achieved)
    requires !restored ==> run.s.keptError || run.s.view.end.fenced
    modifies run
    ensures Grew(old(run.s), run.s) && run.s.view.end.achieved == restored
    ensures o == Returned(0) ==> run.s.checksOk && !run.s.keptError && run.s.EndsWith(DockerSeen)
    ensures o == Returned(0) ==> restored || (run.s.view.end.intruded && !run.env.alone)
    ensures run.env.calm && !run.env.alone && run.env.dockerReturns && old(run.s).checksOk && !old(run.s).keptError ==>
              o == Returned(0)
  {
    if restored { var workloads := run.Check(); } else { var _ :- run.RecordQuiesced(); }
    var clean :- run.Diagnose();
    return Returned(if run.s.checksOk && !run.s.keptError && clean then 0 else 2);
  }

  method VerifyBound(run: Run) returns (o: Outcome<int>)
    requires run.s == START
    modifies run
    ensures run.s.Valid()
    ensures o == Returned(0) ==> run.s.checksOk && !run.s.keptError && run.s.EndsWith(DockerSeen)
    ensures o == Returned(0) ==> run.s.view.end.achieved || (run.s.view.end.intruded && !run.env.alone)
    ensures run.env.calm && run.env.fate == Silent && !run.env.alone && run.env.dockerReturns ==>
              o == Returned(0) && !run.s.view.end.achieved
  {
    var bound :- BindSnapshot(run);
    if !bound { return Returned(2); }
    var restorable :- run.Observe();
    if !restorable { return Returned(2); }
    var gated :- Gate(run);
    if !gated { return Returned(2); }
    o := VerifyGated(run);
  }

  /** An applied verification. Status 0 means that its launchers were committed to their target, or that docker.service
      was seen running behind the fence of a commit that failed, which needs someone else to start it. */
  method Verify(run: Run) returns (o: Outcome<int>)
    requires run.s == START
    modifies run
    ensures run.s.Valid() && Safe(run.s.log)
    ensures o == Returned(0) ==> run.s.checksOk && !run.s.keptError && run.s.EndsWith(DockerSeen)
    ensures o == Returned(0) ==> CommittedTo(run.s.log, OperationTarget) || (Intruded(run.s.log) && !run.env.alone)
    ensures run.env.calm && run.env.fate == Silent && !run.env.alone && run.env.dockerReturns ==>
              o == Returned(0) && !CommittedTo(run.s.log, OperationTarget)
  {
    o := VerifyBound(run);
    ValidIsSafe(run.s);
    RunEnded(run.s);
  }

  // ----- policy lock

  /** What the observed package policy calls for. */
  datatype Plan = Refused | Settled | Changes

  /** Change the policy where the checks passed, and see that nothing is left to change. */
  method ApplyPolicy(run: Run, ready: bool) returns (o: Outcome<bool>)
    requires run.s.Valid() && Prepared(run.s.view, ready)
    modifies run
    ensures Grew(old(run.s), run.s) && run.s.view == old(run.s).view
    ensures o == Returned(true) ==> ready && SameReport(old(run.s), run.s)
    ensures o == Returned(false) ==> !run.s.checksOk
    ensures run.env.calm ==> o == Returned(ready) && (ready ==> run.s.failed == old(run.s).failed)
  {
    var changed := ready;
    if ready { changed :- run.Apply(); }
    if changed { changed :- run.Observe(); }
    var settled := run.Check();
    settled := settled && changed;
    run.Record(settled);
    return Returned(settled);
  }

  /** What status 0 of a lock that had something to change says: the policy is settled and its release authorized, and
      the launchers were committed exactly if no finding and no unexplained failure says otherwise. */
  ghost predicate Locked(s: State) {
    && s.CommandsOk() && s.checksOk && s.view.operationAuthorized && s.log != []
    && (s.view.end.achieved <==> !s.keptError && !s.view.end.unexplained)
    && (!s.view.end.achieved ==> s.keptError || s.view.end.fenced)
  }

  /** The lock behind its gate. The findings of a failed launcher commit do not count for its status. */
  method LockGated(run: Run) returns (o: Outcome<int>)
    requires run.s.Valid() && Prepared(run.s.view, false) && Spotless(run.s)
    modifies run
    ensures Grew(old(run.s), run.s) && (o == Returned(0) && run.env.alone ==> !run.s.view.end.intruded)
    ensures o == Returned(0) ==> Locked(run.s)
    ensures run.env.calm ==> o == Returned(0) && (run.s.view.end.achieved <==> run.env.fate == Sound)
  {
    var ready :- Prepare(run);
    var settled :- ApplyPolicy(run, ready);
    var restored :- Release(run, settled);
    ghost var released := run.s;
    o := LockReleased(run, restored);
    if o.Returned? { LastLookKeeps(released, run.s); }
  }

  /** The last audit, between s and t: it may have seen docker.service. */
  ghost predicate LastLook(s: State, t: State) {
    && t.checksOk == s.checksOk && (s.keptError ==> t.keptError) && s.failed <= t.failed
    && (t.view == s.view || t.view == Next(s.view, DockerSeen))
  }

  lemma LastLookKeeps(s: State, t: State)
    requires LastLook(s, t)
    ensures SameEnd(s.view, t.view) && t.view.end.fenced == s.view.end.fenced
    ensures t.view.operationAuthorized == s.view.operationAuthorized
    ensures t.view.end.intruded ==> s.view.end.intruded || s.view.end.fenced
  {
  }

  /** The guard's services stopped where nothing was committed, then the last audit. */
  method LockReleased(run: Run, restored: bool) returns (o: Outcome<int>)
    requires run.s.Valid() && run.s.view.bound && !run.s.view.end.intruded
    modifies run
    ensures Grew(old(run.s), run.s) && (o.Returned? ==> LastLook(old(run.s), run.s))
    ensures o.Returned? && restored ==> run.s.keptError == old(run.s).keptError
    ensures o == Returned(0) ==> run.s.CommandsOk() && run.s.checksOk
    ensures o == Returned(0) && run.env.alone ==> !run.s.view.end.intruded
    ensures run.env.calm ==> o == Returned(if old(run.s).CommandsOk() && old(run.s).checksOk then 0 else 2)
  {
    if !restored { var _ :- run.RecordQuiesced(); }
    var clean :- run.Diagnose();
    return Returned(if run.s.CommandsOk() && run.s.checksOk then 0 else 2);
  }

  method LockPlanned(run: Run) returns (o: Outcome<int>)
    requires run.s == START
    modifies run
    ensures run.s.Valid() && (o == Returned(0) && run.env.alone ==> !run.s.view.end.intruded)
    ensures o == Returned(0) ==> run.s == START || Locked(run.s)
    ensures run.env.calm ==>
              && o == Returned(0) && run.s.log != [] && (run.s.view.end.achieved <==> run.env.fate == Sound)
  {
    var resolves :- run.Observe();
    if !resolves { return Returned(2); }
    var bound :- BindSnapshot(run);
    if !bound { return Returned(2); }
    var restorable :- run.Observe();
    if !restorable { return Returned(2); }
    var gated :- Gate(run);
    if !gated { return Returned(2); }
    o := LockGated(run);
  }

  method PlanLock(run: Run) returns (plan: Plan)
    ensures run.env.calm ==> plan == Changes
  {
    plan := *;
    if run.env.calm { plan := Changes; }
  }

  /** An applied policy lock. Status 0 means that nothing was to be changed and nothing was done, or that the policy is
      settled and its release authorized; only then the findings tell whether the launchers were committed. */
  method Lock(run: Run) returns (o: Outcome<int>)
    requires run.s == START
    modifies run
    ensures run.s.Valid() && Safe(run.s.log)
    ensures o == Returned(0) && run.s.log != [] ==>
              && run.s.CommandsOk() && run.s.checksOk && Authorized(OperationTarget) in run.s.log
              && (CommittedTo(run.s.log, OperationTarget) <==> !run.s.keptError && Unexplained !in run.s.log)
              && (!CommittedTo(run.s.log, OperationTarget) ==> run.s.keptError || EndsFenced(run.s.log))
    ensures o == Returned(0) && run.s.log != [] && run.env.alone && run.s.EndsWith(DockerSeen) && !run.s.keptError ==>
              CommittedTo(run.s.log, OperationTarget)
    ensures run.env.calm ==>
              && o == Returned(0) && run.s.log != []
              && (CommittedTo(run.s.log, OperationTarget) <==> run.env.fate == Sound)
  {
    var plan := PlanLock(run);
    if plan == Changes {
      o := LockPlanned(run);
    } else {
      o := Returned(if plan == Settled then 0 else 2);
    }
    ValidIsSafe(run.s);
    RunEnded(run.s);
    if run.s.EndsWith(DockerSeen) && run.s.view.end.fenced { SeenBehindFence(run.s); }
  }

  // ----- rollback

  /** The rollback behind its gate and its checks: its commands, the core it restored, and the release. */
  method RollbackPrepared(run: Run) returns (o: Outcome<int>)
    requires run.s.Valid() && Prepared(run.s.view, true) && Spotless(run.s)
    modifies run
    ensures Grew(old(run.s), run.s)
    ensures o == Returned(0) ==> RolledBack(run.s)
    ensures run.env.calm && run.env.fate == Silent ==> o == Returned(0) && !run.s.view.end.achieved
  {
    var applied :- run.Apply();
    var core := false;
    if applied { core := run.Check(); }
    if core {
      var restored :- Release(run, true);
      if restored { var full := run.Check(); } else { var _ :- run.RecordQuiesced(); }
    } else {
      run.Report(applied);
      var quiesced :- run.Checkpoint();
    }
    return Returned(if Spotless(run.s) then 0 else 2);
  }

  /** What status 0 of a rollback says. */
  ghost predicate RolledBack(s: State) {
    && Spotless(s) && s.view.operationAuthorized && (s.view.end.achieved <==> !s.view.end.unexplained)
    && (!s.view.end.achieved ==> s.view.end.fenced)
  }

  method RollbackBound(run: Run) returns (o: Outcome<int>)
    requires run.s == START
    modifies run
    ensures run.s.Valid()
    ensures o == Returned(0) ==> RolledBack(run.s)
    ensures run.env.calm && run.env.fate == Silent ==> o == Returned(0) && !run.s.view.end.achieved
  {
    var resolves :- run.Observe();
    if !resolves { return Returned(2); }
    var bound :- BindSnapshot(run);
    if !bound { return Returned(2); }
    var gated :- Gate(run);
    if !gated { return Returned(2); }
    var ready :- Prepare(run);
    if !ready { return Returned(2); }
    o := RollbackPrepared(run);
  }

  /** An applied rollback. Status 0 means that the restored core was verified and its release authorized, and that the
      launchers were committed, unless the commit failed without a finding; then they are fenced. */
  method Rollback(run: Run) returns (o: Outcome<int>)
    requires run.s == START
    modifies run
    ensures run.s.Valid() && Safe(run.s.log)
    ensures o == Returned(0) ==>
              && Spotless(run.s) && Authorized(OperationTarget) in run.s.log
              && (CommittedTo(run.s.log, OperationTarget) <==> Unexplained !in run.s.log)
              && (!CommittedTo(run.s.log, OperationTarget) ==> EndsFenced(run.s.log))
    ensures run.env.calm && run.env.fate == Silent ==> o == Returned(0) && !CommittedTo(run.s.log, OperationTarget)
  {
    o := RollbackBound(run);
    ValidIsSafe(run.s);
    RunEnded(run.s);
  }

  // ----- runs with status 0 and no commit

  /** The launcher commit of a lock finds its target missed, quarantines everything, and the lock exits 0. */
  method LockWithoutCommit() returns (run: Run, o: Outcome<int>)
    ensures fresh(run) && run.s.Valid() && o == Returned(0)
    ensures Authorized(OperationTarget) in run.s.log && !CommittedTo(run.s.log, OperationTarget)
  {
    run := new Run(Environment(true, Found, true, false));
    o := Lock(run);
  }

  /** docker.socket cannot be observed during the launcher commit of a rollback, and the rollback exits 0. */
  method RollbackWithoutCommit() returns (run: Run, o: Outcome<int>)
    ensures fresh(run) && run.s.Valid() && o == Returned(0)
    ensures !CommittedTo(run.s.log, OperationTarget) && EndsFenced(run.s.log)
  {
    run := new Run(Environment(true, Silent, true, false));
    o := Rollback(run);
  }

  /** The same of a verification, and someone starts docker.service before its last audit. */
  method VerifyWithoutCommit() returns (run: Run, o: Outcome<int>)
    ensures fresh(run) && run.s.Valid() && o == Returned(0)
    ensures !CommittedTo(run.s.log, OperationTarget) && Intruded(run.s.log)
  {
    run := new Run(Environment(true, Silent, false, true));
    o := Verify(run);
  }
}
