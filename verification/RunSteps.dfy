/** The steps that all applied commands share: commands between their journal records, observations, checkpoints, and
    the launcher commit with its quarantine. Whatever a command, an audit or the journal does, the log stays safe. */
module RunSteps {
  import opened Outcomes
  import opened RunModel

  /** How a launcher commit goes: it is sound, it fails with a finding of its own, or it fails without one, because
      the activity of docker.socket is unknown or its final quarantine failed. */
  datatype Fate = Sound | Found | Silent

  /** On a calm host nothing goes wrong but what `fate` says of the launcher commit, and `dockerReturns` tells whether
      docker.service is running in the end. On a host that is alone nothing else ever starts docker.service. */
  datatype Environment = Environment(calm: bool, fate: Fate, alone: bool, dockerReturns: bool)

  class Run {
    const env: Environment
    var s: State

    constructor (env: Environment)
      ensures s == START && this.env == env
    {
      this.env := env;
      s := START;
    }

    method Emit(e: Event)
      requires s.Valid() && Legal(s.view, e)
      modifies this
      ensures Grew(old(s), s) && s.view == Next(old(s).view, e) && s.EndsWith(e)
      ensures SameReport(old(s), s) && SameCommands(old(s), s)
    {
      EventIsSafe(s, e);
      s := After(s, e);
    }

    /** An error finding; only some survive into the final report. */
    method Report(kept: bool)
      requires s.Valid()
      modifies this
      ensures Grew(old(s), s) && s.view == old(s).view && SameCommands(old(s), s)
      ensures s.checksOk == old(s).checksOk && s.keptError == (old(s).keptError || kept)
    {
      s := s.(keptError := s.keptError || kept);
    }

    /** The journal could not be written: once a host command was started, all launchers are masked. */
    method JournalFailed()
      requires s.Valid()
      modifies this
      ensures Grew(old(s), s) && s.view == old(s).view && SameReport(old(s), s) && SameCommands(old(s), s)
      ensures s.mutating ==> s.EndsWith(Emergency)
    {
      if s.mutating { Emit(Emergency); }
    }

    /** A journal record that no command depends on. */
    method Journal() returns (o: Outcome<()>)
      ensures env.calm ==> o.Returned?
    {
      var journaled: bool := *;
      return if journaled || env.calm then Returned(()) else Raised;
    }

    /** Run one command that changes the host, between its two journal records. */
    method Mutate(e: Event) returns (o: Outcome<bool>)
      requires s.Valid() && Mutates(e) && Legal(s.view, e)
      modifies this
      ensures Grew(old(s), s) && (s.view == old(s).view || s.view == Next(old(s).view, e)) && SameReport(old(s), s)
      ensures o.Returned? ==> s.view == Next(old(s).view, e) && s.EndsWith(e) && UpToFirstFailure(old(s), s, o.value)
      ensures o.Raised? && s.mutating ==> s.EndsWith(Emergency)
      ensures env.calm ==> o == Returned(true)
    {
      var started: bool, finished: bool, ok: bool := *, *, *;
      if !started && !env.calm {
        JournalFailed();
        return Raised;
      }
      ok := ok || env.calm;
      s := s.(mutating := true, failed := if ok then s.failed else s.failed + 1, lastFailed := !ok);
      Emit(e);
      if !finished && !env.calm {
        JournalFailed();
        return Raised;
      }
      return Returned(ok);
    }

    /** Run some commands of one kind, up to the first that fails. */
    method Commands(e: Event) returns (o: Outcome<bool>)
      requires s.Valid() && Mutates(e) && Legal(s.view, e)
      modifies this
      ensures Grew(old(s), s) && (s.view == old(s).view || s.view == Next(old(s).view, e)) && SameReport(old(s), s)
      ensures o.Returned? ==> UpToFirstFailure(old(s), s, o.value)
      ensures o == Returned(false) ==> s.EndsWith(e) && !s.CommandsOk()
      ensures o.Raised? && s.mutating ==> s.EndsWith(Emergency)
      ensures env.calm ==> o == Returned(true) && s.failed == old(s).failed
    {
      ghost var view := s.view;
      var left: int := *;
      while left > 0
        invariant Grew(old(s), s) && (s.view == view || s.view == Next(view, e)) && SameReport(old(s), s)
        invariant UpToFirstFailure(old(s), s, true)
      {
        LegalAgain(view, e);
        NextIsIdempotent(view, e);
        var ok :- Mutate(e);
        if !ok { return Returned(false); }
        left := left - 1;
      }
      return Returned(true);
    }

    /** Run the commands of one forward phase. */
    method Advance(p: Phase) returns (o: Outcome<bool>)
      requires s.Valid() && Legal(s.view, Forward(p))
      modifies this
      ensures Grew(old(s), s) && s.view == old(s).view.(rank := s.view.rank)
              && old(s).view.rank <= s.view.rank <= Rank(p) + 1
      ensures o.Returned? && !o.value ==> !s.CommandsOk()
    {
      ForwardMovesOn(s.view, p);
      o := Commands(Forward(p));
    }

    /** Release launchers, step by step. */
    method ReleaseSome(t: Target) returns (o: Outcome<bool>)
      requires s.Valid() && s.view.bound && MayRelease(s.view, t)
      modifies this
      ensures Grew(old(s), s) && SameReport(old(s), s) && MayRelease(s.view, t)
      ensures Through(old(s).view, s.view) && SameEnd(old(s).view, s.view)
      ensures env.calm ==> o == Returned(true) && s.failed == old(s).failed
    {
      o := Commands(Released(t));
    }

    /** The core of a target is verified, and the journal authorizes the release. */
    method Authorize(t: Target)
      requires s.Valid() && !s.view.stopped && t != Baseline
      modifies this
      ensures Grew(old(s), s) && s.view == Next(Next(old(s).view, CoreVerified), Authorized(t))
      ensures SameReport(old(s), s) && SameCommands(old(s), s)
    {
      Emit(CoreVerified);
      Emit(Authorized(t));
    }

    /** The commit is through. */
    method Commit(t: Target)
      requires s.Valid() && MayRelease(s.view, t)
      modifies this
      ensures Grew(old(s), s) && Through(old(s).view, s.view) && SameReport(old(s), s) && SameCommands(old(s), s)
      ensures Committal(s.view, t) && s.view.end.unexplained == old(s).view.end.unexplained
    {
      Emit(Committed(t));
    }

    /** A failed commit leaves a finding of its own, or none. */
    method Excuse(fate: Fate)
      requires s.Valid()
      modifies this
      ensures Grew(old(s), s) && Through(old(s).view, s.view) && SameCommands(old(s), s)
      ensures s.checksOk == old(s).checksOk && s.keptError == (old(s).keptError || fate == Found)
      ensures s.view.end.achieved == old(s).view.end.achieved && (fate != Found ==> s.view.end.unexplained)
    {
      if fate == Found { Report(true); } else { Emit(Unexplained); }
    }

    /** Something that only reads, and may end in an exception, a failed check, or an error finding. */
    method Observe() returns (o: Outcome<bool>)
      requires s.Valid()
      modifies this
      ensures Grew(old(s), s) && s.view == old(s).view && s.mutating == old(s).mutating && s.log == old(s).log
      ensures SameCommands(old(s), s) && (o != Returned(false) ==> s == old(s))
      ensures env.calm ==> o == Returned(true)
    {
      var raised: bool, ok: bool, reported: bool, checked: bool := *, *, *, *;
      if raised && !env.calm { return Raised; }
      ok := ok || env.calm;
      s := s.(keptError := s.keptError || (reported && !ok), checksOk := s.checksOk && (ok || !checked));
      return Returned(ok);
    }

    /** A check of the final verification goes into the report. */
    method Record(ok: bool)
      requires s.Valid()
      modifies this
      ensures Grew(old(s), s) && s.view == old(s).view && SameCommands(old(s), s)
      ensures s.keptError == old(s).keptError && s.checksOk == (old(s).checksOk && ok)
    {
      s := s.(checksOk := s.checksOk && ok);
    }

    /** A check whose result goes into the report. */
    method Check() returns (ok: bool)
      requires s.Valid()
      modifies this
      ensures Grew(old(s), s) && s.view == old(s).view && SameCommands(old(s), s) && s.keptError == old(s).keptError
      ensures s.checksOk == (old(s).checksOk && ok)
      ensures env.calm ==> ok
    {
      ok := *;
      ok := ok || env.calm;
      Record(ok);
    }

    /** Run the commands of a verification, a policy lock or a rollback. */
    method Apply() returns (o: Outcome<bool>)
      requires s.Valid() && Legal(s.view, Applied)
      modifies this
      ensures Grew(old(s), s) && s.view == old(s).view && SameReport(old(s), s)
      ensures o.Returned? ==> UpToFirstFailure(old(s), s, o.value)
      ensures env.calm ==> o == Returned(true)
    {
      o := Commands(Applied);
    }

    /** Run the workloads of a verification. */
    method ProbeWorkloads() returns (o: Outcome<bool>)
      requires s.Valid() && s.view.bound
      modifies this
      ensures Grew(old(s), s) && s.view == old(s).view
    {
      o := Commands(Probed);
    }

    /** Some steps towards quarantine. */
    method Quiesce() returns (o: Outcome<bool>)
      requires s.Valid() && s.view.bound
      modifies this
      ensures Grew(old(s), s) && s.view == old(s).view && SameReport(old(s), s)
      ensures o == Returned(true) || env.calm ==> s.failed == old(s).failed
      ensures env.calm ==> o == Returned(true)
    {
      o := Commands(Quiesced);
    }

    /** Stop, mask and probe launchers, then decide on fresh observations whether GPU changes are safe. */
    method Checkpoint() returns (o: Outcome<bool>)
      requires s.Valid() && s.view.bound
      modifies this
      ensures Grew(old(s), s) && s.view == old(s).view && (o == Returned(true) ==> SameReport(old(s), s))
      ensures o == Returned(true) || env.calm ==> s.failed == old(s).failed
      ensures env.calm ==> o == Returned(true)
    {
      var quiesced :- Quiesce();
      var safe :- Observe();
      return Returned(quiesced && safe);
    }

    /** Stop and mask every launcher, and prove it on a fresh audit, or leave an error finding. */
    method Quarantine() returns (o: Outcome<bool>)
      requires s.Valid() && s.view.bound
      modifies this
      ensures Grew(old(s), s) && s.view == if o == Returned(true) then Next(old(s).view, Fenced) else old(s).view
      ensures s.checksOk == old(s).checksOk
      ensures o.Returned? ==> if o.value then s.keptError == old(s).keptError else s.keptError
      ensures env.calm ==> o == Returned(true) && s.failed == old(s).failed
    {
      var masked :- Quiesce();
      var shown: bool := *;
      if masked && (shown || env.calm) {
        Emit(Fenced);
        return Returned(true);
      }
      Report(true);
      return Returned(false);
    }

    /** The services that the guard still holds are stopped again and named in an error finding. On a calm host both
        NVIDIA units were handed over before the commit failed. */
    method RecordQuiesced() returns (o: Outcome<()>)
      requires s.Valid() && s.view.bound
      modifies this
      ensures Grew(old(s), s) && s.view == old(s).view && s.checksOk == old(s).checksOk
      ensures env.calm ==> o.Returned? && s == old(s)
    {
      var held: bool := *;
      if !held || env.calm { return Returned(()); }
      var quiesced :- Quiesce();
      Report(true);
      return Returned(());
    }

    /** Audit the host once more and diagnose it. True: the diagnosis is clean, so docker.service is running. */
    method Diagnose() returns (o: Outcome<bool>)
      requires s.Valid()
      modifies this
      ensures Grew(old(s), s) && SameReport(old(s), s) && SameCommands(old(s), s)
      ensures s.view == if o == Returned(true) then Next(old(s).view, DockerSeen) else old(s).view
      ensures o == Returned(true) ==> s.EndsWith(DockerSeen)
      ensures env.alone && old(s).view.end.fenced ==> o != Returned(true)
      ensures env.calm ==> o.Returned? && (!env.alone ==> o.value == env.dockerReturns)
    {
      var raised: bool, clean: bool := *, *;
      if raised && !env.calm { return Raised; }
      if env.calm { clean := env.dockerReturns; }
      if env.alone && s.view.end.fenced { clean := false; }
      if clean { Emit(DockerSeen); }
      return Returned(clean);
    }

    /** A phase failed. */
    method Fail()
      requires s.Valid()
      modifies this
      ensures Grew(old(s), s) && s.view == old(s).view.(stopped := true)
    {
      Emit(Failure);
    }
  }

  /** The boundary, the plan with its payload binding, and both package preflights, on a fresh audit. */
  method Recheck(run: Run) returns (o: Outcome<bool>)
    requires run.s.Valid()
    modifies run
    ensures Grew(old(run.s), run.s) && run.s.view == old(run.s).view && (o == Returned(true) ==> run.s == old(run.s))
    ensures run.env.calm ==> o == Returned(true)
  {
    var bounded :- run.Observe();
    if !bounded { return Returned(false); }
    var replanned :- run.Observe();
    if !replanned { return Returned(false); }
    var resolves :- run.Observe();
    if !resolves { return Returned(false); }
    o := run.Observe();
  }

  // ----- the launcher commit

  /** A commit that did not return True is explained by a finding or marked as unexplained, and the launchers are fenced
      or a finding says that they are not. */
  ghost predicate FailedCommit(s: State) {
    (s.keptError || s.view.end.unexplained) && (s.keptError || s.view.end.fenced)
  }

  /** How a launcher commit that began in s has ended in t: it returned True, or it did not. */
  ghost predicate Concluded(s: State, t: State, target: Target, ok: bool) {
    && t.checksOk == s.checksOk
    && (ok ==> Committal(t.view, target) && SameReport(s, t) && t.view.end.unexplained == s.view.end.unexplained)
    && (!ok ==> FailedCommit(t) && t.view.end.achieved == s.view.end.achieved)
  }

  /** What it comes to on a calm host. */
  ghost predicate AsFated(s: State, t: State, fate: Fate, o: Outcome<bool>) {
    && o == Returned(fate == Sound) && t.failed == s.failed && t.checksOk == s.checksOk
    && (fate != Found ==> t.keptError == s.keptError)
  }

  /** The launcher commit: unmask and restore launchers step by step; on any failure they are quarantined again. */
  method CommitLaunchers(run: Run, target: Target) returns (o: Outcome<bool>)
    requires run.s.Valid() && run.s.view.bound && MayRelease(run.s.view, target)
    modifies run
    ensures Grew(old(run.s), run.s) && Through(old(run.s).view, run.s.view)
    ensures o.Returned? ==> Concluded(old(run.s), run.s, target, o.value)
    ensures run.env.calm ==> AsFated(old(run.s), run.s, run.env.fate, o)
  {
    var fate :- ReleaseAll(run, target);
    o := Conclude(run, target, fate);
  }

  method Conclude(run: Run, target: Target, fate: Fate) returns (o: Outcome<bool>)
    requires run.s.Valid() && run.s.view.bound && MayRelease(run.s.view, target)
    modifies run
    ensures Grew(old(run.s), run.s) && Through(old(run.s).view, run.s.view)
    ensures o.Returned? ==> Concluded(old(run.s), run.s, target, o.value)
    ensures run.env.calm ==> AsFated(old(run.s), run.s, fate, o)
  {
    if fate == Sound {
      run.Commit(target);
      return Returned(true);
    }
    o := FailCommit(run, fate);
  }

  method FailCommit(run: Run, fate: Fate) returns (o: Outcome<bool>)
    requires run.s.Valid() && run.s.view.bound && fate != Sound
    modifies run
    ensures Grew(old(run.s), run.s) && Through(old(run.s).view, run.s.view)
    ensures o != Returned(true) && (o.Returned? ==> FailedCommit(run.s))
    ensures run.s.view.end.achieved == old(run.s).view.end.achieved && run.s.checksOk == old(run.s).checksOk
    ensures run.env.calm ==> o == Returned(false) && run.s.failed == old(run.s).failed
    ensures run.env.calm && fate != Found ==> SameReport(old(run.s), run.s)
  {
    run.Excuse(fate);
    var quarantined :- run.Quarantine();
    return Returned(false);
  }

  method ReleaseAll(run: Run, target: Target) returns (o: Outcome<Fate>)
    requires run.s.Valid() && run.s.view.bound && MayRelease(run.s.view, target)
    modifies run
    ensures Grew(old(run.s), run.s) && SameReport(old(run.s), run.s)
    ensures Through(old(run.s).view, run.s.view) && SameEnd(old(run.s).view, run.s.view)
    ensures o.Returned? ==> run.s.view.bound && MayRelease(run.s.view, target)
    ensures run.env.calm ==> o == Returned(run.env.fate) && run.s.failed == old(run.s).failed
  {
    var released :- run.ReleaseSome(target);
    var raised: bool, fate: Fate := *, *;
    if raised && !run.env.calm { return Raised; }
    if run.env.calm { return Returned(run.env.fate); }
    return Returned(if fate == Sound && !released then Found else fate);
  }
}
