/** The guard that stops trusted GPU services for a disruptive phase and gives back exactly the ones
    it found running. Observations and commands may report anything, and the gate may be interrupted at
    any point; an obedient host, on which they tell the truth and nothing else interferes, is the special
    case the round trip is proved for. A host may change its ways between two operations. */
module ServiceGuard {
  import opened Outcomes

  type Unit = string

  datatype Event =
    | GateActive(unit: Unit)              // found running at the gate
    | Observed(unit: Unit, active: bool)
    | Stopped(unit: Unit, ok: bool)
    | Started(unit: Unit, ok: bool)
    | Relinquished(unit: Unit)

  /** Events that speak of what a unit is doing. */
  predicate Tells(e: Event, u: Unit) {
    (e.Observed? || e.Stopped? || e.Started?) && e.unit == u
  }

  /** e is the last word in the log on what unit u is doing. */
  ghost predicate LastWord(log: seq<Event>, u: Unit, e: Event) {
    exists i :: 0 <= i < |log| && log[i] == e && Tells(e, u) && forall j :: i < j < |log| ==> !Tells(log[j], u)
  }

  /** The log grew by events about u only. */
  ghost predicate OnlyAbout(u: Unit, log: seq<Event>, log': seq<Event>) {
    log <= log' && forall i :: |log| <= i < |log'| ==> log'[i].unit == u
  }

  /** The log grew by events about these units only. */
  ghost predicate Confined(units: set<Unit>, log: seq<Event>, log': seq<Event>) {
    log <= log' && forall i :: |log| <= i < |log'| ==> log'[i].unit in units
  }

  lemma ConfinedExtends(units: set<Unit>, u: Unit, log: seq<Event>, log': seq<Event>, log'': seq<Event>)
    requires Confined(units, log, log') && OnlyAbout(u, log', log'')
    ensures Confined(units + {u}, log, log'')
  {
  }

  lemma LastWordSurvives(log: seq<Event>, log': seq<Event>, u: Unit, v: Unit, e: Event)
    requires OnlyAbout(u, log, log') && v != u && LastWord(log, v, e)
    ensures LastWord(log', v, e)
  {
  }

  lemma LastIsLastWord(log: seq<Event>, e: Event)
    requires Tells(e, e.unit)
    ensures LastWord(log + [e], e.unit, e)
  {
    assert (log + [e])[|log|] == e;
  }

  /** Every start was of a unit found running at the gate and not handed over before. */
  ghost predicate StartsAuthorised(log: seq<Event>) {
    forall i :: 0 <= i < |log| && log[i].Started? ==>
      GateActive(log[i].unit) in log[..i] && Relinquished(log[i].unit) !in log[..i]
  }

  lemma AuthorisedExtends(log: seq<Event>, e: Event)
    requires StartsAuthorised(log)
    requires e.Started? ==> GateActive(e.unit) in log && Relinquished(e.unit) !in log
    ensures StartsAuthorised(log + [e])
  {
    var longer := log + [e];
    forall i | 0 <= i < |longer| && longer[i].Started?
      ensures GateActive(longer[i].unit) in longer[..i] && Relinquished(longer[i].unit) !in longer[..i]
    {
      assert longer[..i] == log[..i];
      if i == |log| { assert log[..i] == log; }
    }
  }

  /** Obedient: answers are true, commands work, nothing else happens. Refusing: the same, but no unit
      can be started. Arbitrary: anything. */
  datatype Conduct = Obedient | Refusing | Arbitrary

  class Host {
    var conduct: Conduct
    var running: set<Unit>
    var log: seq<Event>

    constructor (conduct: Conduct, running: set<Unit>)
      ensures this.conduct == conduct && this.running == running && log == []
    {
      this.conduct, this.running, log := conduct, running, [];
    }

    /** The host changes its ways. */
    method Turn(conduct: Conduct)
      modifies this`conduct
      ensures this.conduct == conduct
    {
      this.conduct := conduct;
    }

    /** The unit's activity, or None if it cannot be trusted. */
    method Observe(u: Unit) returns (active: Option<bool>)
      modifies this`running, this`log
      ensures conduct != Arbitrary ==> running == old(running) && active == Some(u in running)
      ensures log == if active.Some? then old(log) + [Observed(u, active.value)] else old(log)
    {
      active := Some(u in running);
      if conduct == Arbitrary {
        active := *;
        running := *;
      }
      if active.Some? { log := log + [Observed(u, active.value)]; }
    }

    method Stop(u: Unit) returns (ok: bool)
      modifies this`running, this`log
      ensures conduct != Arbitrary ==> ok && running == old(running) - {u}
      ensures log == old(log) + [Stopped(u, ok)]
    {
      ok := true;
      running := running - {u};
      if conduct == Arbitrary {
        ok := *;
        running := *;
      }
      log := log + [Stopped(u, ok)];
    }

    method Start(u: Unit) returns (ok: bool)
      modifies this`running, this`log
      ensures conduct == Obedient ==> ok && running == old(running) + {u}
      ensures conduct == Refusing ==> !ok && running == old(running)
      ensures log == old(log) + [Started(u, ok)]
    {
      ok := conduct != Refusing;
      if conduct == Obedient { running := running + {u}; }
      if conduct == Arbitrary {
        ok := *;
        running := *;
      }
      log := log + [Started(u, ok)];
    }

    /** Is the unit's binding such that starting it is safe? */
    method ValidateStart(u: Unit) returns (ok: bool)
      modifies this`running
      ensures conduct != Arbitrary ==> ok && running == old(running)
    {
      ok := true;
      if conduct == Arbitrary {
        ok := *;
        running := *;
      }
    }

    /** Does an exception end the operation here? */
    method Interrupts() returns (raised: bool)
      ensures conduct != Arbitrary ==> !raised
    {
      raised := *;
      raised := raised && conduct == Arbitrary;
    }
  }

  datatype Problem =
    | Unobservable(unit: Unit) | StartRefused(unit: Unit) | StartFailed(unit: Unit) | StillInactive(unit: Unit)
    | StopFailed(unit: Unit) | StillActive(unit: Unit) | Interrupted

  function Elems(s: seq<Unit>): set<Unit> { set u | u in s }

  lemma ElemsSnoc(s: seq<Unit>, i: nat)
    requires i < |s|
    ensures Elems(s[..i + 1]) == Elems(s[..i]) + {s[i]}
    ensures forall u :: u in s[..i + 1] <==> u in s[..i] || u == s[i]
  {
  }

  predicate Distinct(s: seq<Unit>) {
    forall i, j :: 0 <= i < j < |s| ==> s[i] != s[j]
  }

  function Without(s: seq<Unit>, u: Unit): (r: seq<Unit>)
    ensures forall v :: v in r <==> v in s && v != u
    ensures Distinct(s) ==> Distinct(r)
  {
    if s == [] then []
    else if s[|s| - 1] == u then Without(s[..|s| - 1], u)
    else
      var r := Without(s[..|s| - 1], u);
      assert s[|s| - 1] !in r || !Distinct(s);
      r + [s[|s| - 1]]
  }

  /** Newest first, and only the selected ones. */
  function Targets(pending: seq<Unit>, units: Option<set<Unit>>): (r: seq<Unit>)
    ensures forall v :: v in r <==> v in pending && (units.None? || v in units.value)
    ensures Distinct(pending) ==> Distinct(r)
  {
    if pending == [] then []
    else
      var u := pending[|pending| - 1];
      var r := Targets(pending[..|pending| - 1], units);
      assert Distinct(pending) ==> u !in pending[..|pending| - 1];
      if units.None? || u in units.value then [u] + r else r
  }

  class Guard {
    const host: Host
    const specs: seq<Unit>
    var originallyActive: seq<Unit>
    var pendingRestore: seq<Unit>
    var error: Option<Problem>
    var restoreErrors: seq<Problem>
    var requiesceErrors: seq<Problem>

    constructor (host: Host, specs: seq<Unit>)
      requires Distinct(specs) && host.log == []
      ensures Valid() && this.host == host && this.specs == specs && Clean()
      ensures originallyActive == [] && pendingRestore == [] && error == None
    {
      this.host, this.specs := host, specs;
      originallyActive, pendingRestore := [], [];
      error, restoreErrors, requiesceErrors := None, [], [];
    }

    predicate Clean()
      reads this
    {
      restoreErrors == [] && requiesceErrors == []
    }

    /** Only units found running at the gate and not handed over may be waiting for a restart. */
    ghost predicate Valid()
      reads this, host
    {
      && Distinct(specs) && Distinct(originallyActive) && Distinct(pendingRestore)
      && (forall u :: u in pendingRestore ==> u in originallyActive)
      && (forall u :: u in originallyActive ==> u in specs && GateActive(u) in host.log && Relinquished(u) !in host.log)
      && StartsAuthorised(host.log)
    }

    /** Let another transaction own the final state of some units. */
    method Relinquish(u: Unit)
      requires Valid()
      modifies this, host`log
      ensures Valid()
      ensures u !in pendingRestore && u !in originallyActive && restoreErrors == old(restoreErrors)
      ensures forall v :: v != u ==>
                (v in pendingRestore <==> v in old(pendingRestore))
                && (v in originallyActive <==> v in old(originallyActive))
      ensures host.log == old(host.log) + [Relinquished(u)]
    {
      AuthorisedExtends(host.log, Relinquished(u));
      pendingRestore := Without(pendingRestore, u);
      originallyActive := Without(originallyActive, u);
      host.log := host.log + [Relinquished(u)];
    }

    /** Bring one waiting unit back, with revalidation; true only if it was last seen running. */
    method RestoreOne(u: Unit) returns (ok: bool)
      requires Valid() && u in pendingRestore
      modifies this, host`running, host`log
      ensures Valid() && originallyActive == old(originallyActive)
      ensures pendingRestore == if ok then Without(old(pendingRestore), u) else old(pendingRestore)
      ensures OnlyAbout(u, old(host.log), host.log)
      ensures requiesceErrors == old(requiesceErrors) && error == old(error)
      ensures old(restoreErrors) <= restoreErrors
      ensures ok ==> LastWord(host.log, u, Observed(u, true)) && restoreErrors == old(restoreErrors)
      ensures !ok ==> restoreErrors != []
      ensures host.conduct == Refusing ==> host.running == old(host.running) && (ok ==> u in host.running)
      ensures host.conduct == Obedient ==> ok && host.running == old(host.running) + {u}
    {
      var active := ObserveFor(u);
      if active.None? {
        restoreErrors := restoreErrors + [Unobservable(u)];
        return false;
      }
      if !active.value {
        var valid := host.ValidateStart(u);
        if !valid {
          restoreErrors := restoreErrors + [StartRefused(u)];
          return false;
        }
        var started := StartFor(u);
        if !started {
          restoreErrors := restoreErrors + [StartFailed(u)];
          return false;
        }
        active := ObserveFor(u);
        if active.None? {
          restoreErrors := restoreErrors + [Unobservable(u)];
          return false;
        }
      }
      if !active.value {
        restoreErrors := restoreErrors + [StillInactive(u)];
        return false;
      }
      pendingRestore := Without(pendingRestore, u);
      return true;
    }

    /** Observe, keeping the guard's knowledge. */
    method ObserveFor(u: Unit) returns (active: Option<bool>)
      requires Valid()
      modifies host`running, host`log
      ensures Valid() && OnlyAbout(u, old(host.log), host.log)
      ensures active.Some? ==> LastWord(host.log, u, Observed(u, active.value))
      ensures Relinquished(u) in host.log ==> Relinquished(u) in old(host.log)
      ensures host.conduct != Arbitrary ==> host.running == old(host.running) && active == Some(u in host.running)
    {
      ghost var before := host.log;
      active := host.Observe(u);
      if active.Some? {
        AuthorisedExtends(before, Observed(u, active.value));
        LastIsLastWord(before, Observed(u, active.value));
      }
    }

    method StartFor(u: Unit) returns (ok: bool)
      requires Valid() && u in pendingRestore
      modifies host`running, host`log
      ensures Valid() && OnlyAbout(u, old(host.log), host.log)
      ensures host.conduct == Obedient ==> ok && host.running == old(host.running) + {u}
      ensures host.conduct == Refusing ==> !ok && host.running == old(host.running)
    {
      ghost var before := host.log;
      ok := host.Start(u);
      AuthorisedExtends(before, Started(u, ok));
    }

    method StopFor(u: Unit) returns (ok: bool)
      requires Valid()
      modifies host`running, host`log
      ensures Valid() && OnlyAbout(u, old(host.log), host.log)
      ensures host.conduct == Obedient ==> ok && host.running == old(host.running) - {u}
    {
      ghost var before := host.log;
      ok := host.Stop(u);
      AuthorisedExtends(before, Stopped(u, ok));
    }

    predicate Selected(units: Option<set<Unit>>, u: Unit) { units.None? || u in units.value }

    /** What restoring the first units of a list has done. */
    ghost predicate Restored(done: set<Unit>, waiting: seq<Unit>)
      reads this, host
    {
      && (forall u :: u in pendingRestore ==> u in waiting)
      && (forall u :: u in waiting && u !in pendingRestore ==> u in done && LastWord(host.log, u, Observed(u, true)))
      && (restoreErrors == [] ==> forall u :: u in done ==> u !in pendingRestore)
    }

    /** None of these units came back by itself, so those that do not run still wait. */
    ghost predicate Blocked(done: set<Unit>)
      reads this, host
    {
      forall u :: u in done && u !in host.running ==> u in pendingRestore
    }

    /** Try each unit in turn. */
    method RestoreEach(targets: seq<Unit>)
      requires Valid() && Distinct(targets) && forall u :: u in targets ==> u in pendingRestore
      modifies this, host`running, host`log
      ensures Valid() && originallyActive == old(originallyActive) && error == old(error)
      ensures Restored(Elems(targets), old(pendingRestore)) && old(restoreErrors) <= restoreErrors
      ensures Confined(Elems(targets), old(host.log), host.log)
      ensures host.conduct == Refusing ==>
                host.running == old(host.running)
                && Blocked(Elems(targets))
      ensures host.conduct == Obedient ==>
                restoreErrors == old(restoreErrors) && host.running == old(host.running) + Elems(targets)
                && forall u :: u in targets ==> u !in pendingRestore
    {
      for i := 0 to |targets|
        invariant Valid() && originallyActive == old(originallyActive) && error == old(error)
        invariant Restored(Elems(targets[..i]), old(pendingRestore)) && old(restoreErrors) <= restoreErrors
        invariant Confined(Elems(targets[..i]), old(host.log), host.log)
        invariant host.conduct == Refusing ==>
                    host.running == old(host.running)
                    && Blocked(Elems(targets[..i]))
        invariant forall j :: i <= j < |targets| ==> targets[j] in pendingRestore
        invariant host.conduct == Obedient ==>
                    restoreErrors == old(restoreErrors) && host.running == old(host.running) + Elems(targets[..i])
                    && forall u :: u in targets[..i] ==> u !in pendingRestore
      {
        ghost var before, waiting := host.log, pendingRestore;
        ElemsSnoc(targets, i);
        var one := RestoreOne(targets[i]);
        ConfinedExtends(Elems(targets[..i]), targets[i], old(host.log), before, host.log);
        forall u | u in old(pendingRestore) && u !in pendingRestore
          ensures LastWord(host.log, u, Observed(u, true))
        {
          if u != targets[i] { LastWordSurvives(before, host.log, targets[i], u, Observed(u, true)); }
        }
      }
      assert targets[..|targets|] == targets;
    }

    /** Restore the selected waiting units, newest first. */
    method Restore(units: Option<set<Unit>>) returns (ok: bool)
      requires Valid()
      modifies this, host`running, host`log
      ensures Valid() && originallyActive == old(originallyActive) && error == old(error)
      ensures old(restoreErrors) <= restoreErrors && (ok <==> restoreErrors == [])
      ensures ok ==> forall u :: u in pendingRestore ==> !Selected(units, u)
      ensures Confined(Elems(Targets(old(pendingRestore), units)), old(host.log), host.log)
      ensures forall u :: u in pendingRestore ==> u in old(pendingRestore)
      ensures forall u :: u in old(pendingRestore) && u !in pendingRestore ==>
                Selected(units, u) && LastWord(host.log, u, Observed(u, true))
      ensures host.conduct == Refusing ==>
                && host.running == old(host.running)
                && forall u :: u in old(pendingRestore) && u !in host.running ==> u in pendingRestore
      ensures host.conduct == Obedient ==>
                && restoreErrors == old(restoreErrors)
                && host.running == old(host.running) + Elems(Targets(old(pendingRestore), units))
                && forall u :: u in pendingRestore ==> !Selected(units, u)
    {
      RestoreEach(Targets(pendingRestore, units));
      ok := restoreErrors == [] && !exists u :: u in pendingRestore && Selected(units, u);
    }

    /** Stop one unit if it runs; true only if it was last seen stopped. */
    method RequiesceOne(u: Unit) returns (ok: bool)
      requires Valid()
      modifies this, host`running, host`log
      ensures Valid() && originallyActive == old(originallyActive) && error == old(error)
              && restoreErrors == old(restoreErrors)
      ensures OnlyAbout(u, old(host.log), host.log)
      ensures ok ==> LastWord(host.log, u, Observed(u, false)) && requiesceErrors == old(requiesceErrors)
      ensures !ok ==> requiesceErrors != []
      ensures forall v :: v in pendingRestore <==> v in old(pendingRestore) || (v == u && ok && v in originallyActive)
      ensures host.conduct == Obedient ==> ok && host.running == old(host.running) - {u}
    {
      var active := ObserveFor(u);
      if active.None? {
        requiesceErrors := requiesceErrors + [Unobservable(u)];
        return false;
      }
      if active.value {
        var stopped := StopFor(u);
        if !stopped {
          requiesceErrors := requiesceErrors + [StopFailed(u)];
          return false;
        }
        active := ObserveFor(u);
        if active.None? {
          requiesceErrors := requiesceErrors + [Unobservable(u)];
          return false;
        }
      }
      if active.value {
        requiesceErrors := requiesceErrors + [StillActive(u)];
        return false;
      }
      // A unit that was not running at the gate is stopped but never adopted.
      if u in originallyActive && u !in pendingRestore {
        pendingRestore := pendingRestore + [u];
      }
      return true;
    }

    /** Stop every trusted unit again before the next mutation phase. */
    method Requiesce() returns (ok: bool)
      requires Valid()
      modifies this, host`running, host`log
      ensures Valid() && originallyActive == old(originallyActive) && error == old(error)
              && restoreErrors == old(restoreErrors)
      ensures ok <==> requiesceErrors == []
      ensures ok ==> forall u :: u in specs ==> LastWord(host.log, u, Observed(u, false))
      ensures ok ==> forall u :: u in pendingRestore <==> u in originallyActive
      ensures host.conduct == Obedient ==> ok && host.running == old(host.running) - Elems(specs)
    {
      requiesceErrors := [];
      for i := 0 to |specs|
        invariant Valid() && originallyActive == old(originallyActive) && error == old(error)
                  && restoreErrors == old(restoreErrors)
        invariant requiesceErrors == [] ==> forall u :: u in specs[..i] ==>
                    LastWord(host.log, u, Observed(u, false)) && (u in originallyActive ==> u in pendingRestore)
        invariant host.conduct == Obedient ==>
                  requiesceErrors == [] && host.running == old(host.running) - Elems(specs[..i])
      {
        ghost var before, clean := host.log, requiesceErrors == [];
        var one := RequiesceOne(specs[i]);
        assert specs[..i + 1] == specs[..i] + [specs[i]];
        assert specs[i] !in specs[..i];
        forall u | clean && requiesceErrors == [] && u in specs[..i + 1]
          ensures LastWord(host.log, u, Observed(u, false))
        {
          if u != specs[i] { LastWordSurvives(before, host.log, specs[i], u, Observed(u, false)); }
        }
      }
      assert specs[..|specs|] == specs;
      ok := requiesceErrors == [];
    }

    method Adopt(u: Unit)
      requires Valid() && u in specs && u !in originallyActive && Relinquished(u) !in host.log
      modifies this`originallyActive, this`pendingRestore, host`log
      ensures Valid() && host.log == old(host.log) + [GateActive(u)]
      ensures originallyActive == old(originallyActive) + [u] && pendingRestore == old(pendingRestore) + [u]
    {
      AuthorisedExtends(host.log, GateActive(u));
      assert u !in pendingRestore;
      host.log := host.log + [GateActive(u)];
      originallyActive, pendingRestore := originallyActive + [u], pendingRestore + [u];
    }

    /** The gate: adopt a running unit, then stop it and prove it stopped; an exception may end it at any point. */
    method QuiesceOne(u: Unit) returns (problem: Option<Problem>)
      requires Valid() && u in specs && u !in originallyActive && forall e :: e in host.log ==> e.unit != u
      modifies this, host`running, host`log
      ensures Valid() && error == old(error) && restoreErrors == old(restoreErrors)
              && requiesceErrors == old(requiesceErrors)
      ensures OnlyAbout(u, old(host.log), host.log)
      ensures problem.None? ==> LastWord(host.log, u, Observed(u, false))
      ensures forall v :: v != u ==>
                (v in originallyActive <==> v in old(originallyActive))
                && (v in pendingRestore <==> v in old(pendingRestore))
      ensures u in originallyActive <==> u in pendingRestore
      ensures host.conduct == Obedient ==> problem.None? && host.running == old(host.running) - {u}
      ensures host.conduct == Obedient ==> (u in originallyActive <==> u in old(host.running))
    {
      var raised := host.Interrupts();
      if raised { return Some(Interrupted); }
      var active := ObserveFor(u);
      if active.None? { return Some(Unobservable(u)); }
      if !active.value { return None; }
      Adopt(u);
      problem := StopAdopted(u);
    }

    method StopAdopted(u: Unit) returns (problem: Option<Problem>)
      requires Valid()
      modifies host`running, host`log
      ensures Valid() && OnlyAbout(u, old(host.log), host.log)
      ensures problem.None? ==> LastWord(host.log, u, Observed(u, false))
      ensures host.conduct == Obedient ==> problem.None? && host.running == old(host.running) - {u}
    {
      var raised := host.Interrupts();
      if raised { return Some(Interrupted); }
      var stopped := StopFor(u);
      if !stopped { return Some(StopFailed(u)); }
      raised := host.Interrupts();
      if raised { return Some(Interrupted); }
      var active := ObserveFor(u);
      if active.None? { return Some(Unobservable(u)); }
      return if active.value then Some(StillActive(u)) else None;
    }

    /** Stop every trusted unit before a workload scan; the first problem ends the gate, and so does an exception,
        which is raised again after the restore. */
    method Quiesce(restoreOnFailure: bool) returns (o: Outcome<()>)
      requires Valid() && Clean() && originallyActive == [] && pendingRestore == [] && error == None && host.log == []
      modifies this, host`running, host`log
      ensures Valid()
      ensures o.Returned? && error.None? ==>
                && Clean()
                && (forall u :: u in specs ==> LastWord(host.log, u, Observed(u, false)))
                && (forall u :: u in pendingRestore <==> u in originallyActive)
      ensures host.conduct == Obedient ==>
                && o.Returned? && error.None?
                && host.running == old(host.running) - Elems(specs)
                && forall u :: u in originallyActive <==> u in specs && u in old(host.running)
    {
      for i := 0 to |specs|
        invariant Valid() && Clean() && error == None
        invariant forall u :: u in specs[..i] ==> LastWord(host.log, u, Observed(u, false))
        invariant forall e :: e in host.log ==> e.unit in specs[..i]
        invariant forall u :: u in originallyActive ==> u in specs[..i]
        invariant forall u :: u in pendingRestore <==> u in originallyActive
        invariant host.conduct == Obedient ==>
                    && host.running == old(host.running) - Elems(specs[..i])
                    && forall u :: u in originallyActive <==> u in specs[..i] && u in old(host.running)
      {
        ghost var before := host.log;
        assert specs[..i + 1] == specs[..i] + [specs[i]];
        assert specs[i] !in specs[..i];
        var problem := QuiesceOne(specs[i]);
        if problem.Some? {
          if problem != Some(Interrupted) { error := problem; }
          if restoreOnFailure { var restored := Restore(None); }
          return if problem == Some(Interrupted) then Raised else Returned(());
        }
        forall u | u in specs[..i + 1]
          ensures LastWord(host.log, u, Observed(u, false))
        {
          if u != specs[i] { LastWordSurvives(before, host.log, specs[i], u, Observed(u, false)); }
        }
      }
      assert specs[..|specs|] == specs;
      return Returned(());
    }
  }

  /** On an obedient host the gate followed by a restore gives back exactly what was running. */
  method QuiesceThenRestore(host: Host, specs: seq<Unit>) returns (ok: bool)
    requires Distinct(specs) && host.log == []
    modifies host
    ensures StartsAuthorised(host.log)
    ensures host.conduct == Obedient ==> ok && host.running == old(host.running)
  {
    var guard := new Guard(host, specs);
    var gate := guard.Quiesce(true);
    if gate.Raised? || guard.error.Some? { return false; }
    ok := guard.Restore(None);
  }

  /** Restore errors are never forgotten: after a restore that failed, none succeeds any more, whatever
      is running by then. */
  method RestoreAgain(guard: Guard, calls: seq<Option<set<Unit>>>) returns (oks: seq<bool>)
    requires guard.Valid()
    modifies guard, guard.host`running, guard.host`log
    ensures guard.Valid() && |oks| == |calls|
    ensures forall i, j :: 0 <= i < j < |oks| ==> !oks[i] ==> !oks[j]
    ensures old(guard.restoreErrors) != [] ==> forall i :: 0 <= i < |oks| ==> !oks[i]
  {
    oks := [];
    for n := 0 to |calls|
      invariant guard.Valid() && |oks| == n && old(guard.restoreErrors) <= guard.restoreErrors
      invariant forall i :: 0 <= i < n && !oks[i] ==> guard.restoreErrors != []
      invariant forall i, j :: 0 <= i < j < n ==> !oks[i] ==> !oks[j]
      invariant old(guard.restoreErrors) != [] ==> forall i :: 0 <= i < n ==> !oks[i]
    {
      var ok := guard.Restore(calls[n]);
      oks := oks + [ok];
    }
  }

  /** Even a restore that brings back every waiting unit, on a host where nothing goes wrong, is not True then. */
  method LateRestoreFails(guard: Guard) returns (ok: bool)
    requires guard.Valid() && guard.host.conduct == Obedient && guard.restoreErrors != []
    modifies guard, guard.host`running, guard.host`log
    ensures guard.Valid() && !ok && forall u :: u !in guard.pendingRestore
    ensures guard.host.running == old(guard.host.running) + Elems(Targets(old(guard.pendingRestore), None))
  {
    ok := guard.Restore(None);
  }

  /** Such a run: a unit is stopped at the gate, cannot be started again for a while, then the host recovers,
      and the unit is brought back by a restore that is False. */
  method RecoveredTooLate(u: Unit) returns (guard: Guard, first: bool, second: bool)
    ensures fresh(guard) && fresh(guard.host) && guard.Valid()
    ensures !first && !second
    ensures guard.host.conduct == Obedient && guard.host.running == {u} && forall v :: v !in guard.pendingRestore
  {
    var host := new Host(Obedient, {u});
    guard := new Guard(host, [u]);
    var gate := guard.Quiesce(true);
    assert u in guard.specs;
    host.Turn(Refusing);
    first := guard.Restore(None);
    host.Turn(Obedient);
    ghost var waiting := guard.pendingRestore;
    second := LateRestoreFails(guard);
    assert Elems(Targets(waiting, None)) == {u};
  }

  /** What a caller may do with a guard after the gate. */
  datatype Operation = Requiescing | Restoring(units: Option<set<Unit>>) | Relinquishing(unit: Unit)
      | Turning(conduct: Conduct)

  /** Whatever is done with a guard, in whatever order and on whatever host: only units that ran at the gate and
      were not handed over are started, only those can be waiting, and recorded restore errors stay. */
  method Perform(guard: Guard, operations: seq<Operation>)
    requires guard.Valid()
    modifies guard, guard.host
    ensures guard.Valid() && StartsAuthorised(guard.host.log) && old(guard.restoreErrors) <= guard.restoreErrors
    ensures forall v :: v in guard.originallyActive ==> v in old(guard.originallyActive)
    ensures forall v :: v in guard.pendingRestore ==> v in guard.originallyActive && Relinquished(v) !in guard.host.log
  {
    for n := 0 to |operations|
      invariant guard.Valid() && old(guard.restoreErrors) <= guard.restoreErrors
      invariant forall v :: v in guard.originallyActive ==> v in old(guard.originallyActive)
    {
      match operations[n]
      case Requiescing => var quiet := guard.Requiesce();
      case Restoring(units) => var ok := guard.Restore(units);
      case Relinquishing(u) => guard.Relinquish(u);
      case Turning(conduct) => guard.host.Turn(conduct);
    }
  }

  /** The same after a re-quiesced phase in which units came back on their own. */
  method RestoreAfterPhase(guard: Guard) returns (ok: bool)
    requires guard.Valid() && guard.restoreErrors == []
    modifies guard, guard.host`running, guard.host`log
    ensures guard.Valid()
    ensures guard.host.conduct == Obedient ==>
              && ok
              && guard.host.running == (old(guard.host.running) - Elems(guard.specs)) + Elems(guard.originallyActive)
  {
    var quiet := guard.Requiesce();
    ok := guard.Restore(None);
    ok := ok && quiet;
  }
}
