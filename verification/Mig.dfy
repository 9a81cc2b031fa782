/** MIG reconciliation: the geometry predicates, the plan made from a fresh audit, the executor that
    re-audits around every command, and what they achieve together. */
module Mig {
  import opened Outcomes

  datatype Mode = Enabled | Disabled | Mixed | Unknown

  datatype GpuProfile = GpuProfile(name: string, slices: Option<nat>)

  /** A compute profile is written like its GPU profile, or as a number of slices of one. */
  datatype ComputeProfile = Named(name: string) | Slices(count: nat, of: string)

  datatype GpuInstance = GpuInstance(
    gpuUuid: string, profile: GpuProfile, profileId: nat, placementStart: nat, computes: seq<ComputeProfile>)

  datatype MigAudit = MigAudit(
    packageInventoryComplete: bool,
    mode: Mode,
    pending: Mode,
    gpuUuids: seq<string>,
    geometry: seq<GpuInstance>,
    geometryComplete: bool)

  predicate UsesFullInstance(c: ComputeProfile, p: GpuProfile) {
    match c
    case Named(n) => n == p.name
    case Slices(k, of) => of == p.name && p.slices == Some(k)
  }

  /** One full-profile GPU instance with one full-size compute instance. */
  predicate FullGeometryMatches(geometry: seq<GpuInstance>, uuids: seq<string>) {
    && |uuids| == 1 && |geometry| == 1
    && geometry[0].gpuUuid == uuids[0]
    && geometry[0].profileId == 0 && geometry[0].placementStart == 0
    && |geometry[0].computes| == 1
    && UsesFullInstance(geometry[0].computes[0], geometry[0].profile)
  }

  /** Geometry that rollback can recreate exactly. */
  predicate Restorable(geometry: seq<GpuInstance>, uuids: seq<string>) {
    || geometry == []
    || (&& |uuids| == 1 && |geometry| == 1
        && geometry[0].gpuUuid == uuids[0]
        && |geometry[0].computes| == 1
        && UsesFullInstance(geometry[0].computes[0], geometry[0].profile))
  }

  datatype Command =
    | DestroyComputes(uuid: string)
    | DestroyInstances(uuid: string)
    | CreateFull(uuid: string)
    | SetMode(uuid: string, target: Mode)

  datatype ActionId =
    | DisableMig | EnableMig | ConfigureGeometry
    | ModeUnobservable | PendingUnobservable | PendingConflict
    | TransactionScope | GeometryUnobservable | RollbackGeometry

  datatype Action = Action(id: ActionId, commands: seq<Command>)

  predicate Supported(id: ActionId) { id == DisableMig || id == EnableMig || id == ConfigureGeometry }

  function Destroy(uuid: string, geometry: seq<GpuInstance>): seq<Command> {
    if geometry == [] then [] else [DestroyComputes(uuid), DestroyInstances(uuid)]
  }

  predicate Settled(mode: Mode) { mode == Enabled || mode == Disabled }

  /** The plan for the observed state. */
  function ReconciliationActions(desired: Mode, a: MigAudit): seq<Action>
    requires Settled(desired)
  {
    if !Settled(a.mode) then [Action(ModeUnobservable, [])]
    else if !Settled(a.pending) then [Action(PendingUnobservable, [])]
    else if a.mode != a.pending then
      if a.pending == desired then [] else [Action(PendingConflict, [])]
    else
      var modeChange := a.mode != desired;
      var geometryChange := desired == Enabled && a.mode == Enabled && !FullGeometryMatches(a.geometry, a.gpuUuids);
      if !modeChange && !geometryChange then []
      else if |a.gpuUuids| != 1 then [Action(TransactionScope, [])]
      else if !a.geometryComplete then [Action(GeometryUnobservable, [])]
      else if !Restorable(a.geometry, a.gpuUuids) then [Action(RollbackGeometry, [])]
      else
        var uuid := a.gpuUuids[0];
        if desired == Disabled then [Action(DisableMig, Destroy(uuid, a.geometry) + [SetMode(uuid, Disabled)])]
        else if a.mode == Disabled then [Action(EnableMig, [SetMode(uuid, Enabled), CreateFull(uuid)])]
        else [Action(ConfigureGeometry, Destroy(uuid, a.geometry) + [CreateFull(uuid)])]
  }

  predicate Refused(actions: seq<Action>) { exists i :: 0 <= i < |actions| && !Supported(actions[i].id) }

  function Commands(actions: seq<Action>): seq<Command> {
    if actions == [] then [] else actions[0].commands + Commands(actions[1..])
  }

  // ----- an obedient GPU

  /** `stages` tells whether a mode change waits for a reboot on this GPU. */
  datatype Gpu = Gpu(uuid: string, current: Mode, pending: Mode, geometry: seq<GpuInstance>, stages: bool) {
    /** MIG instances exist only while MIG is current. */
    predicate Valid() {
      Settled(current) && Settled(pending) && (current == Disabled ==> geometry == [])
    }

    function Truth(): MigAudit { MigAudit(true, current, pending, [uuid], geometry, true) }

    /** The new state, or None if the GPU rejects the command. */
    function After(c: Command): Option<Gpu> {
      if c.uuid != uuid then None
      else
        match c
        case DestroyComputes(_) =>
          if current == Enabled then Some(this.(geometry := WithoutComputes(geometry))) else None
        case DestroyInstances(_) =>
          var bare := forall i :: 0 <= i < |geometry| ==> geometry[i].computes == [];
          if current == Enabled && bare then Some(this.(geometry := [])) else None
        case CreateFull(_) =>
          if current == Enabled && geometry == [] then Some(this.(geometry := [FullInstance(uuid)])) else None
        case SetMode(_, target) =>
          if geometry == [] && Settled(target) then
            Some(this.(pending := target, current := if stages then current else target))
          else None
    }

    /** Instances do not survive a reboot; a staged mode becomes current. */
    function Rebooted(): Gpu { this.(current := pending, geometry := []) }
  }

  function WithoutComputes(geometry: seq<GpuInstance>): (r: seq<GpuInstance>)
    ensures |r| == |geometry| && forall i :: 0 <= i < |r| ==> r[i].computes == []
  {
    if geometry == [] then [] else [geometry[0].(computes := [])] + WithoutComputes(geometry[1..])
  }

  function FullInstance(uuid: string): GpuInstance {
    GpuInstance(uuid, GpuProfile("full", None), 0, 0, [Named("full")])
  }

  // ----- the executor

  datatype Event = Audited(audit: MigAudit) | Ran(command: Command, ok: bool)

  datatype Verdict = Verdict(ok: bool, rebootPending: bool)

  /** What an audit says about the target, once the commands are through. */
  function Conclude(desired: Mode, a: MigAudit): Verdict {
    var rebootPending := a.mode != desired && a.pending == desired;
    Verdict((a.mode == desired && a.pending == desired) || rebootPending, rebootPending)
  }

  /** Should the executor go on after this audit? None: yes. */
  function Checkpoint(desired: Mode, c: Command, expected: seq<string>, a: MigAudit): Option<Verdict> {
    if !a.packageInventoryComplete || a.gpuUuids != expected then Some(Verdict(false, false))
    else if !c.SetMode? || (a.mode == desired && a.pending == desired) then None
    else if a.mode != desired && a.pending == desired then Some(Verdict(true, true))
    else Some(Verdict(false, false))
  }

  /** May the command run on what the latest audit shows? None: yes. */
  function Gate(desired: Mode, c: Command, a: MigAudit): Option<Verdict> {
    if desired == Enabled && c.CreateFull? && a.mode != Enabled then
      if a.pending == desired && a.mode != desired then Some(Verdict(true, true)) else Some(Verdict(false, false))
    else None
  }

  class Host {
    const obedient: bool
    var gpu: Gpu
    var log: seq<Event>

    constructor (obedient: bool, gpu: Gpu)
      ensures this.obedient == obedient && this.gpu == gpu && log == []
    {
      this.obedient, this.gpu, log := obedient, gpu, [];
    }

    method Audit() returns (a: MigAudit)
      modifies this
      ensures log == old(log) + [Audited(a)]
      ensures obedient ==> gpu == old(gpu) && a == gpu.Truth()
    {
      a := gpu.Truth();
      if !obedient {
        a := *;
        gpu := *;
      }
      log := log + [Audited(a)];
    }

    method Run(c: Command) returns (ok: bool)
      modifies this
      ensures log == old(log) + [Ran(c, ok)]
      ensures obedient ==> ok == old(gpu).After(c).Some? && gpu == (if ok then old(gpu).After(c).value else old(gpu))
    {
      ok := gpu.After(c).Some?;
      if ok { gpu := gpu.After(c).value; }
      if !obedient {
        ok := *;
        gpu := *;
      }
      log := log + [Ran(c, ok)];
    }
  }

  /** Every create for an enabled target directly follows an audit that shows the mode enabled. */
  ghost predicate CreatesOnlyEnabled(desired: Mode, log: seq<Event>) {
    forall i :: 0 <= i < |log| && log[i].Ran? && log[i].command.CreateFull? && desired == Enabled ==>
      i > 0 && log[i - 1].Audited? && log[i - 1].audit.mode == Enabled
  }

  /** Every command that was followed by anything succeeded and was audited next, on the same GPUs. */
  ghost predicate StepwiseAudited(log: seq<Event>) {
    forall i :: 0 <= i < |log| - 1 && log[i].Ran? ==> log[i].ok && log[i + 1].Audited?
  }

  /** The executor on an obedient GPU. */
  function Execute(desired: Mode, commands: seq<Command>, gpu: Gpu): (Verdict, Gpu)
    decreases |commands|
  {
    if commands == [] then (Conclude(desired, gpu.Truth()), gpu)
    else
      var c := commands[0];
      match Gate(desired, c, gpu.Truth())
      case Some(v) => (v, gpu)
      case None =>
        match gpu.After(c)
        case None => (Verdict(false, false), gpu)
        case Some(next) =>
          match Checkpoint(desired, c, [gpu.uuid], next.Truth())
          case Some(v) => (v, next)
          case None => Execute(desired, commands[1..], next)
  }

  lemma {:induction false} CommandsAt(actions: seq<Action>, i: nat)
    requires i < |actions|
    ensures Commands(actions[i..]) == actions[i].commands + Commands(actions[i + 1..])
  {
  }

  /** The executor between two commands: `last` is the audit that was just taken. */
  ghost predicate BetweenCommands(desired: Mode, log: seq<Event>, expected: seq<string>, last: MigAudit) {
    && CreatesOnlyEnabled(desired, log) && StepwiseAudited(log)
    && log != [] && log[|log| - 1] == Audited(last) && last.gpuUuids == expected
  }

  ghost predicate StopsSafely(desired: Mode, log: seq<Event>, expected: seq<string>, v: Verdict, last: MigAudit) {
    && CreatesOnlyEnabled(desired, log) && StepwiseAudited(log)
    && (v.ok && !v.rebootPending ==> last.mode == last.pending == desired)
    && (v.rebootPending ==> v.ok && last.mode != desired && last.pending == desired)
    && (v.ok ==> last.gpuUuids == expected && log != [] && log[|log| - 1] == Audited(last))
  }

  /** One command between two checkpoints; a verdict ends the run. */
  method RunOne(host: Host, desired: Mode, c: Command, ghost rest: seq<Command>, expected: seq<string>, audit: MigAudit)
    returns (verdict: Option<Verdict>, last: MigAudit)
    requires Settled(desired) && BetweenCommands(desired, host.log, expected, audit)
    modifies host
    ensures verdict.None? ==> BetweenCommands(desired, host.log, expected, last)
    ensures verdict.Some? ==> StopsSafely(desired, host.log, expected, verdict.value, last)
    ensures host.obedient && audit == old(host.gpu).Truth() ==>
              && (verdict.None? ==>
                    && last == host.gpu.Truth()
                    && Execute(desired, [c] + rest, old(host.gpu)) == Execute(desired, rest, host.gpu))
              && (verdict.Some? ==>
                    Execute(desired, [c] + rest, old(host.gpu)) == (verdict.value, host.gpu))
              && (verdict.Some? && verdict.value.ok ==> last == host.gpu.Truth())
  {
    last := audit;
    assert ([c] + rest)[1..] == rest;
    var gate := Gate(desired, c, last);
    if gate.Some? { return gate, last; }
    var ok := host.Run(c);
    if !ok { return Some(Verdict(false, false)), last; }
    last := host.Audit();
    verdict := Checkpoint(desired, c, expected, last);
  }

  /** Run the commands across fresh checkpoints; the first verdict ends the run. */
  method ExecuteReconciliation(host: Host, desired: Mode, audit: MigAudit, actions: seq<Action>)
    returns (v: Verdict, last: MigAudit)
    requires host.log == [Audited(audit)]
    requires Settled(desired)
    modifies host
    ensures StopsSafely(desired, host.log, audit.gpuUuids, v, last)
    ensures host.obedient && audit == old(host.gpu).Truth() ==>
              (v, host.gpu) == Execute(desired, Commands(actions), old(host.gpu)) && (v.ok ==> last == host.gpu.Truth())
  {
    last := audit;
    ghost var obeys := host.obedient && audit == host.gpu.Truth();
    ghost var whole := Execute(desired, Commands(actions), host.gpu);
    assert actions[0..] == actions;
    for i := 0 to |actions|
      invariant BetweenCommands(desired, host.log, audit.gpuUuids, last)
      invariant obeys ==> last == host.gpu.Truth()
      invariant obeys ==> whole == Execute(desired, Commands(actions[i..]), host.gpu)
    {
      var commands := actions[i].commands;
      CommandsAt(actions, i);
      ghost var later := Commands(actions[i + 1..]);
      assert commands[0..] + later == commands + later;
      for k := 0 to |commands|
        invariant BetweenCommands(desired, host.log, audit.gpuUuids, last)
        invariant obeys ==> last == host.gpu.Truth()
        invariant obeys ==> whole == Execute(desired, commands[k..] + later, host.gpu)
      {
        assert commands[k..] + later == [commands[k]] + (commands[k + 1..] + later);
        var verdict;
        verdict, last := RunOne(host, desired, commands[k], commands[k + 1..] + later, audit.gpuUuids, last);
        if verdict.Some? { return verdict.value, last; }
      }
      assert commands[|commands|..] + later == later;
    }
    assert actions[|actions|..] == [];
    v := Conclude(desired, last);
  }

  // ----- planning and executing on an obedient GPU

  predicate AtTarget(desired: Mode, g: Gpu) {
    g.current == g.pending == desired
        && (if desired == Enabled then FullGeometryMatches(g.geometry, [g.uuid]) else g.geometry == [])
  }

  /** A full instance is a full geometry, and at the target there is nothing left to plan. */
  lemma TargetNeedsNoPlan(desired: Mode, g: Gpu)
    requires Settled(desired) && AtTarget(desired, g)
    ensures ReconciliationActions(desired, g.Truth()) == []
  {}

  lemma {:induction false} DestroyedIsEmpty(desired: Mode, g: Gpu, rest: seq<Command>)
    requires Settled(desired) && g.Valid() && g.current == g.pending == Enabled
    ensures Execute(desired, Destroy(g.uuid, g.geometry) + rest, g) == Execute(desired, rest, g.(geometry := []))
  {
    if g.geometry == [] {
      assert Destroy(g.uuid, g.geometry) + rest == rest;
      assert g.(geometry := []) == g;
    } else {
      var bare := g.(geometry := WithoutComputes(g.geometry));
      assert (Destroy(g.uuid, g.geometry) + rest)[1..] == [DestroyInstances(g.uuid)] + rest;
      assert ([DestroyInstances(g.uuid)] + rest)[1..] == rest;
      assert g.After(DestroyComputes(g.uuid)) == Some(bare);
      assert bare.After(DestroyInstances(g.uuid)) == Some(g.(geometry := []));
      assert Execute(desired, [DestroyInstances(g.uuid)] + rest, bare) == Execute(desired, rest, g.(geometry := []));
    }
  }

  lemma ModeThen(desired: Mode, g: Gpu, rest: seq<Command>)
    requires Settled(desired) && g.Valid() && g.geometry == [] && g.current == g.pending != desired
    ensures Execute(desired, [SetMode(g.uuid, desired)] + rest, g)
         == var next := g.(pending := desired, current := if g.stages then g.current else desired);
            if g.stages then (Verdict(true, true), next) else Execute(desired, rest, next)
  {
  }

  lemma CreateLast(g: Gpu)
    requires g.Valid() && g.geometry == [] && g.current == g.pending == Enabled
    ensures Execute(Enabled, [CreateFull(g.uuid)], g) == (Verdict(true, false), g.(geometry := [FullInstance(g.uuid)]))
  {
  }

  /** One round of planning and execution. */
  function Round(desired: Mode, g: Gpu): (Verdict, Gpu)
    requires Settled(desired)
  {
    Execute(desired, Commands(ReconciliationActions(desired, g.Truth())), g)
  }

  lemma OneAction(a: Action)
    ensures Commands([a]) == a.commands
  {
  }

  /** A round that is not refused succeeds: at the target at once, or staged for the next boot. */
  lemma RoundSucceeds(desired: Mode, g: Gpu)
    requires Settled(desired) && g.Valid() && !Refused(ReconciliationActions(desired, g.Truth()))
    ensures var (v, next) := Round(desired, g);
            && v.ok && next.Valid() && next.uuid == g.uuid && next.stages == g.stages
            && (v.rebootPending <==> g.current != desired && (g.stages || g.pending == desired))
            && (if v.rebootPending then next.pending == desired != next.current else AtTarget(desired, next))
  {
    var actions := ReconciliationActions(desired, g.Truth());
    if actions == [] {
      assert Commands(actions) == [];
    } else {
      assert actions == [actions[0]] && Supported(actions[0].id);
      OneAction(actions[0]);
      if desired == Disabled {
        DestroyedIsEmpty(desired, g, [SetMode(g.uuid, Disabled)]);
        assert [SetMode(g.uuid, Disabled)] + [] == [SetMode(g.uuid, Disabled)];
        ModeThen(desired, g.(geometry := []), []);
      } else if g.current == Disabled {
        assert actions[0].commands == [SetMode(g.uuid, Enabled)] + [CreateFull(g.uuid)];
        ModeThen(desired, g, [CreateFull(g.uuid)]);
        CreateLast(g.(pending := Enabled, current := Enabled));
      } else {
        DestroyedIsEmpty(desired, g, [CreateFull(g.uuid)]);
        CreateLast(g.(geometry := []));
      }
    }
  }

  /** From any state the planner does not refuse: one round, or two rounds around one reboot, and then
      there is nothing left to do. */
  lemma ReconciliationConverges(desired: Mode, g: Gpu)
    requires Settled(desired) && g.Valid() && !Refused(ReconciliationActions(desired, g.Truth()))
    ensures var (v, once) := Round(desired, g);
            && v.ok
            && (!v.rebootPending ==> AtTarget(desired, once) && ReconciliationActions(desired, once.Truth()) == [])
            && (v.rebootPending ==>
                  var (v', twice) := Round(desired, once.Rebooted());
                  && v' == Verdict(true, false) && AtTarget(desired, twice)
                  && ReconciliationActions(desired, twice.Truth()) == [])
  {
    RoundSucceeds(desired, g);
    var (v, once) := Round(desired, g);
    if v.rebootPending {
      var booted := once.Rebooted();
      assert !Refused(ReconciliationActions(desired, booted.Truth()));
      RoundSucceeds(desired, booted);
      TargetNeedsNoPlan(desired, Round(desired, booted).1);
    } else {
      TargetNeedsNoPlan(desired, once);
    }
  }

  /** The refusals are exact: an obedient GPU is refused only for a conflicting pending mode or for
      geometry that rollback could not recreate. */
  lemma RefusedExactly(desired: Mode, g: Gpu)
    requires Settled(desired) && g.Valid()
    ensures Refused(ReconciliationActions(desired, g.Truth())) <==>
              || (g.current != g.pending && g.pending != desired)
              || (g.current == g.pending && !Restorable(g.geometry, [g.uuid]))
  {
    var actions := ReconciliationActions(desired, g.Truth());
    if actions != [] { assert actions == [actions[0]]; }
  }
}
