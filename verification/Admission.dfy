/** Admission of package transactions: what each solver back end reports is compared with the audited
    inventory, and only transactions with the right outcome pass. */
module Admission {
  import opened Outcomes
  import opened Inventory

  // ----- APT

  datatype AptInstall = AptInstall(version: string, previous: Option<string>)

  datatype AptRemoval = AptRemoval(name: string, arch: Option<string>, version: string)

  /** A line of simulated APT output, already matched against the install and removal patterns. */
  datatype AptLine =
    | InstLine(name: string, explicitArch: Option<string>, arch: string, install: AptInstall)
    | RemvLine(removal: AptRemoval)
    | MalformedAction
    | OtherLine

  datatype AptTransaction = AptTransaction(installs: map<Slot, AptInstall>, removals: seq<AptRemoval>)

  predicate WellFormedLine(line: AptLine) {
    match line
    case InstLine(_, explicitArch, arch, _) => explicitArch.None? || explicitArch.value == arch
    case MalformedAction => false
    case _ => true
  }

  predicate Clashes(a: AptLine, b: AptLine) {
    || (a.InstLine? && b.InstLine? && LineSlot(a) == LineSlot(b))
    || (a.RemvLine? && a == b)
  }

  function LineSlot(line: AptLine): Slot
    requires line.InstLine?
  {
    Slot(line.name, line.arch)
  }

  /** Every action is well formed and none is repeated. */
  ghost predicate Legible(lines: seq<AptLine>) {
    && (forall i :: 0 <= i < |lines| ==> WellFormedLine(lines[i]))
    && forall i, j :: 0 <= i < j < |lines| ==> !Clashes(lines[i], lines[j])
  }

  /** The actions are those of the lines. */
  ghost predicate Transcribes(tx: AptTransaction, lines: seq<AptLine>) {
    && (forall i :: 0 <= i < |lines| && lines[i].InstLine? ==>
          LineSlot(lines[i]) in tx.installs && tx.installs[LineSlot(lines[i])] == lines[i].install)
    && (forall s :: s in tx.installs ==> exists line :: line in lines && line.InstLine? && LineSlot(line) == s)
    && (forall r :: r in tx.removals <==> RemvLine(r) in lines)
  }

  predicate Repeats(tx: AptTransaction, line: AptLine) {
    (line.InstLine? && LineSlot(line) in tx.installs) || (line.RemvLine? && line.removal in tx.removals)
  }

  function Recorded(tx: AptTransaction, line: AptLine): AptTransaction {
    match line
    case InstLine(_, _, _, install) => tx.(installs := tx.installs[LineSlot(line) := install])
    case RemvLine(removal) => tx.(removals := tx.removals + [removal])
    case _ => tx
  }

  lemma RecordingTranscribes(tx: AptTransaction, lines: seq<AptLine>, line: AptLine)
    requires Legible(lines) && Transcribes(tx, lines)
    ensures Legible(lines + [line]) <==> WellFormedLine(line) && !Repeats(tx, line)
    ensures Legible(lines + [line]) ==> Transcribes(Recorded(tx, line), lines + [line])
  {
    var more := lines + [line];
    assert forall i :: 0 <= i < |lines| ==> more[i] == lines[i];
    assert more[|lines|] == line;
    if Repeats(tx, line) {
      var earlier :| earlier in lines && Clashes(earlier, line);
      var i :| 0 <= i < |lines| && lines[i] == earlier;
      assert Clashes(more[i], more[|lines|]);
    }
    forall i | 0 <= i < |lines| && !Repeats(tx, line)
      ensures !Clashes(lines[i], line)
    {
      assert lines[i] in lines;
    }
  }

  lemma IllegiblePrefix(lines: seq<AptLine>, n: nat)
    requires n <= |lines| && !Legible(lines[..n])
    ensures !Legible(lines)
  {
  }

  /** The actions of the output, unless one is malformed or repeated. */
  method ParseAptTransaction(lines: seq<AptLine>) returns (tx: Option<AptTransaction>)
    ensures tx.Some? <==> Legible(lines)
    ensures tx.Some? ==> Transcribes(tx.value, lines)
  {
    var parsed := AptTransaction(map[], []);
    for n := 0 to |lines|
      invariant Legible(lines[..n]) && Transcribes(parsed, lines[..n])
    {
      assert lines[..n + 1] == lines[..n] + [lines[n]];
      RecordingTranscribes(parsed, lines[..n], lines[n]);
      if !WellFormedLine(lines[n]) || Repeats(parsed, lines[n]) {
        IllegiblePrefix(lines, n + 1);
        return None;
      }
      parsed := Recorded(parsed, lines[n]);
    }
    assert lines[..|lines|] == lines;
    return Some(parsed);
  }

  predicate MatchesRemoval(r: AptRemoval, id: Identity) {
    id.name == r.name && id.version == r.version && (r.arch.None? || id.arch == r.arch.value)
  }

  predicate OnlyMatch(r: AptRemoval, current: set<Identity>, id: Identity) {
    id in current && MatchesRemoval(r, id) && forall other :: other in current && MatchesRemoval(r, other) ==>
      other == id
  }

  /** The one installed package a removal can mean; without an architecture, the native one if several fit. */
  function ResolveAptRemoval(r: AptRemoval, current: set<Identity>, native: string): (id: Option<Identity>)
    ensures id.Some? ==> id.value in current
  {
    if exists id :: id in current && OnlyMatch(r, current, id) then
      var id :| id in current && OnlyMatch(r, current, id);
      Some(id)
    else
      var own := Identity(r.name, native, r.version);
      if r.arch.None? && own in current then Some(own) else None
  }

  /** A resolved removal means an installed package it matches; it fails to resolve only if it fits none or several,
      and then only if the native one is not among them. */
  lemma ResolutionIsUnambiguous(r: AptRemoval, current: set<Identity>, native: string)
    ensures var id := ResolveAptRemoval(r, current, native);
            && (id.Some? ==> MatchesRemoval(r, id.value))
            && (id.Some? && !OnlyMatch(r, current, id.value) ==> r.arch.None? && id.value.arch == native)
            && (id.None? <==> (forall id :: id in current ==> !OnlyMatch(r, current, id))
                               && (r.arch.Some? || Identity(r.name, native, r.version) !in current))
    ensures forall id :: OnlyMatch(r, current, id) ==> ResolveAptRemoval(r, current, native) == Some(id)
  {
  }

  function InstalledBy(tx: AptTransaction): (ids: set<Identity>)
    ensures forall id :: id in ids <==> id.Place() in tx.installs && tx.installs[id.Place()].version == id.version
  {
    set s | s in tx.installs :: Identity(s.name, s.arch, tx.installs[s].version)
  }

  /** The installed packages that some removals stand for. */
  function Meant(removals: seq<AptRemoval>, current: set<Identity>, native: string): set<Identity> {
    set r | r in removals && ResolveAptRemoval(r, current, native).Some? :: ResolveAptRemoval(r, current, native).value
  }

  function RemovedBy(tx: AptTransaction, current: set<Identity>, native: string): set<Identity> {
    Meant(tx.removals, current, native)
  }

  /** What the solver says an install displaces is what the audit saw there. */
  predicate BoundInstall(tx: AptTransaction, bySlot: map<Slot, Identity>, s: Slot)
    requires s in tx.installs
  {
    tx.installs[s].previous == if s in bySlot then Some(bySlot[s].version) else None
  }

  predicate BoundInstalls(tx: AptTransaction, bySlot: map<Slot, Identity>) {
    forall s :: s in tx.installs ==> BoundInstall(tx, bySlot, s)
  }

  predicate BoundRemovals(tx: AptTransaction, current: set<Identity>, native: string) {
    forall i :: 0 <= i < |tx.removals| ==> ResolveAptRemoval(tx.removals[i], current, native).Some?
  }

  datatype Refusal =
    | UnboundOperands | UnboundInstall | UnboundRemoval | UnboundExecution | NotBoundToSlot
    | UnexpectedInstall | MissingInstall | UnexpectedRemoval | MissingRemoval
    | OutsideClosure | NoReplacement | MissingTarget | HiddenRemoval

  /** Compare what was observed with what is expected. */
  function SetsRefusal(installs: set<Identity>, expectedInstalls: set<Identity>, removals: set<Identity>,
                       expectedRemovals: set<Identity>): (refusal: Option<Refusal>)
    ensures refusal.None? <==> installs == expectedInstalls && removals == expectedRemovals
  {
    if installs - expectedInstalls != {} then Some(UnexpectedInstall)
    else if expectedInstalls - installs != {} then assert installs != expectedInstalls; Some(MissingInstall)
    else if removals - expectedRemovals != {} then Some(UnexpectedRemoval)
    else if expectedRemovals - removals != {} then Some(MissingRemoval)
    else assert installs == expectedInstalls && removals == expectedRemovals; None
  }

  /** The installs of a transaction, if each displaces what the audit saw. */
  method ObserveInstalls(tx: AptTransaction, bySlot: map<Slot, Identity>) returns (ids: Option<set<Identity>>)
    ensures ids.Some? <==> BoundInstalls(tx, bySlot)
    ensures ids.Some? ==> ids.value == InstalledBy(tx)
  {
    var seen: set<Identity> := {};
    var rest := tx.installs.Keys;
    while rest != {}
      invariant rest <= tx.installs.Keys
      invariant forall s :: s in tx.installs.Keys - rest ==> BoundInstall(tx, bySlot, s)
      invariant forall id :: id in seen <==>
                id.Place() in tx.installs.Keys - rest && tx.installs[id.Place()].version == id.version
    {
      var s :| s in rest;
      if !BoundInstall(tx, bySlot, s) { return None; }
      seen := seen + {Identity(s.name, s.arch, tx.installs[s].version)};
      rest := rest - {s};
    }
    assert seen == InstalledBy(tx);
    return Some(seen);
  }

  /** The packages that the removals mean, if each means one. */
  method ObserveRemovals(tx: AptTransaction, current: set<Identity>, native: string)
    returns (ids: Option<set<Identity>>)
    ensures ids.Some? <==> BoundRemovals(tx, current, native)
    ensures ids.Some? ==> ids.value == RemovedBy(tx, current, native)
  {
    var seen: set<Identity> := {};
    for n := 0 to |tx.removals|
      invariant forall i :: 0 <= i < n ==> ResolveAptRemoval(tx.removals[i], current, native).Some?
      invariant seen == Meant(tx.removals[..n], current, native)
    {
      var id := ResolveAptRemoval(tx.removals[n], current, native);
      if id.None? { return None; }
      assert tx.removals[..n + 1] == tx.removals[..n] + [tx.removals[n]];
      MeantSnoc(tx.removals[..n], tx.removals[n], current, native);
      seen := seen + {id.value};
    }
    assert tx.removals[..|tx.removals|] == tx.removals;
    return Some(seen);
  }

  lemma MeantSnoc(removals: seq<AptRemoval>, r: AptRemoval, current: set<Identity>, native: string)
    requires ResolveAptRemoval(r, current, native).Some?
    ensures Meant(removals + [r], current, native) == Meant(removals, current, native)
            + {ResolveAptRemoval(r, current, native).value}
  {
  }

  /** What an accepted APT rollback is. */
  predicate AptRollbackAdmissible(tx: AptTransaction, bySlot: map<Slot, Identity>, native: string,
                                  restore: set<Identity>, remove: set<Identity>) {
    && BoundInstalls(tx, bySlot) && BoundRemovals(tx, bySlot.Values, native)
    && InstalledBy(tx) == restore && RemovedBy(tx, bySlot.Values, native) == remove
  }

  /** The packages that operands are bound to. */
  function BoundTo(specs: set<string>, bySpec: map<string, Identity>): set<Identity> {
    set spec | spec in specs && spec in bySpec :: bySpec[spec]
  }

  /** Check a simulated rollback against the baseline and the current inventory. */
  method AptRollbackError(tx: AptTransaction, bySlot: map<Slot, Identity>, native: string,
                          baselineBySpec: map<string, Identity>, restoreSpecs: set<string>,
                          currentBySpec: map<string, Identity>, removeSpecs: set<string>)
    returns (refusal: Option<Refusal>)
    ensures refusal.None? <==>
              && restoreSpecs <= baselineBySpec.Keys && removeSpecs <= currentBySpec.Keys
              && AptRollbackAdmissible(tx, bySlot, native, BoundTo(restoreSpecs, baselineBySpec),
                                       BoundTo(removeSpecs, currentBySpec))
  {
    if !(restoreSpecs <= baselineBySpec.Keys && removeSpecs <= currentBySpec.Keys) { return Some(UnboundOperands); }
    var installs := ObserveInstalls(tx, bySlot);
    if installs.None? { return Some(UnboundInstall); }
    var removals := ObserveRemovals(tx, bySlot.Values, native);
    if removals.None? { return Some(UnboundRemoval); }
    return SetsRefusal(installs.value, BoundTo(restoreSpecs, baselineBySpec), removals.value,
                       BoundTo(removeSpecs, currentBySpec));
  }

  /** With operands equal to the planned difference, an accepted APT rollback leaves exactly the baseline. */
  lemma AptRollbackIsExact(tx: AptTransaction, bySlot: map<Slot, Identity>, base: set<Identity>, native: string)
    requires OnePerSlot(bySlot.Values) && OnePerSlot(base)
    requires AptRollbackAdmissible(tx, bySlot, native, ToRestore(bySlot.Values, base), ToRemove(bySlot.Values, base))
    ensures Displacing(bySlot.Values, RemovedBy(tx, bySlot.Values, native), InstalledBy(tx)) == base
  {
  }

  /** The transaction a faithful solver reports for the planned difference. */
  ghost predicate HonestRollback(tx: AptTransaction, current: set<Identity>, bySlot: map<Slot, Identity>,
                                 base: set<Identity>) {
    && BoundInstalls(tx, bySlot) && InstalledBy(tx) == ToRestore(current, base)
    && (forall r :: r in tx.removals <==>
          r.arch.Some? && Identity(r.name, r.arch.value, r.version) in ToRemove(current, base))
  }

  /** Such a transaction, which names the architecture of every removal, is always admitted. */
  lemma HonestRollbackIsAdmitted(tx: AptTransaction, bySlot: map<Slot, Identity>, base: set<Identity>, native: string)
    requires HonestRollback(tx, bySlot.Values, bySlot, base)
    ensures AptRollbackAdmissible(tx, bySlot, native, ToRestore(bySlot.Values, base), ToRemove(bySlot.Values, base))
  {
    var current := bySlot.Values;
    forall r | r in tx.removals
      ensures ResolveAptRemoval(r, current, native) == Some(Identity(r.name, r.arch.value, r.version))
    {
      ResolutionIsUnambiguous(r, current, native);
      assert OnlyMatch(r, current, Identity(r.name, r.arch.value, r.version));
    }
    forall id | id in ToRemove(current, base)
      ensures id in RemovedBy(tx, current, native)
    {
      assert AptRemoval(id.name, Some(id.arch), id.version) in tx.removals;
    }
  }

  // ----- DNF

  /** The packages a DNF rollback is expected to take away: the requested ones, and everything else in a restored
      slot. */
  function ExpectedRemovals(current: set<Identity>, restore: set<Identity>, remove: set<Identity>): set<Identity> {
    remove + set id | id in current && id.Place() in Slots(restore) && id !in restore
  }

  /** The identities that the command to execute carries. */
  datatype Bound = Bound(installs: set<Identity>, removals: set<Identity>)

  /** The binding that the rollback command is built with. */
  function PlannedBinding(current: set<Identity>, base: set<Identity>): Bound {
    Bound(ToRestore(current, base), ToRemove(current, base) + Displaced(current, base))
  }

  /** Check a resolved DNF rollback and the command that will be executed. */
  function DnfRollbackError(current: set<Identity>, base: set<Identity>, restore: set<Identity>, remove: set<Identity>,
                            execution: Bound, observed: Bound): (refusal: Option<Refusal>)
    ensures refusal.None? <==>
              && remove <= current && restore <= base
              && execution == Bound(restore, ExpectedRemovals(current, restore, remove)) && observed == execution
  {
    if !(remove <= current) || !(restore <= base) then Some(UnboundOperands)
    else if execution != Bound(restore, ExpectedRemovals(current, restore, remove)) then Some(UnboundExecution)
    else SetsRefusal(observed.installs, restore, observed.removals, ExpectedRemovals(current, restore, remove))
  }

  /** Some baseline package stays installed in a slot where another is restored. */
  ghost predicate SharesRestoredSlot(current: set<Identity>, base: set<Identity>) {
    exists kept, put :: kept in current * base && put in base - current && kept.Place() == put.Place()
  }

  /** With operands and command as planned, an accepted DNF rollback leaves exactly the baseline, even with
      several versions in a slot; and it can be accepted unless a kept package shares a slot with a restored one. */
  lemma DnfRollbackIsExact(current: set<Identity>, base: set<Identity>)
    ensures forall observed: Bound ::
              DnfRollbackError(current, base, ToRestore(current, base), ToRemove(current, base),
                               PlannedBinding(current, base), observed).None?
              ==> Listed(current, observed.removals, observed.installs) == base
    ensures (exists observed ::
               DnfRollbackError(current, base, ToRestore(current, base), ToRemove(current, base),
                                PlannedBinding(current, base), observed).None?)
            <==> !SharesRestoredSlot(current, base)
  {
    var restore, remove, planned := ToRestore(current, base), ToRemove(current, base), PlannedBinding(current, base);
    DifferenceIsComplete(current, base);
    if SharesRestoredSlot(current, base) {
      var kept, put :| kept in current * base && put in base - current && kept.Place() == put.Place();
      assert kept in ExpectedRemovals(current, restore, remove) && kept !in planned.removals;
    } else {
      forall id | id in ExpectedRemovals(current, restore, remove)
        ensures id in planned.removals
      {
        if id !in remove {
          var put :| put in restore && put.Place() == id.Place();
          assert id in base ==> id in current * base;
        }
      }
      assert ExpectedRemovals(current, restore, remove) == planned.removals;
      assert DnfRollbackError(current, base, restore, remove, planned, planned).None?;
    }
  }

  /** Of two kernel-devel versions one is missing: whatever the solver answers is refused. */
  lemma MissingKernelVersionIsRefused(observed: Bound)
    ensures var kept, lost := Identity("kernel-devel", "x86_64", "2"), Identity("kernel-devel", "x86_64", "1");
            var current, base := {kept}, {kept, lost};
            DnfRollbackError(current, base, ToRestore(current, base), ToRemove(current, base),
                             PlannedBinding(current, base), observed).Some?
  {
    var kept, lost := Identity("kernel-devel", "x86_64", "2"), Identity("kernel-devel", "x86_64", "1");
    assert kept.Place() == lost.Place() && kept in {kept} * {kept, lost} && lost in {kept, lost} - {kept};
    assert SharesRestoredSlot({kept}, {kept, lost});
    DnfRollbackIsExact({kept}, {kept, lost});
  }

  // ----- Zypper

  datatype Kind = Install | Reinstall | Upgrade | Downgrade | ChangeArch | UpgradeChangeArch | DowngradeChangeArch
      | Remove

  predicate ChangesArch(k: Kind) { k.ChangeArch? || k.UpgradeChangeArch? || k.DowngradeChangeArch? }

  datatype Action = Action(kind: Kind, id: Identity)

  function RemovedIn(actions: seq<Action>): (ids: set<Identity>)
    ensures forall id :: id in ids <==> Action(Remove, id) in actions
  {
    set a | a in actions && a.kind.Remove? :: a.id
  }

  function ChangedIn(actions: seq<Action>): (ids: set<Identity>)
    ensures forall id :: id in ids <==> exists a :: a in actions && !a.kind.Remove? && a.id == id
  {
    set a | a in actions && !a.kind.Remove? :: a.id
  }

  /** A change can silently take away an installed package: the occupant of its slot, or of another
      architecture of the same name when the architecture changes. */
  predicate MayReplace(a: Action, id: Identity) {
    && !a.kind.Remove? && id != a.id
    && (if ChangesArch(a.kind) then id.name == a.id.name else id.Place() == a.id.Place())
  }

  ghost predicate Replaceable(actions: seq<Action>, id: Identity) { exists a :: a in actions && MayReplace(a, id) }

  /** An upgrade, a downgrade or a change of architecture takes some installed package away; an
      installation, even into an occupied slot, need not. */
  predicate Supersedes(k: Kind) { k.Upgrade? || k.Downgrade? || ChangesArch(k) }

  /** The sets of packages that the changes of a transaction can silently take away: the summary does
      not name them. */
  ghost predicate Replaces(current: set<Identity>, actions: seq<Action>, replaced: set<Identity>) {
    && replaced <= current
    && (forall id :: id in replaced ==> Replaceable(actions, id))
    && forall a, id :: a in actions && Supersedes(a.kind) && id in current && MayReplace(a, id) ==>
         exists gone :: gone in replaced + RemovedIn(actions) && MayReplace(a, gone)
  }

  /** A package that is gone after every such outcome: it is removed, or the only one some action supersedes. */
  ghost predicate SurelyGone(current: set<Identity>, actions: seq<Action>, id: Identity) {
    || id in RemovedIn(actions)
    || exists a :: a in actions && Supersedes(a.kind) && MayReplace(a, id)
                   && forall other :: other in current && MayReplace(a, other) ==> other == id
  }

  function Applied(current: set<Identity>, actions: seq<Action>, replaced: set<Identity>): set<Identity> {
    Listed(current, RemovedIn(actions) + replaced, ChangedIn(actions))
  }

  /** Check the actions of a simulated Zypper rollback. */
  method ZypperRollbackError(actions: seq<Action>, current: set<Identity>, base: set<Identity>,
                             restore: set<Identity>, remove: set<Identity>)
    returns (refusal: Option<Refusal>)
    ensures refusal.None? <==>
              remove <= current && restore <= base && ZypperRollbackAdmissible(actions, current, restore, remove)
  {
    if !(restore <= base) || !(remove <= current) { return Some(UnboundOperands); }
    var restored: set<Identity>, removed: set<Identity> := {}, {};
    for n := 0 to |actions|
      invariant restored == ChangedIn(actions[..n]) && restored <= restore
      invariant removed == RemovedIn(actions[..n]) && removed <= remove + InRestoredSlots(current, restore)
    {
      assert actions[..n + 1] == actions[..n] + [actions[n]];
      var id := actions[n].id;
      if actions[n].kind.Remove? {
        if id !in remove + InRestoredSlots(current, restore) {
          assert id in RemovedIn(actions);
          return Some(UnexpectedRemoval);
        }
        removed := removed + {id};
      } else {
        if id !in restore { assert id in ChangedIn(actions); return Some(UnexpectedInstall); }
        restored := restored + {id};
      }
    }
    assert actions[..|actions|] == actions;
    if !(restore <= restored) { return Some(MissingInstall); }
    if !(remove <= removed) { return Some(MissingRemoval); }
    return None;
  }

  function InRestoredSlots(current: set<Identity>, restore: set<Identity>): set<Identity> {
    set id | id in current && id.Place() in Slots(restore)
  }

  predicate ZypperRollbackAdmissible(actions: seq<Action>, current: set<Identity>, restore: set<Identity>,
                                     remove: set<Identity>) {
    && ChangedIn(actions) == restore
    && remove <= RemovedIn(actions) <= remove + InRestoredSlots(current, restore)
  }

  /** No package of the baseline is removed or can be replaced by the actions. */
  ghost predicate SparesBaseline(current: set<Identity>, base: set<Identity>, actions: seq<Action>) {
    forall id :: id in current && id in base ==> id !in RemovedIn(actions) && !Replaceable(actions, id)
  }

  /** Every package that has to make room for a restored one does so in any outcome. */
  ghost predicate ClearsRestoredSlots(current: set<Identity>, base: set<Identity>, actions: seq<Action>) {
    forall id :: id in Displaced(current, base) ==> SurelyGone(current, actions, id)
  }

  /** Whatever the changes replace, the transaction leaves the baseline. */
  ghost predicate AlwaysExact(current: set<Identity>, base: set<Identity>, actions: seq<Action>) {
    forall replaced :: Replaces(current, actions, replaced) ==> Applied(current, actions, replaced) == base
  }

  lemma ReplacingAll(current: set<Identity>, actions: seq<Action>, all: set<Identity>)
    requires all == set id | id in current && Replaceable(actions, id)
    ensures Replaces(current, actions, all)
  {
  }

  /** A package that is not surely gone survives some outcome. */
  lemma ReplacingAllBut(current: set<Identity>, actions: seq<Action>, kept: Identity) returns (replaced: set<Identity>)
    requires kept in current && !SurelyGone(current, actions, kept)
    ensures Replaces(current, actions, replaced) && kept !in replaced
  {
    replaced := set id | id in current && id != kept && Replaceable(actions, id);
    forall a, id | a in actions && Supersedes(a.kind) && id in current && MayReplace(a, id)
      ensures exists gone :: gone in replaced + RemovedIn(actions) && MayReplace(a, gone)
    {
      if id == kept {
        var other :| other in current && MayReplace(a, other) && other != kept;
        assert other in replaced;
      } else {
        assert id in replaced;
      }
    }
  }

  /** An accepted Zypper rollback leaves the baseline, whatever its changes replace, exactly when no package
      of the baseline that is already right is in their reach, and every package that has to make room is
      removed or superseded. */
  lemma ZypperRollbackIsExactIff(actions: seq<Action>, current: set<Identity>, base: set<Identity>)
    requires ZypperRollbackAdmissible(actions, current, ToRestore(current, base), ToRemove(current, base))
    ensures AlwaysExact(current, base, actions)
       <==> SparesBaseline(current, base, actions) && ClearsRestoredSlots(current, base, actions)
  {
    DifferenceIsComplete(current, base);
    if !SparesBaseline(current, base, actions) {
      var all := set id | id in current && Replaceable(actions, id);
      ReplacingAll(current, actions, all);
      var lost :| lost in current && lost in base && (lost in RemovedIn(actions) || Replaceable(actions, lost));
      assert lost !in Applied(current, actions, all);
    } else if !ClearsRestoredSlots(current, base, actions) {
      var kept :| kept in Displaced(current, base) && !SurelyGone(current, actions, kept);
      var replaced := ReplacingAllBut(current, actions, kept);
      assert kept in Applied(current, actions, replaced);
    } else {
      forall replaced | Replaces(current, actions, replaced)
        ensures Applied(current, actions, replaced) == base
      {
        SureOutcome(actions, current, base, replaced);
      }
    }
  }

  lemma SureOutcome(actions: seq<Action>, current: set<Identity>, base: set<Identity>, replaced: set<Identity>)
    requires ZypperRollbackAdmissible(actions, current, ToRestore(current, base), ToRemove(current, base))
    requires SparesBaseline(current, base, actions) && ClearsRestoredSlots(current, base, actions)
    requires Replaces(current, actions, replaced)
    ensures Applied(current, actions, replaced) == base
  {
    DifferenceIsComplete(current, base);
    forall id | id in Displaced(current, base)
      ensures id in RemovedIn(actions) + replaced
    {
      assert SurelyGone(current, actions, id);
      if id !in RemovedIn(actions) {
        var a :| a in actions && Supersedes(a.kind) && MayReplace(a, id)
                 && forall other :: other in current && MayReplace(a, other) ==> other == id;
        var gone :| gone in replaced + RemovedIn(actions) && MayReplace(a, gone);
        assert gone in current;
      }
    }
  }

  /** With one version per slot and no change of architecture, what matters is that each package that has to
      make room is removed, upgraded or downgraded, and not merely installed over. */
  lemma ZypperRollbackIsExact(actions: seq<Action>, current: set<Identity>, base: set<Identity>)
    requires OnePerSlot(current) && OnePerSlot(base)
    requires ZypperRollbackAdmissible(actions, current, ToRestore(current, base), ToRemove(current, base))
    requires forall a :: a in actions ==> !ChangesArch(a.kind)
    ensures AlwaysExact(current, base, actions)
       <==> forall id :: id in Displaced(current, base) ==>
              || id in RemovedIn(actions)
              || exists a :: a in actions && (a.kind.Upgrade? || a.kind.Downgrade?) && a.id.Place() == id.Place()
  {
    ZypperRollbackIsExactIff(actions, current, base);
    SameArchitectureSpares(actions, current, base);
    forall id | id in Displaced(current, base)
      ensures SurelyGone(current, actions, id)
         <==> || id in RemovedIn(actions)
              || exists a :: a in actions && (a.kind.Upgrade? || a.kind.Downgrade?) && a.id.Place() == id.Place()
    {
      if a :| a in actions && (a.kind.Upgrade? || a.kind.Downgrade?) && a.id.Place() == id.Place() {
        assert a.id in ChangedIn(actions);
        assert MayReplace(a, id);
      }
    }
  }

  lemma SameArchitectureSpares(actions: seq<Action>, current: set<Identity>, base: set<Identity>)
    requires OnePerSlot(base)
    requires ZypperRollbackAdmissible(actions, current, ToRestore(current, base), ToRemove(current, base))
    requires forall a :: a in actions ==> !ChangesArch(a.kind)
    ensures SparesBaseline(current, base, actions)
  {
  }

  /** An accepted change of architecture can lose a package of the baseline. */
  lemma ArchitectureChangeLosesBaseline()
    ensures var wide, narrow := Identity("libnvidia", "x86_64", "1"), Identity("libnvidia", "i686", "1");
            var current, base, actions := {narrow}, {wide, narrow}, [Action(ChangeArch, wide)];
            && ZypperRollbackAdmissible(actions, current, ToRestore(current, base), ToRemove(current, base))
            && Replaces(current, actions, {narrow}) && Applied(current, actions, {narrow}) != base
  {
  }

  /** An accepted installation can leave the version it should have displaced. */
  lemma InstallationLeavesOccupant()
    ensures var newer := Identity("kernel-default-devel", "x86_64", "2");
            var older := Identity("kernel-default-devel", "x86_64", "1");
            var current, base, actions := {newer}, {older}, [Action(Install, older)];
            && ZypperRollbackAdmissible(actions, current, ToRestore(current, base), ToRemove(current, base))
            && Replaces(current, actions, {}) && Applied(current, actions, {}) != base
  {
  }

  // ----- forward transactions

  /** The plan: which names it may touch, and which it must. */
  datatype Plan = Plan(allowed: set<string>, targets: set<string>)

  /** What a forward transaction asks for: the packages it installs and removes, as the solver lists them. */
  predicate WithinPlan(plan: Plan, installs: set<Identity>, removals: set<Identity>, current: set<Identity>) {
    && (forall id :: id in installs + removals ==> id.name in plan.allowed)
    && removals <= current && Slots(removals) <= Slots(installs)
    && forall name :: name in plan.targets ==> exists id :: id in installs && id.name == name
  }

  /** No slot is emptied, every change is to an allowed package, and every target is acted on. */
  lemma WithinPlanConservesSlots(plan: Plan, installs: set<Identity>, removals: set<Identity>, current: set<Identity>,
                                 displaced: set<Identity>, result: set<Identity>)
    requires WithinPlan(plan, installs, removals, current)
    requires Slots(displaced) <= Slots(installs) && result == Listed(current, removals + displaced, installs)
    ensures Slots(current) <= Slots(result)
    ensures forall id :: (id in current) != (id in result) ==> id.name in plan.allowed
    ensures forall name :: name in plan.targets ==> exists id :: id in result && id.name == name && id in installs
  {
  }

  /** Check listed installs and removals against the plan. */
  method DnfForwardError(plan: Plan, current: set<Identity>, installs: set<Identity>, removals: set<Identity>)
    returns (refusal: Option<Refusal>)
    ensures refusal.None? <==> WithinPlan(plan, installs, removals, current)
  {
    var observed: set<string> := {};
    var rest := installs;
    while rest != {}
      invariant rest <= installs
      invariant forall id :: id in installs - rest ==> id.name in plan.allowed && id.name in observed
      invariant forall name :: name in observed ==> exists id :: id in installs && id.name == name
    {
      var id :| id in rest;
      if id.name !in plan.allowed { assert id in installs + removals; return Some(OutsideClosure); }
      observed := observed + {id.name};
      rest := rest - {id};
    }
    rest := removals;
    while rest != {}
      invariant rest <= removals
      invariant forall id :: id in removals - rest ==>
                id in current && id.Place() in Slots(installs) && id.name in plan.allowed
    {
      var id :| id in rest;
      if id !in current { return Some(UnboundRemoval); }
      if id.Place() !in Slots(installs) { assert id.Place() in Slots(removals); return Some(NoReplacement); }
      if id.name !in plan.allowed { return Some(OutsideClosure); }
      rest := rest - {id};
    }
    return if plan.targets <= observed then None else Some(MissingTarget);
  }

  predicate AptForwardAdmissible(plan: Plan, tx: AptTransaction, bySlot: map<Slot, Identity>, native: string) {
    && BoundInstalls(tx, bySlot) && BoundRemovals(tx, bySlot.Values, native)
    && WithinPlan(plan, InstalledBy(tx), RemovedBy(tx, bySlot.Values, native), bySlot.Values)
  }

  /** Check a simulated forward transaction against the plan and the current inventory. */
  method AptForwardError(plan: Plan, tx: AptTransaction, bySlot: map<Slot, Identity>, native: string)
    returns (refusal: Option<Refusal>)
    ensures refusal.None? <==> AptForwardAdmissible(plan, tx, bySlot, native)
  {
    var installs := ObserveInstalls(tx, bySlot);
    if installs.None? { return Some(UnboundInstall); }
    var removals := ObserveRemovals(tx, bySlot.Values, native);
    if removals.None? { return Some(UnboundRemoval); }
    refusal := DnfForwardError(plan, bySlot.Values, installs.value, removals.value);
  }

  lemma AptForwardConservesSlots(plan: Plan, tx: AptTransaction, bySlot: map<Slot, Identity>, native: string,
                                 result: set<Identity>)
    requires AptForwardAdmissible(plan, tx, bySlot, native)
    requires result == Displacing(bySlot.Values, RemovedBy(tx, bySlot.Values, native), InstalledBy(tx))
    ensures Slots(bySlot.Values) <= Slots(result)
    ensures forall id :: (id in bySlot.Values) != (id in result) ==> id.name in plan.allowed
    ensures forall name :: name in plan.targets ==>
              exists id :: id in result && id.name == name && id in InstalledBy(tx)
  {
  }

  predicate ForwardAction(plan: Plan, a: Action, actions: seq<Action>, current: set<Identity>) {
    && a.id.name in plan.allowed
    && match a.kind
       case Remove => a.id in current && a.id.Place() in Slots(ChangedIn(actions))
       case Reinstall => a.id in current
       case Upgrade | Downgrade => |Occupants(current, a.id.Place())| == 1
       case Install => true
       case _ => false
  }

  function Occupants(current: set<Identity>, s: Slot): set<Identity> { set id | id in current && id.Place() == s }

  predicate ZypperForwardAdmissible(plan: Plan, actions: seq<Action>, current: set<Identity>) {
    && (forall a :: a in actions ==> ForwardAction(plan, a, actions, current))
    && forall name :: name in plan.targets ==> exists id :: id in ChangedIn(actions) && id.name == name
  }

  /** Check the actions of a simulated forward transaction. */
  method ZypperForwardError(plan: Plan, actions: seq<Action>, current: set<Identity>) returns (refusal: Option<Refusal>)
    ensures refusal.None? <==> ZypperForwardAdmissible(plan, actions, current)
  {
    var changedSlots := Slots(ChangedIn(actions));
    var observed: set<string> := {};
    for n := 0 to |actions|
      invariant forall i :: 0 <= i < n ==> ForwardAction(plan, actions[i], actions, current)
      invariant forall i :: 0 <= i < n && !actions[i].kind.Remove? ==> actions[i].id.name in observed
      invariant forall name :: name in observed ==> exists id :: id in ChangedIn(actions) && id.name == name
    {
      var id := actions[n].id;
      var sound := ForwardAction(plan, actions[n], actions, current);
      if id.name !in plan.allowed { assert !sound; return Some(OutsideClosure); }
      if actions[n].kind.Remove? {
        if id !in current { assert !sound; return Some(UnboundRemoval); }
        if id.Place() !in changedSlots { assert !sound; return Some(NoReplacement); }
      } else {
        if ChangesArch(actions[n].kind) { assert !sound; return Some(HiddenRemoval); }
        if actions[n].kind.Reinstall? && id !in current { assert !sound; return Some(UnboundInstall); }
        if (actions[n].kind.Upgrade? || actions[n].kind.Downgrade?) && |Occupants(current, id.Place())| != 1 {
          assert !sound;
          return Some(NotBoundToSlot);
        }
        observed := observed + {id.name};
      }
    }
    return if plan.targets <= observed then None else Some(MissingTarget);
  }

  /** Whatever the changes replace, an admitted forward transaction keeps every slot populated. */
  lemma ZypperForwardConservesSlots(plan: Plan, actions: seq<Action>, current: set<Identity>, replaced: set<Identity>)
    requires ZypperForwardAdmissible(plan, actions, current) && Replaces(current, actions, replaced)
    ensures Slots(current) <= Slots(Applied(current, actions, replaced))
    ensures forall id :: (id in current) != (id in Applied(current, actions, replaced)) ==> id.name in plan.allowed
    ensures forall name :: name in plan.targets ==>
              exists id :: id in Applied(current, actions, replaced) && id.name == name && id in ChangedIn(actions)
  {
    var installs, removals := ChangedIn(actions), RemovedIn(actions);
    forall id: Identity | id in installs + removals
      ensures id.name in plan.allowed
      ensures id in removals ==> id in current && id.Place() in Slots(installs)
    {
      var a :| a in actions && a.id == id && (if id in removals then a.kind.Remove? else !a.kind.Remove?);
      assert ForwardAction(plan, a, actions, current);
    }
    forall id | id in replaced
      ensures id.Place() in Slots(installs)
    {
      var a :| a in actions && MayReplace(a, id);
      assert ForwardAction(plan, a, actions, current) && a.id in installs;
    }
    WithinPlanConservesSlots(plan, installs, removals, current, replaced, Applied(current, actions, replaced));
  }
}
