/** Package inventories, and the difference a rollback plans between two of them. */
module Inventory {
  import opened Outcomes

  datatype Slot = Slot(name: string, arch: string)

  /** One exact package; several versions of a name and architecture may be installed side by side. */
  datatype Identity = Identity(name: string, arch: string, version: string) {
    function Place(): Slot { Slot(name, arch) }
  }

  function Slots(ids: set<Identity>): (slots: set<Slot>)
    ensures forall id :: id in ids ==> id.Place() in slots
    ensures forall s :: s in slots ==> exists id :: id in ids && id.Place() == s
  {
    set id | id in ids :: id.Place()
  }

  ghost predicate OnePerSlot(ids: set<Identity>) {
    forall a, b :: a in ids && b in ids && a.Place() == b.Place() ==> a == b
  }

  /** What a back end leaves that lists every package it takes away. */
  function Listed(current: set<Identity>, removed: set<Identity>, installed: set<Identity>): set<Identity> {
    current - removed + installed
  }

  /** What a back end leaves that keeps one version per slot: an install displaces the occupant. */
  function Displacing(current: set<Identity>, removed: set<Identity>, installed: set<Identity>): set<Identity> {
    (set id | id in current && id !in removed && id.Place() !in Slots(installed)) + installed
  }

  // ----- the planned difference

  function ToRestore(current: set<Identity>, base: set<Identity>): set<Identity> { base - current }

  /** Packages to remove by name: those that no restored package takes the slot of. */
  function ToRemove(current: set<Identity>, base: set<Identity>): set<Identity> {
    set id | id in current && id !in base && (id.Place() !in Slots(base) || id.Place() in Slots(current * base))
  }

  /** Packages that go away because a restored one takes their slot. */
  function Displaced(current: set<Identity>, base: set<Identity>): set<Identity> {
    set id | id in current && id !in base && id.Place() in Slots(ToRestore(current, base))
  }

  /** Nothing outside the baseline survives, and nothing of the baseline is touched. */
  lemma DifferenceIsComplete(current: set<Identity>, base: set<Identity>)
    ensures ToRemove(current, base) + Displaced(current, base) == current - base
  {
  }

  // ----- the audited package list

  datatype Package = Package(name: string, arch: string, version: string, tracked: bool)

  function IdentityOf(p: Package): Identity { Identity(p.name, p.arch, p.version) }

  predicate Lists(packages: seq<Package>, id: Identity) {
    exists i :: 0 <= i < |packages| && packages[i].tracked && IdentityOf(packages[i]) == id
  }

  /** The tracked packages by slot, or None if a slot is listed twice. */
  method IndexInventory(packages: seq<Package>) returns (index: Option<map<Slot, Identity>>)
    ensures index.None? <==> exists i, j :: 0 <= i < j < |packages| && packages[i].tracked && packages[j].tracked
                                            && IdentityOf(packages[i]).Place() == IdentityOf(packages[j]).Place()
    ensures index.Some? ==> forall id :: id in index.value.Values <==> Lists(packages, id)
    ensures index.Some? ==> OnePerSlot(index.value.Values)
    ensures index.Some? ==> forall s :: s in index.value ==> index.value[s].Place() == s
  {
    var bySlot: map<Slot, Identity> := map[];
    ghost var from: map<Slot, int> := map[];
    for n := 0 to |packages|
      invariant forall s :: s in bySlot ==> bySlot[s].Place() == s
      invariant forall s :: s in bySlot ==>
                s in from && 0 <= from[s] < n && packages[from[s]].tracked && IdentityOf(packages[from[s]]) == bySlot[s]
      invariant forall i :: 0 <= i < n && packages[i].tracked ==>
                  IdentityOf(packages[i]).Place() in bySlot
                      && bySlot[IdentityOf(packages[i]).Place()] == IdentityOf(packages[i])
      invariant forall i, j :: 0 <= i < j < n && packages[i].tracked && packages[j].tracked ==>
                  IdentityOf(packages[i]).Place() != IdentityOf(packages[j]).Place()
    {
      if packages[n].tracked {
        var id := IdentityOf(packages[n]);
        if id.Place() in bySlot {
          assert IdentityOf(packages[from[id.Place()]]).Place() == id.Place();
          return None;
        }
        from := from[id.Place() := n];
        bySlot := bySlot[id.Place() := id];
      }
    }
    return Some(bySlot);
  }
}
