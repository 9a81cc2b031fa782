/** Cleaning up after one interrupted snapshot: only names derived from the snapshot's own are touched. */
module SnapshotCleanup {
  import opened Outcomes
  import opened DirectoryTree
  import opened PayloadCleanup

  function BundleOf(name: string): string { name + ".payloads" }

  datatype Artifact = Artifact(name: string, isFile: bool)

  /** What is removed, in order; the snapshot and its bundle only if no authority is bound to them. */
  function Artifacts(name: string, preserve: bool): seq<Artifact> {
    [Artifact("." + BundleOf(name) + ".tmp", false), Artifact("." + BundleOf(name) + ".incoming", false),
     Artifact("." + name + ".tmp", true)]
    + if preserve then [] else [Artifact(BundleOf(name), false), Artifact(name, true)]
  }

  function Names(artifacts: seq<Artifact>): (names: set<string>)
    ensures forall name :: name in names <==> exists i :: 0 <= i < |artifacts| && artifacts[i].name == name
  {
    set a | a in artifacts :: a.name
  }

  lemma ArtifactsAreDistinct(name: string, preserve: bool)
    ensures forall i, j :: 0 <= i < j < |Artifacts(name, preserve)| ==>
              Artifacts(name, preserve)[i].name != Artifacts(name, preserve)[j].name
    ensures preserve ==>
              name !in Names(Artifacts(name, preserve)) && BundleOf(name) !in Names(Artifacts(name, preserve))
  {
  }

  /** A bound snapshot and everything in its bundle outlive the cleanup. */
  lemma BoundPairIsKept(t: Tree, dir: Path, name: string, p: Path)
    requires p in t && (dir + [name] <= p || dir + [BundleOf(name)] <= p)
    ensures p in WithoutChildren(t, dir, Names(Artifacts(name, true)))
  {
  }

  // ----- the budget is shared by all the artifacts

  ghost predicate Acceptable(t: Tree, dir: Path, a: Artifact) {
    var path := dir + [a.name];
    if a.isFile then path in t ==> t[path].File? && t[path].guard == Private
    else SafeComponent(a.name) && AcceptsBelow(t, path, 0, false)
  }

  ghost predicate AllFit(t: Tree, dir: Path, artifacts: seq<Artifact>) {
    && (forall a :: a in artifacts ==> Acceptable(t, dir, a))
    && |t| - |WithoutChildren(t, dir, Names(artifacts))| <= MAX_ENTRIES
    && Bytes(t) - Bytes(WithoutChildren(t, dir, Names(artifacts))) <= MAX_BYTES
  }

  /** Some artifacts are gone, each was acceptable, and the budget has paid for them. */
  ghost predicate Cleaned(t0: Tree, dir: Path, done: seq<Artifact>, t: Tree, entries: int, bytes: int) {
    && t == WithoutChildren(t0, dir, Names(done)) && Paid(entries, bytes, t0, 0, 0, t)
    && forall a :: a in done ==> Acceptable(t0, dir, a)
  }

  ghost predicate OnlyArtifacts(t0: Tree, dir: Path, artifacts: seq<Artifact>, t: Tree) {
    Subtree(t, t0) && Subtree(WithoutChildren(t0, dir, Names(artifacts)), t)
  }

  lemma NextFits(t0: Tree, dir: Path, artifacts: seq<Artifact>, n: nat, t: Tree, entries: int, bytes: int)
    requires n < |artifacts| && Cleaned(t0, dir, artifacts[..n], t, entries, bytes)
    requires forall i, j :: 0 <= i < j < |artifacts| ==> artifacts[i].name != artifacts[j].name
    ensures var path := dir + [artifacts[n].name];
            AllFit(t0, dir, artifacts) ==>
              && entries + EntriesBelow(t, path) <= MAX_ENTRIES && bytes + BytesBelow(t, path) <= MAX_BYTES
              && Acceptable(t, dir, artifacts[n])
              && (!artifacts[n].isFile ==> Fits(t, path, 0, entries, bytes, false))
  {
    var a := artifacts[n];
    SameBelow(t0, dir, artifacts[..n], a, t);
    RemovingOneChild(t0, dir, Names(artifacts[..n]), a.name);
    SubtreeIsLighter(WithoutChildren(t0, dir, Names(artifacts)), Without(t, dir + [a.name]));
    assert AllFit(t0, dir, artifacts) ==> a in artifacts && Acceptable(t0, dir, a);
  }

  /** Removing other artifacts leaves an artifact as it was. */
  lemma SameBelow(t0: Tree, dir: Path, done: seq<Artifact>, a: Artifact, t: Tree)
    requires t == WithoutChildren(t0, dir, Names(done)) && a.name !in Names(done)
    ensures forall p :: dir + [a.name] <= p ==> (p in t <==> p in t0)
    ensures Acceptable(t, dir, a) <==> Acceptable(t0, dir, a)
  {
  }

  lemma OneMoreCleaned(t0: Tree, dir: Path, artifacts: seq<Artifact>, n: nat, t: Tree, entries: int, bytes: int,
                       t': Tree, entries': int, bytes': int)
    requires n < |artifacts| && Cleaned(t0, dir, artifacts[..n], t, entries, bytes)
    requires forall i, j :: 0 <= i < j < |artifacts| ==> artifacts[i].name != artifacts[j].name
    requires t' == Without(t, dir + [artifacts[n].name]) && Paid(entries', bytes', t, entries, bytes, t')
    requires Acceptable(t, dir, artifacts[n])
    ensures Cleaned(t0, dir, artifacts[..n + 1], t', entries', bytes')
  {
    assert artifacts[..n + 1] == artifacts[..n] + [artifacts[n]];
    assert Names(artifacts[..n + 1]) == Names(artifacts[..n]) + {artifacts[n].name};
    RemovingOneChild(t0, dir, Names(artifacts[..n]), artifacts[n].name);
    SameBelow(t0, dir, artifacts[..n], artifacts[n], t);
  }

  lemma StillOnlyArtifacts(t0: Tree, dir: Path, artifacts: seq<Artifact>, n: nat, t: Tree, t': Tree)
    requires n < |artifacts| && t == WithoutChildren(t0, dir, Names(artifacts[..n]))
    requires OnlyBelow(dir + [artifacts[n].name], t, t')
    ensures OnlyArtifacts(t0, dir, artifacts, t')
  {
  }

  // ----- the cleanup

  ghost predicate ExactFileFits(t: Tree, path: Path, entries: int, bytes: int) {
    && (path in t ==> t[path].File? && t[path].guard == Private)
    && entries + EntriesBelow(t, path) <= MAX_ENTRIES && bytes + BytesBelow(t, path) <= MAX_BYTES
  }

  /** Remove one private regular file by its exact name. */
  method RemoveExactFile(fs: FileSystem, budget: Budget, path: Path) returns (o: Outcome<()>)
    requires path != [] && WellFormed(fs.tree) && budget.Within()
    modifies fs`tree, budget
    ensures WellFormed(fs.tree) && OnlyBelow(path, old(fs.tree), fs.tree) && budget.entries <= MAX_ENTRIES + 1
    ensures o.Returned? ==> fs.tree == Without(old(fs.tree), path) && budget.Within()
    ensures o.Returned? ==> Paid(budget.entries, budget.bytes, old(fs.tree), old(budget.entries), old(budget.bytes),
                                 fs.tree)
    ensures o.Returned? && path in old(fs.tree) ==> old(fs.tree)[path].File? && old(fs.tree)[path].guard == Private
    ensures !fs.faults && ExactFileFits(old(fs.tree), path, old(budget.entries), old(budget.bytes)) ==> o.Returned?
  {
    var _ :- fs.Attempt();
    if path !in fs.tree {
      LeafFits(fs.tree, path, 0, false);
      return Returned(());
    }
    var e := fs.tree[path];
    if e.File? { LeafFits(fs.tree, path, 0, false); }
    var _ :- budget.Consume(e);
    if !e.File? || e.guard != Private { return Raised; }
    o := fs.Drop(path);
  }

  method RemoveArtifact(fs: FileSystem, budget: Budget, dir: Path, ghost t0: Tree, artifacts: seq<Artifact>, n: nat)
    returns (o: Outcome<()>)
    requires n < |artifacts| && WellFormed(fs.tree) && budget.Within()
    requires forall i, j :: 0 <= i < j < |artifacts| ==> artifacts[i].name != artifacts[j].name
    requires Cleaned(t0, dir, artifacts[..n], fs.tree, budget.entries, budget.bytes)
    modifies fs`tree, budget
    ensures WellFormed(fs.tree) && OnlyArtifacts(t0, dir, artifacts, fs.tree) && budget.entries <= MAX_ENTRIES + 1
    ensures o.Returned? ==> budget.Within()
    ensures o.Returned? ==> Cleaned(t0, dir, artifacts[..n + 1], fs.tree, budget.entries, budget.bytes)
    ensures !fs.faults && AllFit(t0, dir, artifacts) ==> o.Returned?
  {
    ghost var t, entries, bytes := fs.tree, budget.entries, budget.bytes;
    NextFits(t0, dir, artifacts, n, t, entries, bytes);
    if artifacts[n].isFile {
      o := RemoveExactFile(fs, budget, dir + [artifacts[n].name]);
    } else {
      o := RemoveTree(fs, budget, dir + [artifacts[n].name], 0, false);
    }
    StillOnlyArtifacts(t0, dir, artifacts, n, t, fs.tree);
    if o.Returned? { OneMoreCleaned(t0, dir, artifacts, n, t, entries, bytes, fs.tree, budget.entries, budget.bytes); }
  }

  method RemoveArtifacts(fs: FileSystem, dir: Path, artifacts: seq<Artifact>) returns (o: Outcome<()>)
    requires WellFormed(fs.tree)
    requires forall i, j :: 0 <= i < j < |artifacts| ==> artifacts[i].name != artifacts[j].name
    modifies fs`tree
    ensures WellFormed(fs.tree) && OnlyArtifacts(old(fs.tree), dir, artifacts, fs.tree)
    ensures o.Returned? ==> fs.tree == WithoutChildren(old(fs.tree), dir, Names(artifacts))
    ensures o.Returned? ==> AllFit(old(fs.tree), dir, artifacts)
    ensures !fs.faults && AllFit(old(fs.tree), dir, artifacts) ==> o.Returned?
  {
    ghost var t0 := fs.tree;
    var budget := new Budget();
    RemovingNothing(t0, dir);
    assert Names(artifacts[..0]) == {};
    for n := 0 to |artifacts|
      invariant WellFormed(fs.tree) && budget.Within() && OnlyArtifacts(t0, dir, artifacts, fs.tree)
      invariant Cleaned(t0, dir, artifacts[..n], fs.tree, budget.entries, budget.bytes)
    {
      o := RemoveArtifact(fs, budget, dir, t0, artifacts, n);
      if o.Raised? { return; }
    }
    assert artifacts[..|artifacts|] == artifacts;
    return Returned(());
  }

  predicate BoundPair(t: Tree, dir: Path, name: string) {
    && dir + [name] in t && t[dir + [name]].File? && t[dir + [name]].guard == Private
    && dir + [BundleOf(name)] in t && t[dir + [BundleOf(name)]].Directory? && t[dir + [BundleOf(name)]].guard == Private
  }

  /** When the cleanup of a snapshot can succeed. */
  ghost predicate Cleanable(t: Tree, dir: Path, name: string, preserve: bool) {
    if dir !in t then !preserve else
      && t[dir].Directory? && t[dir].guard == Private && AllFit(t, dir, Artifacts(name, preserve))
      && (preserve ==> BoundPair(t, dir, name))
  }

  /** Remove exactly the artifacts of one interrupted snapshot. */
  method CleanupSnapshotArtifacts(fs: FileSystem, dir: Path, name: string, preserve: bool) returns (o: Outcome<()>)
    requires WellFormed(fs.tree)
    modifies fs`tree
    ensures WellFormed(fs.tree) && OnlyArtifacts(old(fs.tree), dir, Artifacts(name, preserve), fs.tree)
    ensures o.Returned? ==> fs.tree == WithoutChildren(old(fs.tree), dir, Names(Artifacts(name, preserve)))
    ensures o.Returned? ==> SafeComponent(BundleOf(name)) && Cleanable(old(fs.tree), dir, name, preserve)
    ensures !fs.faults && SafeComponent(BundleOf(name)) && Cleanable(old(fs.tree), dir, name, preserve) ==> o.Returned?
  {
    ghost var t0 := fs.tree;
    UntouchedSoFar(t0, dir, Artifacts(name, preserve));
    if !SafeComponent(BundleOf(name)) { return Raised; }
    if dir !in fs.tree { return if preserve then Raised else Returned(()); }
    var _ :- fs.Attempt();
    if !fs.tree[dir].Directory? || fs.tree[dir].guard != Private { return Raised; }
    if preserve && !BoundPair(fs.tree, dir, name) { return Raised; }
    ArtifactsAreDistinct(name, preserve);
    var _ :- RemoveArtifacts(fs, dir, Artifacts(name, preserve));
    if preserve { PairSurvives(t0, dir, name); }
    if preserve && !BoundPair(fs.tree, dir, name) { return Raised; }
    o := fs.Attempt();
  }

  lemma PairSurvives(t: Tree, dir: Path, name: string)
    requires BoundPair(t, dir, name)
    ensures BoundPair(WithoutChildren(t, dir, Names(Artifacts(name, true))), dir, name)
  {
  }

  lemma UntouchedSoFar(t: Tree, dir: Path, artifacts: seq<Artifact>)
    requires WellFormed(t)
    ensures OnlyArtifacts(t, dir, artifacts, t)
    ensures dir !in t ==> t == WithoutChildren(t, dir, Names(artifacts))
  {
    RemovingNothing(t, dir);
    forall p | p in t && dir !in t
      ensures !(dir <= p)
    {
      assert p in Without(t, dir);
    }
  }
}
