/** Bounded removal of the artifacts that an interrupted snapshot leaves behind. */
module PayloadCleanup {
  import opened Outcomes
  import opened DirectoryTree

  const MAX_ENTRIES := 32768
  const MAX_BYTES := 68719476736 + 67108864 + 8388608
  const MAX_DEPTH := 64

  predicate SafeComponent(name: string) {
    name != "" && name != "." && name != ".." && '/' !in name && '\0' !in name && |name| <= 255
  }

  /** The metadata that a removal accepts: everything must be under the owner's control, or, when a
      private root made by this process is discarded, only the root itself. */
  predicate Removable(e: Entry, depth: nat, discard: bool) {
    if discard then depth == 0 ==> !e.Special? && e.guard == Private
    else match e
         case Special => false
         case File(_, guard) => guard != Loose
         case Directory(guard) => if depth == 0 then guard == Private else guard != Loose
  }

  /** The directory tree; with faults, any operation may fail. */
  class FileSystem {
    var tree: Tree
    const faults: bool

    method Attempt() returns (o: Outcome<()>)
      ensures !faults ==> o.Returned?
    {
      var failed: bool := *;
      return if failed && faults then Raised else Returned(());
    }

    /** unlink or rmdir, and an fsync of the parent that may still fail. */
    method Drop(path: Path) returns (o: Outcome<()>)
      requires WellFormed(tree)
      modifies this`tree
      ensures WellFormed(tree)
      ensures tree == old(tree) || tree == Without(old(tree), path)
      ensures o.Returned? ==> tree == Without(old(tree), path)
      ensures !faults && Children(old(tree), path) == {} ==> o.Returned?
    {
      var _ :- Attempt();
      if Children(tree, path) != {} { return Raised; }
      LeafRemoval(tree, path);
      tree := tree - {path};
      o := Attempt();
    }
  }

  class Budget {
    var entries: int
    var bytes: int

    constructor ()
      ensures entries == 0 && bytes == 0
    {
      entries, bytes := 0, 0;
    }

    predicate Within() reads this { 0 <= entries <= MAX_ENTRIES && 0 <= bytes <= MAX_BYTES }

    method Consume(e: Entry) returns (o: Outcome<()>)
      requires Within()
      modifies this
      ensures o.Returned? <==> Within()
      ensures entries == old(entries) + 1
      ensures o.Returned? ==> bytes == old(bytes) + Size(e)
      ensures !Within() ==> old(entries) + 1 > MAX_ENTRIES || old(bytes) + Size(e) > MAX_BYTES
    {
      entries := entries + 1;
      if entries > MAX_ENTRIES { return Raised; }
      if e.File? {
        bytes := bytes + e.size;
        if bytes > MAX_BYTES { return Raised; }
      }
      return Returned(());
    }
  }

  lemma LeafRemoval(t: Tree, path: Path)
    requires WellFormed(t) && Children(t, path) == {}
    ensures t - {path} == Without(t, path) && WellFormed(t - {path})
  {
    RemovingNothing(t, path);
    RemovalKeepsShape(t, path, {});
    if path in t { RemovingAllChildren(t, path); }
  }

  // ----- what a removal needs

  ghost function EntriesBelow(t: Tree, path: Path): int { |t| - |Without(t, path)| }

  ghost function BytesBelow(t: Tree, path: Path): int { Bytes(t) - Bytes(Without(t, path)) }

  ghost predicate Accepts(e: Entry, p: Path, depth: int, discard: bool) {
    p != [] && 0 <= depth <= MAX_DEPTH && SafeComponent(p[|p| - 1]) && Removable(e, depth, discard)
  }

  /** Everything at or below a path is acceptable, when the path itself is at a given depth. */
  ghost predicate AcceptsBelow(t: Tree, path: Path, depth: nat, discard: bool) {
    forall p :: p in t && path <= p ==> Accepts(t[p], p, depth + |p| - |path|, discard)
  }

  /** The subtree is small, shallow and trusted enough, given what the budget has already spent. */
  ghost predicate Fits(t: Tree, path: Path, depth: nat, entries: int, bytes: int, discard: bool)
    requires path != []
  {
    && depth <= MAX_DEPTH && SafeComponent(path[|path| - 1])
    && entries + EntriesBelow(t, path) <= MAX_ENTRIES && bytes + BytesBelow(t, path) <= MAX_BYTES
    && AcceptsBelow(t, path, depth, discard)
  }

  /** The budget has paid for itself, and for what has left the tree since. */
  ghost predicate Paid(entries: int, bytes: int, t0: Tree, entries0: int, bytes0: int, t: Tree) {
    entries == entries0 + |t0| - |t| && bytes == bytes0 + Bytes(t0) - Bytes(t)
  }

  lemma {:induction false} ImageSize(path: Path, names: set<string>)
    ensures |set name | name in names :: path + [name]| == |names|
    decreases |names|
  {
    if names != {} {
      var x :| x in names;
      ImageSize(path, names - {x});
      var image := set name | name in names - {x} :: path + [name];
      forall name | name in names - {x}
        ensures path + [name] != path + [x]
      {
        assert (path + [name])[|path|] == name;
      }
      assert (set name | name in names :: path + [name]) == image + {path + [x]};
    }
  }

  /** The scan of a directory that fits stays within the entry limit. */
  lemma ScanFits(t: Tree, path: Path)
    requires path in t
    ensures 1 + |Children(t, path)| <= EntriesBelow(t, path)
  {
    ImageSize(path, Children(t, path));
    var image := set name | name in Children(t, path) :: path + [name];
    var kept := Without(t, path);
    assert t.Keys >= kept.Keys + image + {path};
    assert forall p :: p in image ==> |p| == |path| + 1;
    assert |kept.Keys + image + {path}| == |kept.Keys| + |image| + 1;
    CardinalityGrows(kept.Keys + image + {path}, t.Keys);
  }

  lemma {:induction false} CardinalityGrows(a: set<Path>, b: set<Path>)
    requires a <= b
    ensures |a| <= |b|
  {
    assert |b| == |a| + |b - a| by { assert b == a + (b - a); }
  }

  /** If a directory fits, so does each child once its earlier siblings are gone and paid for. */
  lemma ChildFits(t0: Tree, path: Path, depth: nat, entries0: int, bytes0: int, discard: bool,
                  names: set<string>, name: string, t: Tree, entries: int, bytes: int)
    requires WellFormed(t0) && path != [] && path in t0 && t0[path].Directory?
    requires Fits(t0, path, depth, entries0, bytes0, discard)
    requires t == WithoutChildren(t0, path, names) && name in Children(t0, path) && name !in names
    requires Paid(entries, bytes, t0, entries0 + 1, bytes0, t)
    ensures depth + 1 <= MAX_DEPTH && Fits(t, path + [name], depth + 1, entries, bytes, discard)
  {
    var child := path + [name];
    assert child in t0 && path <= child && child[|child| - 1] == name;
    assert Accepts(t0[child], child, depth + |child| - |path|, discard);
    LessRemains(t0, path, names, name);
    ChildAccepted(t0, path, depth, discard, names, name);
  }

  /** Removing one child leaves more than removing the whole directory. */
  lemma LessRemains(t0: Tree, path: Path, names: set<string>, name: string)
    requires path in t0
    ensures var after := Without(WithoutChildren(t0, path, names), path + [name]);
            |Without(t0, path)| + 1 <= |after| && Bytes(Without(t0, path)) <= Bytes(after)
  {
    var after, least := WithoutChildren(t0, path, names + {name}), Without(t0, path);
    RemovingOneChild(t0, path, names, name);
    assert path in after && path !in least;
    assert Subtree(least, after - {path});
    SubtreeIsLighter(least, after - {path});
    BytesWithoutOne(after, path);
  }

  lemma ChildAccepted(t0: Tree, path: Path, depth: nat, discard: bool, names: set<string>, name: string)
    requires AcceptsBelow(t0, path, depth, discard)
    ensures AcceptsBelow(WithoutChildren(t0, path, names), path + [name], depth + 1, discard)
  {
  }

  /** Every removed child was acceptable. */
  ghost predicate AcceptedUnder(t: Tree, path: Path, names: set<string>, depth: nat, discard: bool) {
    forall p :: p in t && Under(path, names, p) ==> Accepts(t[p], p, depth + |p| - |path|, discard)
  }

  lemma AcceptedOneMore(t0: Tree, path: Path, names: set<string>, name: string, depth: nat, discard: bool)
    requires AcceptedUnder(t0, path, names, depth, discard)
    requires AcceptsBelow(WithoutChildren(t0, path, names), path + [name], depth + 1, discard)
    ensures AcceptedUnder(t0, path, names + {name}, depth, discard)
  {
  }

  /** A directory whose children were all removed within the budget fits as a whole. */
  lemma EmptiedDirectoryFits(t0: Tree, path: Path, depth: nat, entries0: int, bytes0: int, discard: bool, t: Tree,
                             entries: int, bytes: int)
    requires WellFormed(t0) && path != [] && path in t0 && t0[path].Directory? && depth <= MAX_DEPTH
             && SafeComponent(path[|path| - 1])
    requires t == WithoutChildren(t0, path, Children(t0, path)) && Removable(t0[path], depth, discard)
    requires AcceptedUnder(t0, path, Children(t0, path), depth, discard)
    requires Paid(entries, bytes, t0, entries0 + 1, bytes0, t) && entries <= MAX_ENTRIES && bytes <= MAX_BYTES
    ensures t - {path} == Without(t, path) == Without(t0, path)
    ensures Fits(t0, path, depth, entries0, bytes0, discard)
            && Paid(entries, bytes, t0, entries0, bytes0, Without(t0, path))
  {
    RemovingAllChildren(t0, path);
    RemovalKeepsShape(t0, path, Children(t0, path));
    LeafRemoval(t, path);
    BytesWithoutOne(t, path);
    PrefixCases(path);
    forall p | p in t0 && path <= p
      ensures Accepts(t0[p], p, depth + |p| - |path|, discard)
    {
      if p != path { assert p[..|path| + 1] == path + [p[|path|]]; }
    }
  }

  /** A removal changes nothing outside its subtree. */
  ghost predicate OnlyBelow(path: Path, t0: Tree, t: Tree) {
    Subtree(t, t0) && Subtree(Without(t0, path), t)
  }

  lemma ParentsAreDirectories(t: Tree, path: Path)
    requires WellFormed(t)
    ensures forall name :: path + [name] in t ==> path in t && t[path].Directory?
  {
    forall name | path + [name] in t
      ensures path in t && t[path].Directory?
    {
      assert (path + [name])[..|path|] == path;
    }
  }

  lemma LeafFits(t: Tree, path: Path, depth: nat, discard: bool)
    requires WellFormed(t) && path != []
    requires path in t ==> !t[path].Directory?
    ensures path in t ==> Children(t, path) == {} && EntriesBelow(t, path) == 1 && BytesBelow(t, path) == Size(t[path])
    ensures path in t ==> (AcceptsBelow(t, path, depth, discard) <==> Accepts(t[path], path, depth, discard))
    ensures path !in t ==> Without(t, path) == t && AcceptsBelow(t, path, depth, discard)
  {
    RemovingNothing(t, path);
    PrefixCases(path);
    if path in t {
      ParentsAreDirectories(t, path);
      LeafRemoval(t, path);
      assert forall p :: p in t && path <= p ==> p !in Without(t, path);
      BytesWithoutOne(t, path);
    }
  }

  /** Remove (or, for a private staging root, discard) one bounded subtree without following links. */
  method RemoveTree(fs: FileSystem, budget: Budget, path: Path, depth: nat, discard: bool) returns (o: Outcome<()>)
    requires path != [] && WellFormed(fs.tree) && budget.Within() && depth <= MAX_DEPTH + 1
    modifies fs`tree, budget
    ensures WellFormed(fs.tree) && OnlyBelow(path, old(fs.tree), fs.tree) && budget.entries <= MAX_ENTRIES + 1
    ensures o.Returned? ==> fs.tree == Without(old(fs.tree), path)
    ensures o.Returned? ==> budget.Within()
    ensures o.Returned? ==>
              Paid(budget.entries, budget.bytes, old(fs.tree), old(budget.entries), old(budget.bytes), fs.tree)
    ensures o.Returned? ==> Fits(old(fs.tree), path, depth, old(budget.entries), old(budget.bytes), discard)
    ensures !fs.faults && Fits(old(fs.tree), path, depth, old(budget.entries), old(budget.bytes), discard) ==>
              o.Returned?
    decreases MAX_DEPTH + 1 - depth, 2, 0
  {
    ghost var t0 := fs.tree;
    if !SafeComponent(path[|path| - 1]) || depth > MAX_DEPTH { return Raised; }
    var _ :- fs.Attempt();
    if path !in fs.tree {
      LeafFits(t0, path, depth, discard);
      return Returned(());
    }
    var e := fs.tree[path];
    if e.Directory? {
      o := RemoveDirectory(fs, budget, path, depth, discard);
    } else {
      LeafFits(t0, path, depth, discard);
      var _ :- budget.Consume(e);
      if !Removable(e, depth, discard) { return Raised; }
      o := fs.Drop(path);
    }
  }

  method RemoveDirectory(fs: FileSystem, budget: Budget, path: Path, depth: nat, discard: bool) returns (o: Outcome<()>)
    requires path != [] && WellFormed(fs.tree) && budget.Within() && depth <= MAX_DEPTH
             && SafeComponent(path[|path| - 1])
    requires path in fs.tree && fs.tree[path].Directory?
    modifies fs`tree, budget
    ensures WellFormed(fs.tree) && OnlyBelow(path, old(fs.tree), fs.tree) && budget.entries <= MAX_ENTRIES + 1
    ensures o.Returned? ==> fs.tree == Without(old(fs.tree), path)
    ensures o.Returned? ==> budget.Within()
    ensures o.Returned? ==>
              Paid(budget.entries, budget.bytes, old(fs.tree), old(budget.entries), old(budget.bytes), fs.tree)
    ensures o.Returned? ==> Fits(old(fs.tree), path, depth, old(budget.entries), old(budget.bytes), discard)
    ensures !fs.faults && Fits(old(fs.tree), path, depth, old(budget.entries), old(budget.bytes), discard) ==>
              o.Returned?
    decreases MAX_DEPTH + 1 - depth, 1, 0
  {
    ghost var t0, entries0, bytes0 := fs.tree, budget.entries, budget.bytes;
    ghost var fits := Fits(t0, path, depth, entries0, bytes0, discard);
    ScanFits(t0, path);
    SubtreeIsLighter(Without(t0, path), t0);
    assert fits ==> Accepts(t0[path], path, depth + |path| - |path|, discard);
    var _ :- budget.Consume(fs.tree[path]);
    if !Removable(fs.tree[path], depth, discard) { return Raised; }
    var _ :- RemoveChildren(fs, budget, path, depth, discard);
    EmptiedDirectoryFits(t0, path, depth, entries0, bytes0, discard, fs.tree, budget.entries, budget.bytes);
    RemovingAllChildren(t0, path);
    o := fs.Drop(path);
  }

  method RemoveChildren(fs: FileSystem, budget: Budget, path: Path, depth: nat, discard: bool) returns (o: Outcome<()>)
    requires path != [] && WellFormed(fs.tree) && budget.Within() && depth <= MAX_DEPTH
    requires path in fs.tree && fs.tree[path].Directory?
    modifies fs`tree, budget
    ensures WellFormed(fs.tree) && OnlyBelow(path, old(fs.tree), fs.tree) && budget.entries <= MAX_ENTRIES + 1
    ensures o.Returned? ==> fs.tree == WithoutChildren(old(fs.tree), path, Children(old(fs.tree), path))
    ensures o.Returned? ==> budget.Within()
    ensures o.Returned? ==>
              Paid(budget.entries, budget.bytes, old(fs.tree), old(budget.entries), old(budget.bytes), fs.tree)
    ensures o.Returned? ==> AcceptedUnder(old(fs.tree), path, Children(old(fs.tree), path), depth, discard)
    ensures !fs.faults && Fits(old(fs.tree), path, depth, old(budget.entries) - 1, old(budget.bytes), discard) ==>
              o.Returned?
    decreases MAX_DEPTH + 1 - depth, 0, 1
  {
    ghost var t0, entries0, bytes0 := fs.tree, budget.entries, budget.bytes;
    ghost var fits := Fits(t0, path, depth, entries0 - 1, bytes0, discard);
    var _ :- fs.Attempt();
    var names := Children(fs.tree, path);
    if budget.entries + |names| > MAX_ENTRIES {
      ScanFits(t0, path);
      return Raised;
    }
    var rest := names;
    NothingRemoved(t0, entries0, bytes0, path, names, depth, discard);
    while rest != {}
      invariant rest <= names && budget.Within() && WellFormed(fs.tree) && OnlyBelow(path, t0, fs.tree)
      invariant Progress(t0, entries0, bytes0, path, names - rest, depth, discard, fs.tree, budget.entries,
                         budget.bytes)
    {
      var name :| name in rest;
      o := RemoveChild(fs, budget, path, name, depth, discard, t0, entries0, bytes0, names - rest);
      if o.Raised? { return; }
      MovedOver(names, rest, name);
      rest := rest - {name};
    }
    o := fs.Attempt();
  }

  lemma MovedOver(names: set<string>, rest: set<string>, name: string)
    requires name in rest && rest <= names
    ensures names - (rest - {name}) == names - rest + {name} && rest - {name} <= names
  {
  }

  /** Where the removal of the children of a directory stands. */
  ghost predicate Progress(t0: Tree, entries0: int, bytes0: int, path: Path, names: set<string>, depth: nat,
                           discard: bool, t: Tree, entries: int, bytes: int) {
    && t == WithoutChildren(t0, path, names) && Paid(entries, bytes, t0, entries0, bytes0, t)
    && AcceptedUnder(t0, path, names, depth, discard)
  }

  lemma NothingRemoved(t: Tree, entries: int, bytes: int, path: Path, names: set<string>, depth: nat, discard: bool)
    ensures names - names == {} && names - {} == names
    ensures Progress(t, entries, bytes, path, {}, depth, discard, t, entries, bytes) && OnlyBelow(path, t, t)
  {
  }

  lemma OneChildLess(t0: Tree, entries0: int, bytes0: int, path: Path, names: set<string>, name: string, depth: nat,
                     discard: bool,
                     t: Tree, entries: int, bytes: int, t': Tree, entries': int, bytes': int)
    requires Progress(t0, entries0, bytes0, path, names, depth, discard, t, entries, bytes)
    requires t' == Without(t, path + [name]) && Paid(entries', bytes', t, entries, bytes, t')
    requires AcceptsBelow(t, path + [name], depth + 1, discard)
    ensures Progress(t0, entries0, bytes0, path, names + {name}, depth, discard, t', entries', bytes')
  {
    RemovingOneChild(t0, path, names, name);
    AcceptedOneMore(t0, path, names, name, depth, discard);
  }

  lemma OnlyBelowChild(t0: Tree, path: Path, names: set<string>, name: string, t: Tree, t': Tree)
    requires t == WithoutChildren(t0, path, names) && OnlyBelow(path + [name], t, t')
    ensures OnlyBelow(path, t0, t')
  {
  }

  lemma BeforeChild(t0: Tree, entries0: int, bytes0: int, path: Path, names: set<string>, name: string, depth: nat,
                    discard: bool,
                    t: Tree, entries: int, bytes: int)
    requires WellFormed(t0) && path != [] && path in t0 && t0[path].Directory? && name in Children(t0, path)
             && name !in names
    requires Progress(t0, entries0, bytes0, path, names, depth, discard, t, entries, bytes)
    ensures Fits(t0, path, depth, entries0 - 1, bytes0, discard) ==>
              Fits(t, path + [name], depth + 1, entries, bytes, discard)
  {
    if Fits(t0, path, depth, entries0 - 1, bytes0, discard) {
      ChildFits(t0, path, depth, entries0 - 1, bytes0, discard, names, name, t, entries, bytes);
    }
  }

  lemma AfterChild(t0: Tree, entries0: int, bytes0: int, path: Path, names: set<string>, name: string, depth: nat,
                   discard: bool,
                   t: Tree, entries: int, bytes: int, t': Tree, entries': int, bytes': int, returned: bool)
    requires Progress(t0, entries0, bytes0, path, names, depth, discard, t, entries, bytes)
    requires OnlyBelow(path + [name], t, t')
    requires returned ==> t' == Without(t, path + [name]) && Paid(entries', bytes', t, entries, bytes, t')
    requires returned ==> Fits(t, path + [name], depth + 1, entries, bytes, discard)
    ensures OnlyBelow(path, t0, t')
    ensures returned ==> Progress(t0, entries0, bytes0, path, names + {name}, depth, discard, t', entries', bytes')
  {
    OnlyBelowChild(t0, path, names, name, t, t');
    if returned {
      OneChildLess(t0, entries0, bytes0, path, names, name, depth, discard, t, entries, bytes, t', entries', bytes');
    }
  }

  method RemoveChild(fs: FileSystem, budget: Budget, path: Path, name: string, depth: nat, discard: bool,
                     ghost t0: Tree, ghost entries0: int, ghost bytes0: int, ghost names: set<string>)
    returns (o: Outcome<()>)
    requires path != [] && WellFormed(t0) && WellFormed(fs.tree) && budget.Within() && depth <= MAX_DEPTH
    requires path in t0 && t0[path].Directory? && name in Children(t0, path) && name !in names
    requires Progress(t0, entries0, bytes0, path, names, depth, discard, fs.tree, budget.entries, budget.bytes)
    modifies fs`tree, budget
    ensures WellFormed(fs.tree) && OnlyBelow(path, t0, fs.tree) && budget.entries <= MAX_ENTRIES + 1
    ensures o.Returned? ==> budget.Within()
    ensures o.Returned? ==> Progress(t0, entries0, bytes0, path, names + {name}, depth, discard, fs.tree,
                                     budget.entries, budget.bytes)
    ensures !fs.faults && Fits(t0, path, depth, entries0 - 1, bytes0, discard) ==> o.Returned?
    decreases MAX_DEPTH + 1 - depth, 0, 0
  {
    ghost var t, entries, bytes := fs.tree, budget.entries, budget.bytes;
    BeforeChild(t0, entries0, bytes0, path, names, name, depth, discard, t, entries, bytes);
    o := RemoveTree(fs, budget, path + [name], depth + 1, discard);
    AfterChild(t0, entries0, bytes0, path, names, name, depth, discard, t, entries, bytes, fs.tree, budget.entries,
               budget.bytes, o.Returned?);
  }
}
