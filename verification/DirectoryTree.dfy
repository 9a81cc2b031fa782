/** A directory tree as a finite map from paths to entries. */
module DirectoryTree {

  type Path = seq<string>

  /** How well an entry is guarded: private to its owner, writable only by it, or neither. */
  datatype Guard = Private | Controlled | Loose

  datatype Entry = File(size: nat, guard: Guard) | Directory(guard: Guard) | Special

  type Tree = map<Path, Entry>

  /** Every prefix of a path is a directory. */
  ghost predicate WellFormed(t: Tree) {
    forall p, k :: p in t && 0 <= k < |p| ==> p[..k] in t && t[p[..k]].Directory?
  }

  ghost predicate Subtree(t: Tree, u: Tree) {
    forall p :: p in t ==> p in u && u[p] == t[p]
  }

  /** The tree without an entry and everything below it. */
  function Without(t: Tree, path: Path): Tree {
    map p | p in t && !(path <= p) :: t[p]
  }

  predicate Under(path: Path, names: set<string>, p: Path) {
    path <= p && |path| < |p| && p[|path|] in names
  }

  /** The tree without some children of a directory and everything below them. */
  function WithoutChildren(t: Tree, path: Path, names: set<string>): Tree {
    map p | p in t && !Under(path, names, p) :: t[p]
  }

  function Children(t: Tree, path: Path): (names: set<string>)
    ensures forall name :: name in names <==> path + [name] in t
  {
    assert forall p: Path :: |p| == |path| + 1 && path <= p ==> p == path + [p[|path|]];
    assert forall name :: path + [name] in t ==> (path + [name])[|path|] == name;
    set p | p in t && |p| == |path| + 1 && path <= p :: p[|path|]
  }

  // ----- how much there is

  function Size(e: Entry): nat { if e.File? then e.size else 0 }

  ghost function Bytes(t: Tree): nat {
    if t == map[] then 0 else
      var p :| p in t;
      Size(t[p]) + Bytes(t - {p})
  }

  lemma {:induction false} BytesWithoutOne(t: Tree, p: Path)
    requires p in t
    ensures Bytes(t) == Size(t[p]) + Bytes(t - {p})
    decreases |t|
  {
    var q :| q in t && Bytes(t) == Size(t[q]) + Bytes(t - {q});
    if q != p {
      BytesWithoutOne(t - {q}, p);
      BytesWithoutOne(t - {p}, q);
      assert t - {q} - {p} == t - {p} - {q};
    }
  }

  /** A smaller tree has no more entries and no more bytes. */
  lemma {:induction false} SubtreeIsLighter(t: Tree, u: Tree)
    requires Subtree(t, u)
    ensures |t| <= |u| && Bytes(t) <= Bytes(u)
    decreases |t|
  {
    if t != map[] {
      var p :| p in t;
      BytesWithoutOne(t, p);
      BytesWithoutOne(u, p);
      SubtreeIsLighter(t - {p}, u - {p});
    }
  }

  // ----- removal, one child at a time

  lemma PrefixCases(path: Path)
    ensures forall p: Path :: path <= p ==> (p == path || |path| < |p|) && p[..|path|] == path
  {
  }

  lemma RemovingNothing(t: Tree, path: Path)
    ensures WithoutChildren(t, path, {}) == t
    ensures path !in t && WellFormed(t) ==> Without(t, path) == t
  {
    PrefixCases(path);
  }

  lemma RemovingOneChild(t: Tree, path: Path, names: set<string>, name: string)
    ensures Without(WithoutChildren(t, path, names), path + [name]) == WithoutChildren(t, path, names + {name})
  {
  }

  lemma RemovingAllChildren(t: Tree, path: Path)
    requires WellFormed(t) && path in t
    ensures WithoutChildren(t, path, Children(t, path)) - {path} == Without(t, path)
    ensures Children(WithoutChildren(t, path, Children(t, path)), path) == {}
  {
    PrefixCases(path);
    forall p | p in t && path <= p && p != path
      ensures |path| < |p| && p[|path|] in Children(t, path)
    {
      assert p[..|path| + 1] == path + [p[|path|]];
    }
  }

  lemma RemovalKeepsShape(t: Tree, path: Path, names: set<string>)
    requires WellFormed(t)
    ensures WellFormed(Without(t, path)) && WellFormed(WithoutChildren(t, path, names))
  {
  }
}
