/** The order in which loaded NVIDIA kernel modules may be unloaded: holders before what they hold,
    found by a depth-first search over a set of modules that grows while it is searched. */
module UnloadOrder {
  import opened Outcomes

  type Name = string

  /** What /sys/module shows: the entries (None if they cannot be listed), which of them are
      directories, and the sorted holder listing of each whose listing can be read. `known` is the
      closed set of NVIDIA modules the tool recognises. */
  datatype SysModules = SysModules(
    known: set<Name>,
    entries: Option<set<Name>>,
    directories: set<Name>,
    holders: map<Name, seq<Name>>)
  {
    predicate Readable(m: Name) { m in holders }

    /** h holds m, as far as the search may look: only at readable listings of known modules. */
    predicate Holds(h: Name, m: Name) { m in known && m in holders && h in holders[m] }

    function Initial(): set<Name>
      requires entries.Some?
    {
      known * entries.value
    }
  }

  /** p leads from a module to a holder, to a holder of that, and so on. */
  predicate IsChain(g: SysModules, p: seq<Name>) {
    p != [] && forall i :: 0 <= i < |p| - 1 ==> g.Holds(p[i + 1], p[i])
  }

  /** m belongs to the holder-closure of the modules loaded at the start. */
  ghost predicate InClosure(g: SysModules, m: Name)
    requires g.entries.Some?
  {
    exists p :: IsChain(g, p) && p[0] in g.Initial() && p[|p| - 1] == m
  }

  /** m holds itself through one or more links. */
  ghost predicate OnCycle(g: SysModules, m: Name) {
    exists p :: IsChain(g, p) && |p| >= 2 && p[0] == m && p[|p| - 1] == m
  }

  /** The closure is made of known, observable modules and has no cycle. */
  ghost predicate Unloadable(g: SysModules)
    requires g.entries.Some?
  {
    forall m :: InClosure(g, m) ==> m in g.known && g.Readable(m) && m in g.directories && !OnCycle(g, m)
  }

  datatype Failure = CannotList | NotADirectory(entry: Name) | Unreadable(held: Name) | Unsupported(held: Name)
      | Cycle(through: Name)

  /** No module twice, and every holder of a module strictly before it. */
  ghost predicate HoldersFirst(g: SysModules, ordered: seq<Name>) {
    && (forall i, j :: 0 <= i < j < |ordered| ==> ordered[i] != ordered[j])
    && (forall j, h {:trigger g.Holds(h, ordered[j])} :: 0 <= j < |ordered| && g.Holds(h, ordered[j]) ==>
          h in ordered[..j])
  }

  lemma InitialInClosure(g: SysModules, m: Name)
    requires g.entries.Some? && m in g.Initial()
    ensures InClosure(g, m)
  {
    assert IsChain(g, [m]);
  }

  lemma HolderInClosure(g: SysModules, m: Name, h: Name)
    requires g.entries.Some? && InClosure(g, m) && g.Holds(h, m)
    ensures InClosure(g, h)
  {
    var p :| IsChain(g, p) && p[0] in g.Initial() && p[|p| - 1] == m;
    assert IsChain(g, p + [h]);
  }

  /** What the search knows at every point: nothing outside the closure was loaded, and what is
      ordered is settled. `stack` is the recursion: a chain from the first module being visited. */
  ghost predicate Explores(g: SysModules, loaded: set<Name>, visiting: set<Name>, visited: set<Name>,
                           ordered: seq<Name>, stack: seq<Name>)
  {
    && g.entries.Some?
    && loaded <= g.known && visited <= loaded && visiting <= loaded && visiting !! visited
    && (forall m :: m in loaded ==> InClosure(g, m) && m in g.directories)
    && (forall m :: m in visited <==> m in ordered)
    && (forall m :: m in visited ==> g.Readable(m))
    && (forall m, h {:trigger g.Holds(h, m)} :: m in visited && g.Holds(h, m) ==> h in visited)
    && (forall m :: m in visiting <==> m in stack)
    && (stack == [] || IsChain(g, stack))
    && HoldersFirst(g, ordered)
  }

  lemma LeavingKeeps(g: SysModules, loaded: set<Name>, visiting: set<Name>, visited: set<Name>,
                     ordered: seq<Name>, stack: seq<Name>, m: Name)
    requires Explores(g, loaded, visiting, visited, ordered, stack)
    requires stack != [] && m == stack[|stack| - 1] && m !in stack[..|stack| - 1]
    requires g.Readable(m) && forall h :: g.Holds(h, m) ==> h in visited
    ensures Explores(g, loaded, visiting - {m}, visited + {m}, ordered + [m], stack[..|stack| - 1])
  {
    var before := stack[..|stack| - 1];
    LeavingKeepsOrder(g, visited, ordered, m);
    PrefixIsChain(g, stack);
    forall x
      ensures x in visiting - {m} <==> x in before
    {
      assert stack == before + [m];
    }
    assert Explores(g, loaded, visiting, visited, ordered, stack);
  }

  lemma PrefixIsChain(g: SysModules, stack: seq<Name>)
    requires stack != [] && IsChain(g, stack)
    ensures stack[..|stack| - 1] == [] || IsChain(g, stack[..|stack| - 1])
  {
  }

  lemma LeavingKeepsOrder(g: SysModules, visited: set<Name>, ordered: seq<Name>, m: Name)
    requires HoldersFirst(g, ordered) && (forall x :: x in visited <==> x in ordered) && m !in visited
    requires forall h :: g.Holds(h, m) ==> h in visited
    ensures HoldersFirst(g, ordered + [m])
  {
    var longer := ordered + [m];
    forall j, h | 0 <= j < |longer| && g.Holds(h, longer[j])
      ensures h in longer[..j]
    {
      if j < |ordered| {
        assert g.Holds(h, ordered[j]);
        assert longer[..j] == ordered[..j];
      } else {
        assert longer[..j] == ordered;
      }
    }
  }

  lemma EnteringKeeps(g: SysModules, loaded: set<Name>, visiting: set<Name>, visited: set<Name>,
                      ordered: seq<Name>, stack: seq<Name>, m: Name)
    requires Explores(g, loaded, visiting, visited, ordered, stack)
    requires m in loaded && m !in visited && m !in visiting
    requires stack != [] ==> g.Holds(m, stack[|stack| - 1])
    ensures Explores(g, loaded, visiting + {m}, visited, ordered, stack + [m])
    ensures (stack + [m])[..|stack|] == stack
  {
  }

  lemma LoadingKeeps(g: SysModules, loaded: set<Name>, visiting: set<Name>, visited: set<Name>,
                     ordered: seq<Name>, stack: seq<Name>, m: Name, h: Name)
    requires Explores(g, loaded, visiting, visited, ordered, stack)
    requires m in loaded && g.Holds(h, m)
    ensures InClosure(g, h)
    ensures h in g.known && h in g.directories ==> Explores(g, loaded + {h}, visiting, visited, ordered, stack)
  {
    HolderInClosure(g, m, h);
  }

  class Search {
    const g: SysModules
    var loaded: set<Name>
    var visiting: set<Name>
    var visited: set<Name>
    var ordered: seq<Name>
    ghost var stack: seq<Name>

    constructor (g: SysModules)
      requires g.entries.Some?
      ensures this.g == g && loaded == g.Initial() && visiting == visited == {} && ordered == [] && stack == []
    {
      this.g := g;
      loaded := g.Initial();
      visiting, visited, ordered, stack := {}, {}, [], [];
    }

    ghost predicate Valid()
      reads this
    {
      Explores(g, loaded, visiting, visited, ordered, stack)
    }

    /** What one step of the search keeps, whatever it explores. */
    twostate predicate Explored()
      reads this
    {
      && Valid() && stack == old(stack) && visiting == old(visiting)
      && old(loaded) <= loaded && old(visited) <= visited
      && loaded <= old(loaded) + visited
    }

    /** Visit a module and everything that holds it. */
    method Visit(m: Name) returns (failure: Option<Failure>)
      requires Valid()
      requires m in loaded && stack != [] ==> g.Holds(m, stack[|stack| - 1])
      modifies this
      ensures failure.None? ==> Explored() && (m in old(loaded) ==> m in visited)
      ensures failure.Some? ==> !Unloadable(g)
      decreases g.known - visiting, 0
    {
      if m in visited || m !in loaded { return None; }
      if m in visiting {
        RevisitIsCycle(g, stack, m);
        return Some(Cycle(m));
      }
      EnteringKeeps(g, loaded, visiting, visited, ordered, stack, m);
      visiting, stack := visiting + {m}, stack + [m];
      failure := VisitHolders(m);
      if failure.Some? { return; }
      LeavingKeeps(g, loaded, visiting, visited, ordered, stack, m);
      visiting, stack := visiting - {m}, stack[..|stack| - 1];
      visited, ordered := visited + {m}, ordered + [m];
    }

    method VisitHolders(m: Name) returns (failure: Option<Failure>)
      requires Valid() && m in loaded && stack != [] && m == stack[|stack| - 1]
      modifies this
      ensures failure.None? ==> Explored() && g.Readable(m) && forall h :: g.Holds(h, m) ==> h in visited
      ensures failure.Some? ==> !Unloadable(g)
      decreases g.known - visiting, 1
    {
      if !g.Readable(m) { return Some(Unreadable(m)); }
      var holders := g.holders[m];
      if exists h :: h in holders && h !in g.known {
        ghost var h :| h in holders && h !in g.known;
        HolderInClosure(g, m, h);
        return Some(Unsupported(m));
      }
      for i := 0 to |holders|
        invariant Explored()
        invariant forall j :: 0 <= j < i ==> holders[j] in visited
      {
        var h := holders[i];
        LoadingKeeps(g, loaded, visiting, visited, ordered, stack, m, h);
        if h !in g.directories { return Some(NotADirectory(h)); }
        loaded := loaded + {h};
        failure := Visit(h);
        if failure.Some? { return; }
      }
      return None;
    }
  }

  /** Meeting a module that is still being visited closes a chain on itself. */
  lemma RevisitIsCycle(g: SysModules, stack: seq<Name>, m: Name)
    requires g.entries.Some? && stack != [] && IsChain(g, stack) && m in stack
    requires g.Holds(m, stack[|stack| - 1]) && InClosure(g, m)
    ensures !Unloadable(g)
  {
    var i :| 0 <= i < |stack| && stack[i] == m;
    var p := stack[i..] + [m];
    assert IsChain(g, p) && |p| >= 2 && p[0] == m && p[|p| - 1] == m;
  }

  /** Along a chain, positions in a holders-first order strictly decrease. */
  lemma {:induction false} ChainDescends(g: SysModules, ordered: seq<Name>, p: seq<Name>, j: nat)
    requires HoldersFirst(g, ordered) && IsChain(g, p)
    requires j < |ordered| && p[0] == ordered[j]
    ensures p[|p| - 1] in (if |p| == 1 then ordered[..j + 1] else ordered[..j])
    decreases |p|
  {
    if |p| == 1 {
      assert ordered[..j + 1][j] == p[0];
    } else {
      assert g.Holds(p[1], p[0]);
      var k :| 0 <= k < j && ordered[k] == p[1];
      forall i | 0 <= i < |p[1..]| - 1
        ensures g.Holds(p[1..][i + 1], p[1..][i])
      {
        assert g.Holds(p[i + 2], p[i + 1]);
      }
      ChainDescends(g, ordered, p[1..], k);
      assert ordered[..k] <= ordered[..j] && ordered[..k + 1] <= ordered[..j];
    }
  }

  lemma HoldersFirstHasNoCycle(g: SysModules, ordered: seq<Name>, m: Name)
    requires HoldersFirst(g, ordered) && m in ordered
    ensures !OnCycle(g, m)
  {
    if p :| IsChain(g, p) && |p| >= 2 && p[0] == m && p[|p| - 1] == m {
      var j :| 0 <= j < |ordered| && ordered[j] == m;
      ChainDescends(g, ordered, p, j);
    }
  }

  /** A set that contains the initial modules and every holder of its members contains the closure. */
  lemma {:induction false} ClosureIsLeast(g: SysModules, s: set<Name>, p: seq<Name>)
    requires g.entries.Some? && g.Initial() <= s
    requires forall m, h {:trigger g.Holds(h, m)} :: m in s && g.Holds(h, m) ==> h in s
    requires IsChain(g, p) && p[0] in g.Initial()
    ensures p[|p| - 1] in s
    decreases |p|
  {
    if |p| > 1 {
      PrefixIsChain(g, p);
      ClosureIsLeast(g, s, p[..|p| - 1]);
      assert g.Holds(p[|p| - 1], p[|p| - 2]);
    }
  }

  /** A finished search has ordered exactly the closure, and proved it unloadable. */
  lemma FinishedSearch(g: SysModules, visited: set<Name>, ordered: seq<Name>)
    requires Explores(g, visited, {}, visited, ordered, []) && g.Initial() <= visited
    ensures forall m :: m in ordered <==> InClosure(g, m)
    ensures Unloadable(g)
  {
    forall m | InClosure(g, m)
      ensures m in visited
    {
      var p :| IsChain(g, p) && p[0] in g.Initial() && p[|p| - 1] == m;
      ClosureIsLeast(g, visited, p);
    }
    forall m | InClosure(g, m)
      ensures !OnCycle(g, m)
    {
      HoldersFirstHasNoCycle(g, ordered, m);
    }
  }

  datatype Answer = Ordered(modules: seq<Name>) | Refused(failure: Failure)

  /** Holders before dependencies, or a refusal; `base` is the base driver, visited first. The loops
      may take the modules in any order; the source takes them sorted. */
  method ModuleUnloadOrder(g: SysModules, base: Name) returns (r: Answer)
    ensures r.Ordered? <==> g.entries.Some? && Unloadable(g)
    ensures r.Ordered? ==> HoldersFirst(g, r.modules) && forall m :: m in r.modules <==> InClosure(g, m)
  {
    if g.entries.None? { return Refused(CannotList); }
    var rest := g.Initial();
    while rest != {}
      invariant rest <= g.Initial()
      invariant forall m :: m in g.Initial() - rest ==> InClosure(g, m) && m in g.directories
    {
      var m :| m in rest;
      InitialInClosure(g, m);
      if m !in g.directories { return Refused(NotADirectory(m)); }
      rest := rest - {m};
    }
    var search := new Search(g);
    var failure := search.Visit(base);
    if failure.Some? { return Refused(failure.value); }
    rest := search.loaded;
    while rest != {}
      invariant search.Valid() && search.g == g && search.stack == [] && search.visiting == {}
      invariant rest <= search.loaded && search.loaded <= rest + search.visited
      invariant g.Initial() <= search.loaded
    {
      var m :| m in rest;
      failure := search.Visit(m);
      if failure.Some? { return Refused(failure.value); }
      rest := rest - {m};
    }
    assert search.loaded == search.visited;
    FinishedSearch(g, search.visited, search.ordered);
    return Ordered(search.ordered);
  }
}
