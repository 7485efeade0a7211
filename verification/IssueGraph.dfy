/**
 The dependency graph of an issue pack and its preflight checks
 (src/devloop/issue_scheduler.py:34-116).
 */
module IssueGraph {
  import opened Wrappers

  type Number = string

  datatype Issue = Issue(number: Number, completed: bool, dependencies: seq<Number>)

  datatype GraphError =
    | DuplicateIdentifier
    | DuplicateDependency(issue: Number, dependency: Number)
    | SelfDependency(issue: Number)
    | UnknownDependency(issue: Number, dependency: Number)
    | Cycle(path: seq<Number>)
    | UnfinishedPrerequisite(issue: Number, dependency: Number)

  /** The issues in index order. */
  type Pack = seq<Issue>

  predicate UniqueNumbers(pack: Pack) {
    forall i, j | 0 <= i < j < |pack| :: pack[i].number != pack[j].number
  }

  function Numbers(pack: Pack): set<Number> {
    set i | 0 <= i < |pack| :: pack[i].number
  }

  predicate Distinct(s: seq<Number>) {
    forall i, j | 0 <= i < j < |s| :: s[i] != s[j]
  }

  /** What `_validate_dependencies` demands of one issue. */
  predicate SoundDependencies(pack: Pack, issue: Issue) {
    && Distinct(issue.dependencies)
    && issue.number !in issue.dependencies
    && forall d | d in issue.dependencies :: d in Numbers(pack)
  }

  predicate Resolved(pack: Pack) {
    UniqueNumbers(pack) && forall i | 0 <= i < |pack| :: SoundDependencies(pack, pack[i])
  }

  /** The node lookup of `IssueDependencyGraph.node`. */
  function Node(pack: Pack, n: Number): (issue: Issue)
    requires n in Numbers(pack)
    ensures issue in pack && issue.number == n
  {
    if pack[|pack| - 1].number == n then pack[|pack| - 1] else Node(pack[..|pack| - 1], n)
  }

  lemma NodeAt(pack: Pack, i: nat)
    requires UniqueNumbers(pack) && i < |pack|
    ensures pack[i].number in Numbers(pack) && Node(pack, pack[i].number) == pack[i]
  {
    var issue := Node(pack, pack[i].number);
    var j :| 0 <= j < |pack| && pack[j] == issue;
    assert j == i;
  }

  /** `a` needs `b`. */
  predicate Needs(pack: Pack, a: Number, b: Number) {
    a in Numbers(pack) && b in Node(pack, a).dependencies
  }

  predicate IsPath(pack: Pack, path: seq<Number>) {
    forall i | 0 <= i < |path| - 1 :: Needs(pack, path[i], path[i + 1])
  }

  predicate IsCycle(pack: Pack, path: seq<Number>) {
    |path| >= 2 && path[0] == path[|path| - 1] && IsPath(pack, path)
  }

  ghost predicate Acyclic(pack: Pack) {
    forall path :: !IsCycle(pack, path)
  }

  // ---------------------------------------------------------------------------------------------
  // Orders in which dependencies come first

  /** `order` lists each of its members after everything that member needs. */
  predicate DependenciesFirst(pack: Pack, order: seq<Number>) {
    && Distinct(order)
    && forall i | 0 <= i < |order| ::
         order[i] in Numbers(pack) && forall d | d in Node(pack, order[i]).dependencies :: d in order[..i]
  }

  function Position(order: seq<Number>, n: Number): (i: nat)
    requires n in order
    ensures i < |order| && order[i] == n
  {
    if order[0] == n then 0 else 1 + Position(order[1..], n)
  }

  lemma NeedsDescends(pack: Pack, order: seq<Number>, a: Number, b: Number)
    requires DependenciesFirst(pack, order) && a in order && Needs(pack, a, b)
    ensures b in order && Position(order, b) < Position(order, a)
  {
    var i := Position(order, a);
    assert b in order[..i];
    var j :| 0 <= j < i && order[..i][j] == b;
    assert order[j] == b && order[Position(order, b)] == b;
  }

  lemma {:induction false} PathDescends(pack: Pack, order: seq<Number>, path: seq<Number>, k: nat)
    requires DependenciesFirst(pack, order) && IsPath(pack, path) && 0 < k < |path| && path[0] in order
    ensures path[k] in order && Position(order, path[k]) < Position(order, path[0])
  {
    if k > 1 {
      PathDescends(pack, order, path, k - 1);
    }
    NeedsDescends(pack, order, path[k - 1], path[k]);
  }

  /** A complete order of this kind is a certificate that no dependency cycle exists. */
  lemma OrderExcludesCycles(pack: Pack, order: seq<Number>)
    requires DependenciesFirst(pack, order)
    requires forall n | n in Numbers(pack) :: n in order
    ensures Acyclic(pack)
  {
    forall path ensures !IsCycle(pack, path) {
      if IsCycle(pack, path) {
        assert Needs(pack, path[0], path[1]);
        PathDescends(pack, order, path, |path| - 1);
        assert false;
      }
    }
  }

  // ---------------------------------------------------------------------------------------------
  // Preflight

  method ValidateDependencies(pack: Pack) returns (r: Result<(), GraphError>)
    ensures r.Success? <==> Resolved(pack)
    ensures r.Failure? ==> match r.error
      case DuplicateIdentifier => !UniqueNumbers(pack)
      case DuplicateDependency(n, d) => exists i, j, k ::
        && 0 <= i < |pack| && pack[i].number == n && 0 <= j < k < |pack[i].dependencies|
        && pack[i].dependencies[j] == pack[i].dependencies[k] == d
      case SelfDependency(n) => exists i :: 0 <= i < |pack| && pack[i].number == n && n in pack[i].dependencies
      case UnknownDependency(n, d) =>
        d !in Numbers(pack) && exists i :: 0 <= i < |pack| && pack[i].number == n && d in pack[i].dependencies
      case _ => false
  {
    if !UniqueNumbers(pack) {
      return Failure(DuplicateIdentifier);
    }
    for i := 0 to |pack|
      invariant forall k | 0 <= k < i :: SoundDependencies(pack, pack[k])
    {
      var issue := pack[i];
      if !Distinct(issue.dependencies) {
        var j, k :| 0 <= j < k < |issue.dependencies| && issue.dependencies[j] == issue.dependencies[k];
        return Failure(DuplicateDependency(issue.number, issue.dependencies[j]));
      }
      for j := 0 to |issue.dependencies|
        invariant forall k | 0 <= k < j ::
          issue.dependencies[k] != issue.number && issue.dependencies[k] in Numbers(pack)
      {
        var dependency := issue.dependencies[j];
        if dependency == issue.number {
          return Failure(SelfDependency(issue.number));
        }
        if dependency !in Numbers(pack) {
          return Failure(UnknownDependency(issue.number, dependency));
        }
      }
    }
    return Success(());
  }

  /** A node met again on the active path closes a cycle. */
  lemma ActiveCloses(pack: Pack, active: seq<Number>, n: Number)
    requires IsPath(pack, active) && n in active && Needs(pack, active[|active| - 1], n)
    ensures IsCycle(pack, active[Position(active, n)..] + [n])
  {
  }

  /** The state of the depth-first search in `_validate_acyclic`. */
  class AcyclicityCheck {
    const pack: Pack
    var visited: set<Number>
    var active: seq<Number>
    ghost var order: seq<Number>  // the visited nodes, in the order in which they were finished

    ghost predicate Valid()
      reads this
    {
      && Resolved(pack)
      && Distinct(active) && IsPath(pack, active)
      && (forall n | n in active :: n in Numbers(pack) && n !in visited)
      && DependenciesFirst(pack, order)
      && (forall n :: n in visited <==> n in order)
    }

    constructor (pack: Pack)
      requires Resolved(pack)
      ensures Valid() && this.pack == pack && visited == {} && active == []
    {
      this.pack := pack;
      visited, active, order := {}, [], [];
    }

    /** Visits everything `n` needs; a node met again while it is still active closes a cycle. */
    method Visit(n: Number) returns (r: Result<(), GraphError>)
      requires Valid() && n in Numbers(pack)
      requires active != [] ==> Needs(pack, active[|active| - 1], n)
      modifies this
      ensures r.Success? ==> Valid() && active == old(active) && n in visited && old(visited) <= visited
      ensures r.Failure? ==> r.error.Cycle? && IsCycle(pack, r.error.path)
      decreases |Numbers(pack)| - |active|
    {
      hide Resolved, DependenciesFirst, Numbers;
      if n in active {
        var start := Position(active, n);
        var cycle := active[start..] + [n];
        ActiveCloses(pack, active, n);
        return Failure(Cycle(cycle));
      }
      if n in visited {
        return Success(());
      }
      ActiveFits(pack, active, n);
      active := active + [n];
      NodeIsSound(pack, n);
      var dependencies := Node(pack, n).dependencies;
      for i := 0 to |dependencies|
        invariant Valid() && active == old(active) + [n] && old(visited) <= visited
        invariant forall k | 0 <= k < i :: dependencies[k] in visited
      {
        var _ :- Visit(dependencies[i]);
      }
      active := active[..|active| - 1];
      assert old(active) + [n] == active + [n];
      FinishNode(pack, order, n);
      visited := visited + {n};
      order := order + [n];
      return Success(());
    }

    /** Succeeds exactly on acyclic packs; a failure shows a genuine closed dependency path. */
    method ValidateAcyclic() returns (r: Result<(), GraphError>)
      requires Valid() && visited == {} && active == []
      modifies this
      ensures r.Success? <==> Acyclic(pack)
      ensures r.Success? ==> DependenciesFirst(pack, order) && forall n | n in Numbers(pack) :: n in order
      ensures r.Failure? ==> r.error.Cycle? && IsCycle(pack, r.error.path)
    {
      for i := 0 to |pack|
        invariant Valid() && active == []
        invariant forall k | 0 <= k < i :: pack[k].number in visited
      {
        var _ :- Visit(pack[i].number);
      }
      OrderExcludesCycles(pack, order);
      return Success(());
    }
  }

  lemma NodeIsSound(pack: Pack, n: Number)
    requires Resolved(pack) && n in Numbers(pack)
    ensures SoundDependencies(pack, Node(pack, n))
  {
  }

  lemma FinishNode(pack: Pack, order: seq<Number>, n: Number)
    requires DependenciesFirst(pack, order) && n in Numbers(pack) && n !in order
    requires forall d | d in Node(pack, n).dependencies :: d in order
    ensures DependenciesFirst(pack, order + [n])
  {
    var longer := order + [n];
    assert longer[..|order|] == order;
    assert forall i | 0 <= i < |order| :: longer[..i] == order[..i];
  }

  lemma {:induction false} DistinctBounded(s: seq<Number>, all: set<Number>)
    requires Distinct(s) && forall n | n in s :: n in all
    ensures |s| <= |all|
  {
    if s != [] {
      var init, last := s[..|s| - 1], s[|s| - 1];
      DistinctBounded(init, all - {last});
    }
  }

  lemma ActiveFits(pack: Pack, active: seq<Number>, n: Number)
    requires Distinct(active) && n !in active && n in Numbers(pack)
    requires forall m | m in active :: m in Numbers(pack)
    ensures |active| < |Numbers(pack)|
  {
    DistinctBounded(active + [n], Numbers(pack));
  }

  // ---------------------------------------------------------------------------------------------
  // Selection

  /** Every prerequisite of a selected issue is complete or selected as well. */
  predicate ClosedSelection(pack: Pack, selected: set<Number>) {
    && selected <= Numbers(pack)
    && forall n | n in selected :: forall d | d in Node(pack, n).dependencies ::
         d in Numbers(pack) && (Node(pack, d).completed || d in selected)
  }

  method ValidateSelection(pack: Pack, selected: set<Number>) returns (r: Result<(), GraphError>)
    requires Resolved(pack) && selected <= Numbers(pack)
    ensures r.Success? <==> ClosedSelection(pack, selected)
    ensures r.Failure? ==>
      && r.error.UnfinishedPrerequisite?
      && r.error.issue in selected
      && Needs(pack, r.error.issue, r.error.dependency)
      && r.error.dependency !in selected
      && !Node(pack, r.error.dependency).completed
  {
    var rest := selected;
    while rest != {}
      invariant rest <= selected
      invariant forall n | n in selected - rest :: forall d | d in Node(pack, n).dependencies ::
        d in Numbers(pack) && (Node(pack, d).completed || d in selected)
      decreases |rest|
    {
      var n :| n in rest;
      NodeIsSound(pack, n);
      var dependencies := Node(pack, n).dependencies;
      for i := 0 to |dependencies|
        invariant forall k | 0 <= k < i :: Node(pack, dependencies[k]).completed || dependencies[k] in selected
      {
        var d := dependencies[i];
        if !Node(pack, d).completed && d !in selected {
          return Failure(UnfinishedPrerequisite(n, d));
        }
      }
      rest := rest - {n};
    }
    return Success(());
  }
}
