/** The depth-first ordering that the migration planner and the app validator share: dependencies come before their
    dependents, and a dependency that is met while it is still being visited is reported as a cycle. */
module DepthFirst {
  import opened Common

  /** Each node with its dependencies in the order they are visited; every dependency is a node. */
  type Graph = map<string, seq<string>>

  predicate Closed(g: Graph) {
    forall k | k in g :: forall i | 0 <= i < |g[k]| :: g[k][i] in g
  }

  datatype State = State(
    visiting: set<string>,
    visited: set<string>,
    path: seq<string>,
    ordered: seq<string>,
    cycles: seq<seq<string>>)

  const Start := State({}, {}, [], [], [])

  function IndexOf(path: seq<string>, key: string): (i: nat)
    requires key in path
    ensures i < |path| && path[i] == key && key !in path[..i]
  {
    if path[0] == key then 0 else 1 + IndexOf(path[1..], key)
  }

  function Enter(st: State, key: string): State {
    st.(visiting := st.visiting + {key}, path := st.path + [key])
  }

  function Leave(st: State, key: string): State
    requires st.path != []
  {
    st.(visiting := st.visiting - {key}, path := st.path[..|st.path| - 1],
        visited := st.visited + {key}, ordered := st.ordered + [key])
  }

  function Report(st: State, key: string): State {
    if key in st.path then st.(cycles := st.cycles + [st.path[IndexOf(st.path, key)..] + [key]]) else st
  }

  function Visit(g: Graph, key: string, st: State): (r: State)
    requires Closed(g) && key in g
    ensures r.visiting == st.visiting && r.path == st.path
    decreases g.Keys - st.visiting, 0, 0
  {
    if key in st.visited then st
    else if key in st.visiting then Report(st, key)
    else
      var inner := VisitAll(g, g[key], |g[key]|, Enter(st, key));
      Leave(inner, key)
  }

  /** The first n dependencies in turn. */
  function VisitAll(g: Graph, deps: seq<string>, n: nat, st: State): (r: State)
    requires Closed(g) && n <= |deps| && forall i | 0 <= i < |deps| :: deps[i] in g
    ensures r.visiting == st.visiting && r.path == st.path
    decreases g.Keys - st.visiting, 1, n
  {
    if n == 0 then st else Visit(g, deps[n - 1], VisitAll(g, deps, n - 1, st))
  }

  // ----- what the search reports -----

  /** A closed walk along dependencies. */
  predicate IsCycle(g: Graph, c: seq<string>) {
    && |c| >= 2 && c[0] == c[|c| - 1]
    && IsWalk(g, c)
  }

  predicate IsWalk(g: Graph, c: seq<string>) {
    && (forall i | 0 <= i < |c| :: c[i] in g)
    && (forall i | 0 <= i < |c| - 1 :: c[i + 1] in g[c[i]])
  }

  ghost predicate Acyclic(g: Graph) {
    forall c :: !IsCycle(g, c)
  }

  /** Every dependency of s[i] stands before it. */
  predicate DependenciesFirst(g: Graph, s: seq<string>) {
    forall i | 0 <= i < |s| :: s[i] in g && forall d | d in g[s[i]] :: d in s[..i]
  }

  predicate Sound(g: Graph, st: State) {
    && st.visiting == Elements(st.path) && Distinct(st.path) && IsWalk(g, st.path)
    && st.visited == Elements(st.ordered) && Distinct(st.ordered)
    && st.visited <= g.Keys && st.visiting !! st.visited
    && (forall i | 0 <= i < |st.cycles| :: IsCycle(g, st.cycles[i]))
    && (st.cycles == [] ==> DependenciesFirst(g, st.ordered))
  }

  /** The node may be visited next: it is a root, or a dependency of the node at the end of the path. */
  predicate Reached(g: Graph, st: State, key: string) {
    key in g && (st.path != [] ==> st.path[|st.path| - 1] in g && key in g[st.path[|st.path| - 1]])
  }

  /** The search only adds: nodes, order and reported cycles. */
  predicate Grows(st: State, r: State) {
    st.visited <= r.visited && st.ordered <= r.ordered && st.cycles <= r.cycles
  }

  lemma EnterSound(g: Graph, key: string, st: State)
    requires Sound(g, st) && Reached(g, st, key) && key !in st.visiting && key !in st.visited
    ensures Sound(g, Enter(st, key))
  {
  }

  lemma ReportSound(g: Graph, key: string, st: State)
    requires Sound(g, st) && Reached(g, st, key) && key in st.visiting
    ensures Sound(g, Report(st, key)) && Grows(st, Report(st, key)) && Report(st, key).cycles != []
  {
    var i := IndexOf(st.path, key);
    var c := st.path[i..] + [key];
    forall j | 0 <= j < |c| - 1
      ensures c[j + 1] in g[c[j]]
    {
      if j < |c| - 2 {
        assert c[j] == st.path[i + j] && c[j + 1] == st.path[i + j + 1];
      }
    }
  }

  lemma LeaveSound(g: Graph, key: string, st: State)
    requires Sound(g, st) && st.path != [] && st.path[|st.path| - 1] == key && key in g
    requires st.cycles == [] ==> forall d | d in g[key] :: d in st.visited
    ensures Sound(g, Leave(st, key)) && Grows(st, Leave(st, key))
  {
    var r := Leave(st, key);
    var front := st.path[..|st.path| - 1];
    assert st.path == front + [key];
    assert key !in front;
    assert Elements(front) == st.visiting - {key};
    if r.cycles == [] {
      forall i | 0 <= i < |r.ordered|
        ensures forall d | d in g[r.ordered[i]] :: d in r.ordered[..i]
      {
        if i < |st.ordered| {
          assert r.ordered[..i] == st.ordered[..i];
        } else {
          assert r.ordered[..i] == st.ordered;
        }
      }
    }
  }

  lemma {:induction false} VisitSound(g: Graph, key: string, st: State)
    requires Closed(g) && Sound(g, st) && Reached(g, st, key)
    ensures var r := Visit(g, key, st);
            && Sound(g, r) && Grows(st, r)
            && (r.cycles == [] ==> key in r.visited)
    decreases g.Keys - st.visiting, 0, 0
  {
    if key in st.visited {
    } else if key in st.visiting {
      ReportSound(g, key, st);
    } else {
      EnterSound(g, key, st);
      var entered := Enter(st, key);
      VisitAllSound(g, g[key], |g[key]|, entered);
      var inner := VisitAll(g, g[key], |g[key]|, entered);
      forall d | inner.cycles == [] && d in g[key]
        ensures d in inner.visited
      {
        var i :| 0 <= i < |g[key]| && g[key][i] == d;
      }
      LeaveSound(g, key, inner);
      assert Leave(inner, key) == Visit(g, key, st);
    }
  }

  lemma {:induction false} VisitAllSound(g: Graph, deps: seq<string>, n: nat, st: State)
    requires Closed(g) && Sound(g, st) && n <= |deps|
    requires forall i | 0 <= i < |deps| :: deps[i] in g && Reached(g, st, deps[i])
    ensures var r := VisitAll(g, deps, n, st);
            && Sound(g, r) && Grows(st, r)
            && (r.cycles == [] ==> forall i | 0 <= i < n :: deps[i] in r.visited)
    decreases g.Keys - st.visiting, 1, n
  {
    if n > 0 {
      VisitAllSound(g, deps, n - 1, st);
      VisitSound(g, deps[n - 1], VisitAll(g, deps, n - 1, st));
    }
  }

  /** Cycles or not, whatever is visited ends up in the order, unless it is still being visited further out. */
  lemma {:induction false} VisitReaches(g: Graph, key: string, st: State)
    requires Closed(g) && key in g
    ensures var r := Visit(g, key, st);
            st.visited <= r.visited && (key in r.visited || key in st.visiting)
    decreases g.Keys - st.visiting, 0, 0
  {
    hide Report;
    if key !in st.visited && key !in st.visiting {
      VisitAllReaches(g, g[key], |g[key]|, Enter(st, key));
    } else {
      ReportKeeps(st, key);
    }
  }

  lemma ReportKeeps(st: State, key: string)
    ensures Report(st, key).visited == st.visited
  {
  }

  lemma {:induction false} VisitAllReaches(g: Graph, deps: seq<string>, n: nat, st: State)
    requires Closed(g) && n <= |deps| && forall i | 0 <= i < |deps| :: deps[i] in g
    ensures var r := VisitAll(g, deps, n, st);
            st.visited <= r.visited && forall i | 0 <= i < n :: deps[i] in r.visited || deps[i] in st.visiting
    decreases g.Keys - st.visiting, 1, n
  {
    if n > 0 {
      VisitAllReaches(g, deps, n - 1, st);
      VisitReaches(g, deps[n - 1], VisitAll(g, deps, n - 1, st));
    }
  }

  /** Along an order with dependencies first there is no closed walk. */
  lemma OrderExcludesCycles(g: Graph, s: seq<string>, c: seq<string>)
    requires DependenciesFirst(g, s) && Distinct(s) && g.Keys == Elements(s)
    ensures !IsCycle(g, c)
  {
    if IsCycle(g, c) {
      WalkDescends(g, s, c, |c| - 1);
    }
  }

  function Position(s: seq<string>, key: string): (i: nat)
    requires key in s
    ensures i < |s| && s[i] == key
  {
    IndexOf(s, key)
  }

  lemma {:induction false} WalkDescends(g: Graph, s: seq<string>, c: seq<string>, n: nat)
    requires DependenciesFirst(g, s) && Distinct(s) && g.Keys == Elements(s)
    requires IsWalk(g, c) && 0 < n < |c|
    ensures c[0] in s && c[n] in s && Position(s, c[n]) < Position(s, c[0])
  {
    var a := c[n - 1];
    assert a in g && c[n] in g[a] && a in s && c[0] in s;
    var p := Position(s, a);
    assert c[n] in s[..p];
    var q :| 0 <= q < p && s[q] == c[n];
    assert Position(s, c[n]) == q;
    if n > 1 {
      WalkDescends(g, s, c, n - 1);
    }
  }

  function Search(g: Graph, roots: seq<string>): State
    requires Closed(g) && forall i | 0 <= i < |roots| :: roots[i] in g
  {
    VisitAll(g, roots, |roots|, Start)
  }

  /** Started from all nodes, the order always holds every node once. The search reports only real cycles, and reports
      none exactly when there is none; then every node comes after all its dependencies. */
  lemma SearchIsExact(g: Graph, roots: seq<string>)
    requires Closed(g) && Elements(roots) == g.Keys && forall i | 0 <= i < |roots| :: roots[i] in g
    ensures var r := Search(g, roots);
            && Distinct(r.ordered) && Elements(r.ordered) == g.Keys
            && (forall i | 0 <= i < |r.cycles| :: IsCycle(g, r.cycles[i]))
            && (r.cycles == [] <==> Acyclic(g))
            && (r.cycles == [] ==> DependenciesFirst(g, r.ordered))
  {
    VisitAllSound(g, roots, |roots|, Start);
    VisitAllReaches(g, roots, |roots|, Start);
    var r := Search(g, roots);
    forall k | k in g.Keys
      ensures k in r.visited
    {
      assert k in Elements(roots);
      var i :| 0 <= i < |roots| && roots[i] == k;
    }
    assert Elements(r.ordered) == g.Keys;
    if r.cycles == [] {
      forall c
        ensures !IsCycle(g, c)
      {
        OrderExcludesCycles(g, r.ordered, c);
      }
    } else {
      assert IsCycle(g, r.cycles[0]);
    }
  }

  /** The order of the search is always a list of distinct nodes, cycles or not. */
  lemma OrderedAreNodes(g: Graph, roots: seq<string>)
    requires Closed(g) && forall i | 0 <= i < |roots| :: roots[i] in g
    ensures var r := Search(g, roots);
            Distinct(r.ordered) && forall i | 0 <= i < |r.ordered| :: r.ordered[i] in g
  {
    VisitAllSound(g, roots, |roots|, Start);
    var r := Search(g, roots);
    forall i | 0 <= i < |r.ordered|
      ensures r.ordered[i] in g
    {
      assert r.ordered[i] in Elements(r.ordered);
    }
  }

  // ----- the search as it runs -----

  class DepthFirstSearch {
    const graph: Graph
    var visiting: set<string>
    var visited: set<string>
    var path: seq<string>
    var ordered: seq<string>
    var cycles: seq<seq<string>>

    constructor (graph: Graph)
      ensures this.graph == graph && Current() == Start
    {
      this.graph := graph;
      visiting, visited, path, ordered, cycles := {}, {}, [], [], [];
    }

    ghost function Current(): State
      reads this
    {
      State(visiting, visited, path, ordered, cycles)
    }

    method VisitNode(key: string)
      requires Closed(graph) && key in graph
      requires visiting == Elements(path)
      modifies this
      ensures Current() == Visit(graph, key, old(Current()))
      decreases graph.Keys - visiting
    {
      if key in visited {
        return;
      }
      if key in visiting {
        var start := IndexOf(path, key);
        cycles := cycles + [path[start..] + [key]];
        return;
      }
      visiting := visiting + {key};
      path := path + [key];
      ghost var entered := Current();
      assert entered == Enter(old(Current()), key);
      var dependencies := graph[key];
      for i := 0 to |dependencies|
        invariant Current() == VisitAll(graph, dependencies, i, entered)
      {
        VisitNode(dependencies[i]);
      }
      path := path[..|path| - 1];
      visiting := visiting - {key};
      visited := visited + {key};
      ordered := ordered + [key];
    }

    method VisitRoots(roots: seq<string>)
      requires Closed(graph) && forall i | 0 <= i < |roots| :: roots[i] in graph
      requires Current() == Start
      modifies this
      ensures Current() == Search(graph, roots)
    {
      for i := 0 to |roots|
        invariant Current() == VisitAll(graph, roots, i, Start)
      {
        VisitNode(roots[i]);
      }
    }
  }
}
