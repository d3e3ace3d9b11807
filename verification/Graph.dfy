/**
 The dependency graph of a set of tasks. An edge runs from a task to each task that requires it, and from a dynamic
 task to each task that requires its parent. Nodes are the task identifiers themselves.
 */
module Graph {
  import opened Types

  datatype Graph = Graph(nodes: set<Id>, edges: set<(Id, Id)>)

  /** The requirements of each task. */
  type Deps = map<Id, Requirements>

  // ---------- What the graph of a set of tasks is ----------

  predicate IsParent(deps: Deps, parent: Id, dynamic: Id) {
    dynamic in deps && parent in deps[dynamic] && deps[dynamic][parent].DynamicOutput?
  }

  predicate RequiresEdge(deps: Deps, a: Id, b: Id) {
    a in deps && b in deps && a in deps[b]
  }

  /** `a` is a dynamic task and `b` another task that requires the parent of `a`. */
  ghost predicate InjectedEdge(deps: Deps, a: Id, b: Id) {
    a in deps && b in deps && a != b && exists p :: p in deps[b] && IsParent(deps, p, a)
  }

  ghost predicate Edge(deps: Deps, a: Id, b: Id) {
    RequiresEdge(deps, a, b) || InjectedEdge(deps, a, b)
  }

  /** The graph library refuses self-loops, so parsing a task that requires itself panics. */
  predicate NoSelfDependency(deps: Deps) {
    forall id | id in deps :: id !in deps[id]
  }

  ghost predicate SingleParent(deps: Deps) {
    forall id, p, q :: IsParent(deps, p, id) && IsParent(deps, q, id) ==> p == q
  }

  ghost predicate SingleChild(deps: Deps) {
    forall p, a, b :: IsParent(deps, p, a) && IsParent(deps, p, b) ==> a == b
  }

  ghost function GraphOf(deps: Deps): Graph {
    Graph(deps.Keys, set a, b | a in deps && b in deps && Edge(deps, a, b) :: (a, b))
  }

  /** The graph without the edges of dynamic tasks. */
  function RequirementGraph(deps: Deps): Graph {
    Graph(deps.Keys, set a, b | b in deps && a in deps[b] && a in deps :: (a, b))
  }

  lemma EdgeOfGraph(deps: Deps, a: Id, b: Id)
    ensures (a, b) in GraphOf(deps).edges <==> Edge(deps, a, b)
  {
  }

  /** One dynamic parent for each task that has any. */
  ghost predicate Chooses(deps: Deps, parents: map<Id, Id>) {
    && (forall id | id in parents :: IsParent(deps, parents[id], id))
    && (forall id, p | IsParent(deps, p, id) :: id in parents)
  }

  predicate ChosenEdge(deps: Deps, parents: map<Id, Id>, a: Id, b: Id) {
    RequiresEdge(deps, a, b) || (a in deps && b in deps && a != b && a in parents && parents[a] in deps[b])
  }

  /** The graph in which a dynamic task has the edges that its chosen parent gives it. */
  function GraphWith(deps: Deps, parents: map<Id, Id>): Graph {
    Graph(deps.Keys, set a, b | a in deps && b in deps && ChosenEdge(deps, parents, a, b) :: (a, b))
  }

  lemma EdgeWith(deps: Deps, parents: map<Id, Id>, a: Id, b: Id)
    ensures (a, b) in GraphWith(deps, parents).edges <==> ChosenEdge(deps, parents, a, b)
  {
  }

  /** Every choice keeps the requirements and adds nothing that is not an edge; it is no choice when parents are
      single. */
  lemma ChoiceBounds(deps: Deps, parents: map<Id, Id>)
    requires Chooses(deps, parents)
    ensures RequirementGraph(deps).edges <= GraphWith(deps, parents).edges <= GraphOf(deps).edges
    ensures SingleParent(deps) ==> GraphWith(deps, parents) == GraphOf(deps)
  {
    forall a, b
      ensures (a, b) in GraphWith(deps, parents).edges ==> (a, b) in GraphOf(deps).edges
      ensures SingleParent(deps) && (a, b) in GraphOf(deps).edges ==> (a, b) in GraphWith(deps, parents).edges
    {
      EdgeWith(deps, parents, a, b);
      EdgeOfGraph(deps, a, b);
      if SingleParent(deps) && InjectedEdge(deps, a, b) {
        var p :| p in deps[b] && IsParent(deps, p, a);
        assert IsParent(deps, parents[a], a);
      }
    }
  }

  lemma ChoiceExists(deps: Deps) returns (parents: map<Id, Id>)
    ensures Chooses(deps, parents)
  {
    parents := map id | id in deps && (exists p :: IsParent(deps, p, id)) :: var p :| IsParent(deps, p, id); p;
  }

  // ---------- Parsing ----------

  /** Adds the edges from `dynamic` to the tasks that require its parent. The parent is the first dynamic requirement
      in the iteration order of a map. */
  method InjectDynamicTask(deps: Deps, edges: set<(Id, Id)>, dynamic: Id)
    returns (r: set<(Id, Id)>, parent: Option<Id>)
    requires dynamic in deps
    ensures parent.Some? ==> IsParent(deps, parent.value, dynamic)
    ensures parent.None? ==> r == edges && forall p :: !IsParent(deps, p, dynamic)
    ensures parent.Some? ==> forall a, b :: (a, b) in r <==>
      (a, b) in edges || (a == dynamic && b in deps && b != dynamic && parent.value in deps[b])
  {
    parent := None;
    r := edges;
    if p :| p in deps[dynamic] && deps[dynamic][p].DynamicOutput? {
      parent := Some(p);
      var todo := deps.Keys;
      while todo != {}
        invariant todo <= deps.Keys
        invariant forall a, b :: (a, b) in r <==>
          (a, b) in edges || (a == dynamic && b in deps.Keys - todo && b != dynamic && p in deps[b])
        decreases todo
      {
        var n :| n in todo;
        if p in deps[n] && n != dynamic {
          r := r + {(dynamic, n)};
        }
        todo := todo - {n};
      }
    }
  }

  /** Every requirement that is itself a node becomes an edge. */
  method RequirementEdges(deps: Deps) returns (edges: set<(Id, Id)>)
    ensures forall a, b :: (a, b) in edges <==> RequiresEdge(deps, a, b)
  {
    edges := {};
    var todo := deps.Keys;
    while todo != {}
      invariant todo <= deps.Keys
      invariant forall a, b :: (a, b) in edges <==> RequiresEdge(deps, a, b) && b !in todo
      decreases todo
    {
      var n :| n in todo;
      var links := deps[n].Keys;
      while links != {}
        invariant links <= deps[n].Keys
        invariant forall a, b :: (a, b) in edges <==> RequiresEdge(deps, a, b) && (b !in todo || (b == n && a !in links))
        decreases links
      {
        var dep :| dep in links;
        if dep in deps {
          edges := edges + {(dep, n)};
        }
        links := links - {dep};
      }
      todo := todo - {n};
    }
  }

  /** Parses a set of tasks; `parents` is what the source picks for tasks with several dynamic parents. */
  method Parse(deps: Deps) returns (g: Graph, ghost parents: map<Id, Id>)
    requires NoSelfDependency(deps)
    ensures Chooses(deps, parents) && g == GraphWith(deps, parents)
  {
    var edges := RequirementEdges(deps);
    parents := map[];
    var todo := deps.Keys;
    while todo != {}
      invariant todo <= deps.Keys
      invariant forall id | id in parents :: id !in todo && IsParent(deps, parents[id], id)
      invariant forall id, p | IsParent(deps, p, id) && id !in todo :: id in parents
      invariant forall a, b :: (a, b) in edges <==> ChosenEdge(deps, parents, a, b)
      decreases todo
    {
      var n :| n in todo;
      var parent;
      edges, parent := InjectDynamicTask(deps, edges, n);
      if parent.Some? {
        parents := parents[n := parent.value];
      }
      todo := todo - {n};
    }
    g := Graph(deps.Keys, edges);
    forall e ensures e in edges <==> e in GraphWith(deps, parents).edges { EdgeWith(deps, parents, e.0, e.1); }
  }

  predicate IsRoot(g: Graph, n: Id) {
    n in g.nodes && forall a | a in g.nodes :: (a, n) !in g.edges
  }

  function RootSet(g: Graph): set<Id> {
    set n | n in g.nodes && IsRoot(g, n)
  }

  /** The nodes without incoming edges, each once. */
  method Roots(g: Graph) returns (roots: seq<Id>)
    ensures forall n :: n in roots <==> n in RootSet(g)
    ensures Distinct(roots)
  {
    roots := [];
    var todo := g.nodes;
    while todo != {}
      invariant todo <= g.nodes
      invariant forall n :: n in roots <==> n in RootSet(g) && n !in todo
      invariant Distinct(roots)
      decreases todo
    {
      var n :| n in todo;
      if forall a | a in g.nodes :: (a, n) !in g.edges {
        roots := roots + [n];
      }
      todo := todo - {n};
    }
  }

  /** A task is a root exactly when nothing it requires is in the set, nor any other dynamic child of something it
      requires. */
  lemma RootIff(deps: Deps, n: Id)
    ensures n in RootSet(GraphOf(deps)) <==>
      n in deps && forall p | p in deps[n] :: p !in deps && forall c :: IsParent(deps, p, c) ==> c == n
  {
    if n in RootSet(GraphOf(deps)) {
      forall p | p in deps[n] ensures p !in deps { EdgeOfGraph(deps, p, n); }
      forall p, c | p in deps[n] && IsParent(deps, p, c) ensures c == n { EdgeOfGraph(deps, c, n); }
    } else if n in deps {
      var a :| a in deps && (a, n) in GraphOf(deps).edges;
      EdgeOfGraph(deps, a, n);
    }
  }

  // ---------- Cycles ----------

  ghost predicate WellFormed(g: Graph) {
    forall a, b | (a, b) in g.edges :: a in g.nodes && b in g.nodes
  }

  lemma ChosenIsWellFormed(deps: Deps, parents: map<Id, Id>)
    ensures WellFormed(GraphWith(deps, parents))
  {
  }

  ghost predicate Walk(g: Graph, p: seq<Id>) {
    |p| >= 1 && forall i | 0 <= i < |p| - 1 :: (p[i], p[i + 1]) in g.edges
  }

  /** No walk of one or more edges returns to its start. */
  ghost predicate Acyclic(g: Graph) {
    forall p | Walk(g, p) && |p| >= 2 :: p[0] != p[|p| - 1]
  }

  /** A numbering of the nodes that grows along every edge. */
  ghost predicate Ranked(g: Graph, rank: map<Id, nat>) {
    rank.Keys == g.nodes && forall a, b | (a, b) in g.edges :: a in rank && b in rank && rank[a] < rank[b]
  }

  lemma {:induction false} RankGrows(g: Graph, rank: map<Id, nat>, p: seq<Id>)
    requires Ranked(g, rank) && Walk(g, p) && |p| >= 2
    ensures p[0] in rank && p[|p| - 1] in rank && rank[p[0]] < rank[p[|p| - 1]]
  {
    assert (p[|p| - 2], p[|p| - 1]) in g.edges;
    if |p| > 2 {
      RankGrows(g, rank, p[..|p| - 1]);
    }
  }

  lemma RankedIsAcyclic(g: Graph, rank: map<Id, nat>)
    requires Ranked(g, rank)
    ensures Acyclic(g)
  {
    forall p | Walk(g, p) && |p| >= 2 ensures p[0] != p[|p| - 1] {
      RankGrows(g, rank, p);
    }
  }

  /** Removing edges makes no cycle. */
  lemma FewerEdges(g: Graph, h: Graph)
    requires h.edges <= g.edges && Acyclic(g)
    ensures Acyclic(h)
  {
    forall p | Walk(h, p) && |p| >= 2 ensures p[0] != p[|p| - 1] {
      assert Walk(g, p);
    }
  }

  lemma {:induction false} Pigeonhole(p: seq<Id>, s: set<Id>)
    requires |p| > |s| && forall i | 0 <= i < |p| :: p[i] in s
    ensures exists i, j :: 0 <= i < j < |p| && p[i] == p[j]
  {
    var last := |p| - 1;
    if i :| 0 <= i < last && p[i] == p[last] {
    } else {
      Pigeonhole(p[..last], s - {p[last]});
      var i, j :| 0 <= i < j < |p[..last]| && p[..last][i] == p[..last][j];
      assert p[i] == p[j];
    }
  }

  /** Without roots, walks can be extended backwards for ever. */
  lemma {:induction false} BackwardWalk(g: Graph, n: nat) returns (p: seq<Id>)
    requires WellFormed(g) && g.nodes != {} && RootSet(g) == {}
    ensures |p| == n + 1 && Walk(g, p) && forall i | 0 <= i < |p| :: p[i] in g.nodes
  {
    if n == 0 {
      var x :| x in g.nodes;
      p := [x];
    } else {
      var q := BackwardWalk(g, n - 1);
      assert q[0] !in RootSet(g);
      var a :| a in g.nodes && (a, q[0]) in g.edges;
      p := [a] + q;
      forall i | 0 <= i < |p| - 1 ensures (p[i], p[i + 1]) in g.edges {
        if i > 0 { assert (q[i - 1], q[i]) in g.edges; }
      }
    }
  }

  lemma RepeatedNode(g: Graph, p: seq<Id>, i: nat, j: nat)
    requires Walk(g, p) && i < j < |p| && p[i] == p[j]
    ensures !Acyclic(g)
  {
    var cycle := p[i..j + 1];
    forall k | 0 <= k < |cycle| - 1 ensures (cycle[k], cycle[k + 1]) in g.edges {
      assert (p[i + k], p[i + k + 1]) in g.edges;
    }
    assert Walk(g, cycle) && cycle[0] == cycle[|cycle| - 1];
  }

  /** A non-empty acyclic graph has a root. */
  lemma RootExists(g: Graph)
    requires WellFormed(g) && Acyclic(g) && g.nodes != {}
    ensures RootSet(g) != {}
  {
    if RootSet(g) == {} {
      var p := BackwardWalk(g, |g.nodes|);
      Pigeonhole(p, g.nodes);
      var i, j :| 0 <= i < j < |p| && p[i] == p[j];
      RepeatedNode(g, p, i, j);
    }
  }

  function Induced(g: Graph, s: set<Id>): Graph {
    Graph(g.nodes * s, set e | e in g.edges && e.0 in s && e.1 in s)
  }

  lemma InducedAcyclic(g: Graph, s: set<Id>)
    requires WellFormed(g) && Acyclic(g)
    ensures WellFormed(Induced(g, s)) && Acyclic(Induced(g, s))
  {
    forall p | Walk(Induced(g, s), p) && |p| >= 2 ensures p[0] != p[|p| - 1] {
      forall i | 0 <= i < |p| - 1 ensures (p[i], p[i + 1]) in g.edges {
        assert (p[i], p[i + 1]) in Induced(g, s).edges;
      }
      assert Walk(g, p);
    }
  }

  /** An acyclic graph has a topological numbering. */
  lemma {:induction false} AcyclicIsRanked(g: Graph) returns (rank: map<Id, nat>)
    requires WellFormed(g) && Acyclic(g)
    ensures Ranked(g, rank)
    decreases |g.nodes|
  {
    if g.nodes == {} {
      rank := map[];
    } else {
      RootExists(g);
      var x :| x in RootSet(g);
      var rest := Induced(g, g.nodes - {x});
      InducedAcyclic(g, g.nodes - {x});
      assert rest.nodes == g.nodes - {x};
      var smaller := AcyclicIsRanked(rest);
      rank := map n | n in g.nodes :: if n == x then 0 else smaller[n] + 1;
      forall a, b | (a, b) in g.edges ensures a in rank && b in rank && rank[a] < rank[b] {
        assert b != x;
        if a != x { assert (a, b) in rest.edges; }
      }
    }
  }

  // ---------- Choices among dynamic parents and cycles ----------

  /** A closed walk has a stretch that is closed and repeats no other node. */
  lemma {:induction false} SimpleCycle(g: Graph, p: seq<Id>) returns (w: seq<Id>)
    requires Walk(g, p) && |p| >= 2 && p[0] == p[|p| - 1]
    ensures Walk(g, w) && |w| >= 2 && w[0] == w[|w| - 1]
    ensures forall i, j | 0 <= i < j < |w| - 1 :: w[i] != w[j]
    decreases |p|
  {
    if i, j :| 0 <= i < j < |p| - 1 && p[i] == p[j] {
      var part := p[i..j + 1];
      forall k | 0 <= k < |part| - 1 ensures (part[k], part[k + 1]) in g.edges {
        assert (p[i + k], p[i + k + 1]) in g.edges;
      }
      w := SimpleCycle(g, part);
    } else {
      w := p;
    }
  }

  /** One choice gives all edges along a path. */
  lemma {:induction false} ChoiceAlong(deps: Deps, w: seq<Id>, n: nat) returns (parents: map<Id, Id>)
    requires n < |w| && (forall i, j | 0 <= i < j < n :: w[i] != w[j])
    requires forall i | 0 <= i < n :: Edge(deps, w[i], w[i + 1])
    ensures Chooses(deps, parents) && forall i | 0 <= i < n :: ChosenEdge(deps, parents, w[i], w[i + 1])
  {
    if n == 0 {
      parents := ChoiceExists(deps);
    } else {
      parents := ChoiceAlong(deps, w, n - 1);
      var a, b := w[n - 1], w[n];
      assert Edge(deps, a, w[n - 1 + 1]);
      if !RequiresEdge(deps, a, b) {
        var p :| p in deps[b] && IsParent(deps, p, a);
        parents := parents[a := p];
      }
    }
  }

  /** The graph with the edges of all dynamic parents is acyclic exactly when every choice among them is. */
  lemma AcyclicIffEveryChoice(deps: Deps)
    ensures Acyclic(GraphOf(deps)) <==> forall parents | Chooses(deps, parents) :: Acyclic(GraphWith(deps, parents))
  {
    if Acyclic(GraphOf(deps)) {
      forall parents | Chooses(deps, parents) ensures Acyclic(GraphWith(deps, parents)) {
        ChoiceBounds(deps, parents);
        FewerEdges(GraphOf(deps), GraphWith(deps, parents));
      }
    } else {
      var p :| Walk(GraphOf(deps), p) && |p| >= 2 && p[0] == p[|p| - 1];
      var parents := CyclicChoice(deps, p);
    }
  }

  lemma CyclicChoice(deps: Deps, p: seq<Id>) returns (parents: map<Id, Id>)
    requires Walk(GraphOf(deps), p) && |p| >= 2 && p[0] == p[|p| - 1]
    ensures Chooses(deps, parents) && !Acyclic(GraphWith(deps, parents))
  {
    var w := SimpleCycle(GraphOf(deps), p);
    forall i | 0 <= i < |w| - 1 ensures Edge(deps, w[i], w[i + 1]) { EdgeOfGraph(deps, w[i], w[i + 1]); }
    parents := ChoiceAlong(deps, w, |w| - 1);
    forall i | 0 <= i < |w| - 1 ensures (w[i], w[i + 1]) in GraphWith(deps, parents).edges {
      EdgeWith(deps, parents, w[i], w[i + 1]);
    }
    assert Walk(GraphWith(deps, parents), w);
  }

  // ---------- Subsets of tasks, and dynamic tasks ----------

  function Restrict(deps: Deps, s: set<Id>): Deps {
    map id | id in deps && id in s :: deps[id]
  }

  /** Parsing a subset of the tasks gives the subgraph that the subset induces, even when the parent of a dynamic task
      is outside the subset. */
  lemma RestrictInduces(deps: Deps, s: set<Id>)
    ensures GraphOf(Restrict(deps, s)) == Induced(GraphOf(deps), s)
    ensures SingleParent(deps) ==> SingleParent(Restrict(deps, s))
    ensures WellFormed(GraphOf(deps))
  {
    var r := Restrict(deps, s);
    forall a, b ensures (a, b) in GraphOf(r).edges <==> (a, b) in Induced(GraphOf(deps), s).edges {
      EdgeOfGraph(r, a, b);
      EdgeOfGraph(deps, a, b);
      forall p ensures a in s && a in deps ==> (IsParent(r, p, a) <==> IsParent(deps, p, a)) { }
    }
    if SingleParent(deps) {
      forall id, p, q | IsParent(r, p, id) && IsParent(r, q, id) ensures p == q {
        assert IsParent(deps, p, id) && IsParent(deps, q, id);
      }
    }
  }

  /** The tasks outside `first` that only tasks in `first` hold up. */
  ghost function LayerAfter(deps: Deps, first: set<Id>): set<Id> {
    set id | id in deps && id !in first && forall a | a in deps && Edge(deps, a, id) :: a in first
  }

  /** The roots of what is left after removing a set of tasks are the next layer. */
  lemma LayerAfterIsRoots(deps: Deps, first: set<Id>)
    ensures RootSet(GraphOf(Restrict(deps, deps.Keys - first))) == LayerAfter(deps, first)
    ensures SingleParent(deps) ==> SingleParent(Restrict(deps, deps.Keys - first))
  {
    var keep := deps.Keys - first;
    RestrictInduces(deps, keep);
    var g := Induced(GraphOf(deps), keep);
    forall id | id in keep ensures IsRoot(g, id) <==> forall a | a in deps && Edge(deps, a, id) :: a in first {
      forall a ensures (a, id) in g.edges <==> a in keep && Edge(deps, a, id) {
        EdgeOfGraph(deps, a, id);
      }
    }
  }

  /** The tasks with a dynamic child of `parent` added; the child requires nothing but its parent. */
  function AddChild(deps: Deps, parent: Id, child: Id): Deps {
    deps[child := map[parent := DynamicOutput]]
  }

  /** A child that is new: not a task yet, and not required by any task. */
  ghost predicate Fresh(deps: Deps, child: Id) {
    child !in deps && forall n | n in deps :: child !in deps[n]
  }

  ghost predicate HasChild(deps: Deps, parent: Id) {
    exists n :: IsParent(deps, parent, n)
  }

  lemma AddChildEdges(deps: Deps, parent: Id, child: Id, a: Id, b: Id)
    requires Fresh(deps, child) && parent != child && !HasChild(deps, parent)
    ensures Edge(AddChild(deps, parent, child), a, b) ==>
      || Edge(deps, a, b)
      || (a == parent && b == child && parent in deps)
      || (a == child && b in deps && parent in deps[b])
  {
    var deps' := AddChild(deps, parent, child);
    if InjectedEdge(deps', a, b) {
      var p :| p in deps'[b] && IsParent(deps', p, a);
      if a != child {
        assert IsParent(deps, p, a);
      }
    }
  }

  lemma TwoCycle(deps: Deps, a: Id, b: Id)
    requires Edge(deps, a, b) && Edge(deps, b, a)
    ensures !Acyclic(GraphOf(deps))
  {
    EdgeOfGraph(deps, a, b);
    EdgeOfGraph(deps, b, a);
    var cycle := [a, b, a];
    assert Walk(GraphOf(deps), cycle) && cycle[0] == cycle[|cycle| - 1];
  }

  /** Tasks can take new ones that wait for none of them. */
  lemma AddRoots(deps: Deps, deps': Deps, new_: set<Id>)
    requires Acyclic(GraphOf(deps)) && deps'.Keys <= deps.Keys + new_
    requires forall a, b | Edge(deps', a, b) :: b !in new_ && (a in new_ || Edge(deps, a, b))
    ensures Acyclic(GraphOf(deps'))
  {
    var rank := AcyclicIsRanked(GraphOf(deps));
    var rank': map<Id, nat> := map id | id in deps' :: if id in new_ then 0 else rank[id] + 1;
    forall a, b | (a, b) in GraphOf(deps').edges ensures a in rank' && b in rank' && rank'[a] < rank'[b] {
      EdgeOfGraph(deps', a, b);
      EdgeOfGraph(deps, a, b);
    }
    RankedIsAcyclic(GraphOf(deps'), rank');
  }

  /** Two dynamic children of one parent wait for each other. */
  lemma AcyclicHasSingleChildren(deps: Deps)
    requires Acyclic(GraphOf(deps))
    ensures SingleChild(deps)
  {
    forall p, a, b | IsParent(deps, p, a) && IsParent(deps, p, b) ensures a == b {
      if a != b { TwoCycle(deps, a, b); }
    }
  }

  lemma AddFirstChild(deps: Deps, parent: Id, child: Id)
    requires Fresh(deps, child) && parent != child && !HasChild(deps, parent)
    requires Acyclic(GraphOf(deps))
    ensures Acyclic(GraphOf(AddChild(deps, parent, child)))
  {
    var g, deps' := GraphOf(deps), AddChild(deps, parent, child);
    var g' := GraphOf(deps');
    var rank := AcyclicIsRanked(g);
    var rank' := map n | n in deps' ::
      if n != child then 2 * rank[n] + 1 else if parent in deps then 2 * rank[parent] + 2 else 0;
    forall a, b | (a, b) in g'.edges ensures a in rank' && b in rank' && rank'[a] < rank'[b] {
      AddChildEdges(deps, parent, child, a, b);
      EdgeOfGraph(deps, a, b);
      if a == child && parent in deps {
        EdgeOfGraph(deps, parent, b);
        assert (parent, b) in g.edges;
      }
    }
    RankedIsAcyclic(g', rank');
  }

  /** Adding a fresh dynamic child to an acyclic set of tasks keeps it acyclic exactly when the parent has no dynamic
      child yet: two children of one parent would wait for each other. */
  lemma AddChildAcyclic(deps: Deps, parent: Id, child: Id)
    requires Fresh(deps, child) && parent != child
    requires Acyclic(GraphOf(deps))
    ensures Acyclic(GraphOf(AddChild(deps, parent, child))) <==> !HasChild(deps, parent)
  {
    var deps' := AddChild(deps, parent, child);
    if n :| IsParent(deps, parent, n) {
      assert IsParent(deps', parent, n) && IsParent(deps', parent, child);
      if Acyclic(GraphOf(deps')) { AcyclicHasSingleChildren(deps'); }
    } else {
      AddFirstChild(deps, parent, child);
    }
  }
}
