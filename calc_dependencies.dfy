/** The execution-order resolver of src/pymbe/interpretation/calc_dependencies.py:
    roots of the inferred-expression graph, the reversed edge-BFS list from
    each root and the classification of every edge into a dependency kind. */
module CalcDependencies {
  import opened Json

  type Node = string

  /** A keyed edge `(u, v, key)` of a networkx `MultiDiGraph`. */
  datatype Edge = Edge(src: Node, tgt: Node, key: string)

  /** A directed multigraph: its nodes in insertion order and, for each
      node, its out-edges in adjacency order. */
  datatype Graph = Graph(nodes: seq<Node>, out: map<Node, seq<Edge>>)

  /** Every edge ends in a node of the graph. */
  ghost predicate Closed(g: Graph) {
    forall n, k :: n in g.out && 0 <= k < |g.out[n]| ==> g.out[n][k].tgt in g.out
  }

  /** Distinct nodes, one adjacency list per node, each edge listed under
      its source and listed once. */
  ghost predicate Valid(g: Graph) {
    && (forall i, j :: 0 <= i < j < |g.nodes| ==> g.nodes[i] != g.nodes[j])
    && (forall n :: n in g.out <==> n in g.nodes)
    && Closed(g)
    && (forall n, k :: n in g.out && 0 <= k < |g.out[n]| ==> g.out[n][k].src == n)
    && (forall n, i, j :: n in g.out && 0 <= i < j < |g.out[n]| ==> g.out[n][i] != g.out[n][j])
  }

  /** The out-edges of the nodes `ns`, node after node. */
  function OutEdgesOf(g: Graph, ns: seq<Node>): seq<Edge>
    decreases |ns|
  {
    if ns == [] then [] else (if ns[0] in g.out then g.out[ns[0]] else []) + OutEdgesOf(g, ns[1..])
  }

  /** `G.edges`: every edge of the graph, in node order. */
  function AllEdges(g: Graph): seq<Edge> {
    OutEdgesOf(g, g.nodes)
  }

  lemma {:induction false} OutEdgesOfMember(g: Graph, ns: seq<Node>, e: Edge)
    requires forall i :: 0 <= i < |ns| ==> ns[i] in g.out
    ensures e in OutEdgesOf(g, ns) <==> exists i :: 0 <= i < |ns| && e in g.out[ns[i]]
    decreases |ns|
  {
    if ns != [] {
      OutEdgesOfMember(g, ns[1..], e);
      if exists i :: 0 <= i < |ns| && e in g.out[ns[i]] {
        var i :| 0 <= i < |ns| && e in g.out[ns[i]];
        if i > 0 { assert ns[1..][i - 1] == ns[i]; }
      }
      if exists i :: 0 <= i < |ns[1..]| && e in g.out[ns[1..][i]] {
        var i :| 0 <= i < |ns[1..]| && e in g.out[ns[1..][i]];
        assert ns[1..][i] == ns[i + 1];
      }
    }
  }

  /** How many of the edges `es` end in `n`. */
  function CountInto(es: seq<Edge>, n: Node): nat
    decreases |es|
  {
    if es == [] then 0 else (if es[0].tgt == n then 1 else 0) + CountInto(es[1..], n)
  }

  /** `eig.in_degree(n)`; parallel edges count separately. */
  function InDegree(g: Graph, n: Node): nat {
    CountInto(AllEdges(g), n)
  }

  lemma {:induction false} CountIntoZero(es: seq<Edge>, n: Node)
    ensures CountInto(es, n) == 0 <==> forall i :: 0 <= i < |es| ==> es[i].tgt != n
    decreases |es|
  {
    if es != [] {
      CountIntoZero(es[1..], n);
      assert forall i :: 1 <= i < |es| ==> es[i] == es[1..][i - 1];
    }
  }

  lemma {:induction false} CountIntoPositive(es: seq<Edge>, n: Node, k: nat)
    requires k < |es| && es[k].tgt == n
    ensures CountInto(es, n) > 0
    decreases k
  {
    if k > 0 {
      CountIntoPositive(es[1..], n, k - 1);
    }
  }

  /** The nodes of `ns` with in-degree 0, in order. */
  function RootsOf(g: Graph, ns: seq<Node>): seq<Node>
    decreases |ns|
  {
    if ns == [] then []
    else (if InDegree(g, ns[0]) == 0 then [ns[0]] else []) + RootsOf(g, ns[1..])
  }

  lemma {:induction false} NoRootsOf(g: Graph, ns: seq<Node>)
    requires forall i :: 0 <= i < |ns| ==> InDegree(g, ns[i]) > 0
    ensures RootsOf(g, ns) == []
    decreases |ns|
  {
    if ns != [] {
      NoRootsOf(g, ns[1..]);
    }
  }

  /** Line 25: `[node for node in eig.nodes if eig.in_degree(node) == 0]`. */
  function Roots(g: Graph): seq<Node>
  {
    RootsOf(g, g.nodes)
  }

  lemma {:induction false} RootsOfMember(g: Graph, ns: seq<Node>, n: Node)
    ensures n in RootsOf(g, ns) <==> n in ns && InDegree(g, n) == 0
    decreases |ns|
  {
    if ns != [] {
      RootsOfMember(g, ns[1..], n);
      assert n in ns <==> n == ns[0] || n in ns[1..];
    }
  }

  lemma RootsInGraph(g: Graph)
    requires Valid(g)
    ensures forall i :: 0 <= i < |Roots(g)| ==> Roots(g)[i] in g.out
  {
    forall i | 0 <= i < |Roots(g)| ensures Roots(g)[i] in g.out {
      RootsOfMember(g, g.nodes, Roots(g)[i]);
    }
  }

  /** The roots are exactly the nodes that no edge enters. */
  lemma RootsExact(g: Graph, n: Node)
    ensures n in Roots(g) <==> n in g.nodes && forall e :: e in AllEdges(g) ==> e.tgt != n
  {
    RootsOfMember(g, g.nodes, n);
    CountIntoZero(AllEdges(g), n);
  }

  // ---------------------------------------------------------------------
  // networkx.edge_bfs

  /** The targets of some edges. */
  function Targets(edges: seq<Edge>): set<Node> {
    set e | e in edges :: e.tgt
  }

  lemma TargetsInGraph(g: Graph, n: Node)
    requires Closed(g) && n in g.out
    ensures Targets(g.out[n]) <= g.out.Keys
  {
    forall x | x in Targets(g.out[n]) ensures x in g.out {
      var e :| e in g.out[n] && e.tgt == x;
      var k :| 0 <= k < |g.out[n]| && g.out[n][k] == e;
    }
  }

  /** The loop over one node's out-edges: the targets not yet visited, in
      edge order, each once; these are marked visited and queued. */
  function Fresh(edges: seq<Edge>, v: set<Node>): seq<Node>
    decreases |edges|
  {
    if edges == [] then []
    else
      var c := edges[0].tgt;
      if c in v then Fresh(edges[1..], v)
      else [c] + Fresh(edges[1..], v + {c})
  }

  /** The discovered nodes are new, distinct targets of `edges`. */
  lemma {:induction false} FreshDistinct(edges: seq<Edge>, v: set<Node>)
    ensures forall i :: 0 <= i < |Fresh(edges, v)| ==> Fresh(edges, v)[i] !in v && Fresh(edges, v)[i] in Targets(edges)
    ensures Distinct(Fresh(edges, v))
    decreases |edges|
  {
    if edges != [] {
      var c := edges[0].tgt;
      if c in v {
        FreshDistinct(edges[1..], v);
      } else {
        FreshDistinct(edges[1..], v + {c});
      }
    }
  }

  function Elems(s: seq<Node>): set<Node> {
    set x | x in s
  }

  /** The nodes that `edge_bfs` dequeues, in order, from queue `q` with
      the nodes `v` already visited. */
  function BfsFrom(g: Graph, q: seq<Node>, v: set<Node>): seq<Node>
    requires Closed(g) && v <= g.out.Keys
    requires forall i :: 0 <= i < |q| ==> q[i] in v
    decreases g.out.Keys - v, |q|
  {
    if q == [] then []
    else
      var n := q[0];
      var f := Fresh(g.out[n], v);
      TargetsInGraph(g, n);
      FreshDistinct(g.out[n], v);
      assert f != [] ==> f[0] in g.out.Keys - v;
      [n] + BfsFrom(g, q[1..] + f, v + Elems(f))
  }

  /** The first dequeued node, the nodes it discovers and the rest of the search. */
  lemma BfsStep(g: Graph, q: seq<Node>, v: set<Node>)
    requires Closed(g) && v <= g.out.Keys
    requires forall i :: 0 <= i < |q| ==> q[i] in v
    requires q != []
    ensures var f := Fresh(g.out[q[0]], v);
      && v + Elems(f) <= g.out.Keys
      && (forall i :: 0 <= i < |q[1..] + f| ==> (q[1..] + f)[i] in v + Elems(f))
      && (f != [] ==> f[0] in g.out.Keys - v)
      && BfsFrom(g, q, v) == [q[0]] + BfsFrom(g, q[1..] + f, v + Elems(f))
  {
    TargetsInGraph(g, q[0]);
    FreshDistinct(g.out[q[0]], v);
  }

  lemma OutEdgesOfCons(g: Graph, n: Node, ns: seq<Node>)
    requires n in g.out
    ensures OutEdgesOf(g, [n] + ns) == g.out[n] + OutEdgesOf(g, ns)
  {
    assert ([n] + ns)[1..] == ns;
  }

  /** `list(nx.edge_bfs(eig, root))`: the out-edges of every node, in the
      order the breadth-first search dequeues the nodes. For a directed
      graph each edge is met once, so the visited-edge test never skips one. */
  function EdgeBfsSpec(g: Graph, root: Node): seq<Edge>
    requires Closed(g) && root in g.out
  {
    OutEdgesOf(g, BfsFrom(g, [root], {root}))
  }

  predicate Distinct<T(==)>(s: seq<T>) {
    forall i, j :: 0 <= i < j < |s| ==> s[i] != s[j]
  }

  lemma AppendDistinct<T>(a: seq<T>, b: seq<T>)
    requires Distinct(a) && Distinct(b)
    requires forall i :: 0 <= i < |b| ==> b[i] !in a
    ensures Distinct(a + b)
  {
    forall i, j | 0 <= i < j < |a + b| ensures (a + b)[i] != (a + b)[j] {
      if i < |a| && j >= |a| {
        assert (a + b)[j] == b[j - |a|];
      }
    }
  }

  /** The search dequeues every node at most once, and only nodes of the
      queue or nodes not yet visited. */
  lemma {:induction false} BfsDistinct(g: Graph, q: seq<Node>, v: set<Node>)
    requires Closed(g) && v <= g.out.Keys
    requires forall i :: 0 <= i < |q| ==> q[i] in v
    requires Distinct(q)
    ensures Distinct(BfsFrom(g, q, v))
    ensures forall i :: 0 <= i < |BfsFrom(g, q, v)| ==> BfsFrom(g, q, v)[i] in q || BfsFrom(g, q, v)[i] !in v
    decreases g.out.Keys - v, |q|
  {
    if q != [] {
      var n := q[0];
      var f := Fresh(g.out[n], v);
      var q', v' := q[1..] + f, v + Elems(f);
      TargetsInGraph(g, n);
      FreshDistinct(g.out[n], v);
      AppendDistinct(q[1..], f);
      assert f != [] ==> f[0] in g.out.Keys - v;
      BfsDistinct(g, q', v');
      var rest := BfsFrom(g, q', v');
      assert BfsFrom(g, q, v) == [n] + rest;
      forall i | 0 <= i < |rest| ensures rest[i] != n && (rest[i] in q || rest[i] !in v) {
        if rest[i] in q' {
          if rest[i] !in f {
            assert rest[i] in q[1..];
          }
        }
      }
      AppendDistinct([n], rest);
    }
  }

  lemma {:induction false} OutEdgesOfDistinct(g: Graph, ns: seq<Node>)
    requires Valid(g)
    requires forall i, j :: 0 <= i < j < |ns| ==> ns[i] != ns[j]
    ensures forall i, j :: 0 <= i < j < |OutEdgesOf(g, ns)| ==> OutEdgesOf(g, ns)[i] != OutEdgesOf(g, ns)[j]
    ensures forall e :: e in OutEdgesOf(g, ns) ==> e.src in ns
    decreases |ns|
  {
    if ns != [] {
      var n, tail := ns[0], ns[1..];
      assert forall i, j :: 0 <= i < j < |tail| ==> tail[i] != tail[j] by {
        forall i, j | 0 <= i < j < |tail| ensures tail[i] != tail[j] {
          assert tail[i] == ns[i + 1] && tail[j] == ns[j + 1];
        }
      }
      assert n !in tail;
      OutEdgesOfDistinct(g, tail);
      OutEdgesOfConsDistinct(g, n, tail);
      assert OutEdgesOf(g, ns) == OutEdgesOf(g, [n] + tail) by { assert ns == [n] + tail; }
    }
  }

  /** One step of `OutEdgesOfDistinct`: the node's own edges, none of which
      reappear among the later nodes' edges. */
  lemma OutEdgesOfConsDistinct(g: Graph, n: Node, tail: seq<Node>)
    requires Valid(g) && n !in tail
    requires Distinct(OutEdgesOf(g, tail))
    requires forall e :: e in OutEdgesOf(g, tail) ==> e.src in tail
    ensures Distinct(OutEdgesOf(g, [n] + tail))
    ensures forall e :: e in OutEdgesOf(g, [n] + tail) ==> e.src in [n] + tail
  {
    var h := if n in g.out then g.out[n] else [];
    var rest := OutEdgesOf(g, tail);
    assert ([n] + tail)[1..] == tail;
    assert OutEdgesOf(g, [n] + tail) == h + rest;
    assert forall k :: 0 <= k < |h| ==> h[k].src == n;
    assert Distinct(h);
    forall k | 0 <= k < |rest| ensures rest[k] !in h {
      assert rest[k] in rest;
    }
    AppendDistinct(h, rest);
  }

  /** The edge-BFS list starts with the root's own out-edges and holds
      each edge at most once, every one leaving a node of the search. */
  lemma EdgeBfsShape(g: Graph, root: Node)
    requires Valid(g) && root in g.out
    ensures |EdgeBfsSpec(g, root)| >= |g.out[root]| && EdgeBfsSpec(g, root)[..|g.out[root]|] == g.out[root]
    ensures forall i, j :: 0 <= i < j < |EdgeBfsSpec(g, root)| ==> EdgeBfsSpec(g, root)[i] != EdgeBfsSpec(g, root)[j]
    ensures forall e :: e in EdgeBfsSpec(g, root) ==> e.src in BfsFrom(g, [root], {root})
  {
    var ns := BfsFrom(g, [root], {root});
    BfsDistinct(g, [root], {root});
    OutEdgesOfDistinct(g, ns);
    assert ns[0] == root;
    assert OutEdgesOf(g, ns) == g.out[root] + OutEdgesOf(g, ns[1..]);
  }

  /** Every target of `edges` that is not yet visited is discovered. */
  lemma {:induction false} FreshCovers(edges: seq<Edge>, v: set<Node>, k: nat)
    requires k < |edges| && edges[k].tgt !in v
    ensures edges[k].tgt in Fresh(edges, v)
    decreases |edges|
  {
    var c := edges[0].tgt;
    if k > 0 {
      assert edges[1..][k - 1] == edges[k];
      if c in v {
        FreshCovers(edges[1..], v, k - 1);
      } else if edges[k].tgt != c {
        FreshCovers(edges[1..], v + {c}, k - 1);
      }
    }
  }

  /** The search dequeues every node of the queue, stays inside the graph,
      and every edge leaving a dequeued node ends in a dequeued node or in
      a node that was visited before and is no longer queued. */
  lemma {:induction false} BfsClosed(g: Graph, q: seq<Node>, v: set<Node>)
    requires Closed(g) && Frontier(g, q, v)
    ensures forall x :: x in q ==> x in BfsFrom(g, q, v)
    ensures forall x :: x in BfsFrom(g, q, v) ==> x in g.out
    ensures forall x, k :: x in BfsFrom(g, q, v) && 0 <= k < |g.out[x]| ==>
      g.out[x][k].tgt in BfsFrom(g, q, v) || (g.out[x][k].tgt in v && g.out[x][k].tgt !in q)
    decreases g.out.Keys - v, |q|
  {
    if q != [] {
      var n := q[0];
      var f := Fresh(g.out[n], v);
      var q', v' := q[1..] + f, v + Elems(f);
      BfsAdvance(g, q, v);
      BfsStep(g, q, v);
      BfsClosed(g, q', v');
      var rest := BfsFrom(g, q', v');
      assert BfsFrom(g, q, v) == [n] + rest;
      forall x | x in q ensures x in [n] + rest {
        if x != n { assert x in q'; }
      }
      forall x, k | x in [n] + rest && 0 <= k < |g.out[x]|
        ensures g.out[x][k].tgt in [n] + rest || (g.out[x][k].tgt in v && g.out[x][k].tgt !in q)
      {
        var t := g.out[x][k].tgt;
        if x == n {
          if t !in v {
            FreshCovers(g.out[n], v, k);
            assert t in q';
          } else if t in q {
            if t != n { assert t in q'; }
          }
        } else {
          assert x in rest;
          if t !in rest && t != n {
            assert t in v' && t !in q';
            assert t !in f;
          }
        }
      }
    }
  }

  /** `b` is a successor of `a`. */
  ghost predicate NextTo(g: Graph, a: Node, b: Node) {
    a in g.out && exists k :: 0 <= k < |g.out[a]| && g.out[a][k].tgt == b
  }

  /** A walk along edges of the graph. */
  ghost predicate IsPath(g: Graph, p: seq<Node>) {
    |p| >= 1 && forall i :: 0 <= i < |p| - 1 ==> NextTo(g, p[i], p[i + 1])
  }

  /** `n` can be reached from `root` by following edges. */
  ghost predicate Reachable(g: Graph, root: Node, n: Node) {
    exists p :: IsPath(g, p) && p[0] == root && p[|p| - 1] == n
  }

  /** A walk that starts in a set of nodes closed under successors stays in it. */
  lemma {:induction false} PathStaysIn(g: Graph, p: seq<Node>, s: seq<Node>)
    requires IsPath(g, p) && p[0] in s
    requires forall x :: x in s ==> x in g.out
    requires forall x, k :: x in s && 0 <= k < |g.out[x]| ==> g.out[x][k].tgt in s
    ensures p[|p| - 1] in s
    decreases |p|
  {
    if |p| > 1 {
      var p' := p[..|p| - 1];
      assert IsPath(g, p') by {
        forall i | 0 <= i < |p'| - 1 ensures NextTo(g, p'[i], p'[i + 1]) {
          assert NextTo(g, p[i], p[i + 1]);
        }
      }
      PathStaysIn(g, p', s);
      assert NextTo(g, p[|p| - 2], p[|p| - 1]);
    }
  }

  /** A walk extended by one edge. */
  lemma ReachableNext(g: Graph, root: Node, a: Node, k: nat)
    requires Reachable(g, root, a) && a in g.out && k < |g.out[a]|
    ensures Reachable(g, root, g.out[a][k].tgt)
  {
    var p :| IsPath(g, p) && p[0] == root && p[|p| - 1] == a;
    var p' := p + [g.out[a][k].tgt];
    forall i | 0 <= i < |p'| - 1 ensures NextTo(g, p'[i], p'[i + 1]) {
      if i < |p| - 1 {
        assert NextTo(g, p[i], p[i + 1]);
      } else {
        assert p'[i] == a && p'[i + 1] == g.out[a][k].tgt;
      }
    }
    assert IsPath(g, p') && p'[0] == root && p'[|p'| - 1] == g.out[a][k].tgt;
  }

  /** Starting from reachable visited nodes, the search dequeues reachable nodes only. */
  lemma {:induction false} BfsReachable(g: Graph, root: Node, q: seq<Node>, v: set<Node>)
    requires Closed(g) && Frontier(g, q, v)
    requires forall x :: x in v ==> Reachable(g, root, x)
    ensures forall x :: x in BfsFrom(g, q, v) ==> Reachable(g, root, x)
    decreases g.out.Keys - v, |q|
  {
    if q != [] {
      var n := q[0];
      var f := Fresh(g.out[n], v);
      BfsAdvance(g, q, v);
      FreshDistinct(g.out[n], v);
      forall x | x in v + Elems(f) ensures Reachable(g, root, x) {
        if x !in v {
          var i :| 0 <= i < |f| && f[i] == x;
          var e :| e in g.out[n] && e.tgt == x;
          var k :| 0 <= k < |g.out[n]| && g.out[n][k] == e;
          ReachableNext(g, root, n, k);
        }
      }
      BfsReachable(g, root, q[1..] + f, v + Elems(f));
      BfsStep(g, q, v);
    }
  }

  /** Every edge of the edge-BFS list belongs to the graph and leaves a
      node reachable from the root. */
  lemma EdgeBfsSound(g: Graph, root: Node, e: Edge)
    requires Valid(g) && root in g.out
    requires e in EdgeBfsSpec(g, root)
    ensures e in AllEdges(g) && Reachable(g, root, e.src)
  {
    var ns := BfsFrom(g, [root], {root});
    BfsClosed(g, [root], {root});
    EdgeBfsShape(g, root);
    OutEdgesOfMember(g, ns, e);
    OutEdgesOfMember(g, g.nodes, e);
    assert IsPath(g, [root]);
    BfsReachable(g, root, [root], {root});
    var i :| 0 <= i < |ns| && e in g.out[ns[i]];
    assert ns[i] in g.nodes;
    var j :| 0 <= j < |g.nodes| && g.nodes[j] == ns[i];
  }

  /** Every edge of the graph that leaves a node reachable from the root
      is in the edge-BFS list. */
  lemma EdgeBfsComplete(g: Graph, root: Node, e: Edge)
    requires Valid(g) && root in g.out
    requires e in AllEdges(g) && Reachable(g, root, e.src)
    ensures e in EdgeBfsSpec(g, root)
  {
    var ns := BfsFrom(g, [root], {root});
    BfsClosed(g, [root], {root});
    OutEdgesOfMember(g, ns, e);
    OutEdgesOfMember(g, g.nodes, e);
    var i :| 0 <= i < |g.nodes| && e in g.out[g.nodes[i]];
    var k :| 0 <= k < |g.out[g.nodes[i]]| && g.out[g.nodes[i]][k] == e;
    assert e.src == g.nodes[i];
    var p :| IsPath(g, p) && p[0] == root && p[|p| - 1] == e.src;
    assert forall y :: y in {root} ==> y in [root];
    PathStaysIn(g, p, ns);
    var m :| 0 <= m < |ns| && ns[m] == e.src;
  }

  /** The edge-BFS list holds exactly the edges of the graph whose source
      can be reached from the root. */
  lemma EdgeBfsReachable(g: Graph, root: Node)
    requires Valid(g) && root in g.out
    ensures forall e :: e in EdgeBfsSpec(g, root) <==> e in AllEdges(g) && Reachable(g, root, e.src)
  {
    forall e ensures e in EdgeBfsSpec(g, root) <==> e in AllEdges(g) && Reachable(g, root, e.src) {
      if e in EdgeBfsSpec(g, root) { EdgeBfsSound(g, root, e); }
      if e in AllEdges(g) && Reachable(g, root, e.src) { EdgeBfsComplete(g, root, e); }
    }
  }

  /** One dequeued node's out-edges: each is yielded, and each target not
      yet visited is marked visited and queued. */
  method VisitEdges(edges: seq<Edge>, queue0: seq<Node>, visited0: set<Node>, es0: seq<Edge>)
    returns (queue: seq<Node>, visited: set<Node>, es: seq<Edge>)
    ensures queue == queue0 + Fresh(edges, visited0)
    ensures visited == visited0 + Elems(Fresh(edges, visited0))
    ensures es == es0 + edges
  {
    queue, visited, es := queue0, visited0, es0;
    ghost var added: seq<Node> := [];
    var j := 0;
    while j < |edges|
      invariant 0 <= j <= |edges|
      invariant Fresh(edges, visited0) == added + Fresh(edges[j..], visited)
      invariant queue == queue0 + added && visited == visited0 + Elems(added)
      invariant es == es0 + edges[..j]
    {
      assert edges[j..][1..] == edges[j + 1..];
      var child := edges[j].tgt;
      if child !in visited {
        visited := visited + {child};
        queue := queue + [child];
        added := added + [child];
      }
      es := es + [edges[j]];
      assert edges[..j + 1] == edges[..j] + [edges[j]];
      j := j + 1;
    }
    assert edges[..j] == edges;
  }

  /** The queue holds visited nodes only, and all visited nodes are nodes of the graph. */
  ghost predicate Frontier(g: Graph, q: seq<Node>, v: set<Node>) {
    v <= g.out.Keys && forall i :: 0 <= i < |q| ==> q[i] in v
  }

  /** One round of the search: dequeue `q[0]`, yield its out-edges and
      queue the targets it discovers; the measure of the search drops. */
  lemma BfsAdvance(g: Graph, q: seq<Node>, v: set<Node>)
    requires Closed(g) && Frontier(g, q, v) && q != []
    ensures var f := Fresh(g.out[q[0]], v);
      && Frontier(g, q[1..] + f, v + Elems(f))
      && OutEdgesOf(g, BfsFrom(g, q, v)) == g.out[q[0]] + OutEdgesOf(g, BfsFrom(g, q[1..] + f, v + Elems(f)))
      && (g.out.Keys - (v + Elems(f)) < g.out.Keys - v || (v + Elems(f) == v && |q[1..] + f| < |q|))
  {
    var f := Fresh(g.out[q[0]], v);
    BfsStep(g, q, v);
    OutEdgesOfCons(g, q[0], BfsFrom(g, q[1..] + f, v + Elems(f)));
    if f != [] {
      assert f[0] in g.out.Keys - v && f[0] !in g.out.Keys - (v + Elems(f));
    }
  }

  /** `nx.edge_bfs(eig, root)` with a queue and a visited set. */
  method EdgeBfs(g: Graph, root: Node) returns (es: seq<Edge>)
    requires Closed(g) && root in g.out
    ensures es == EdgeBfsSpec(g, root)
  {
    var queue := [root];
    var visited := {root};
    es := [];
    ghost var spec := EdgeBfsSpec(g, root);
    while queue != []
      invariant Frontier(g, queue, visited)
      invariant spec == es + OutEdgesOf(g, BfsFrom(g, queue, visited))
      decreases g.out.Keys - visited, |queue|
    {
      var n := queue[0];
      ghost var es0, q0, v0 := es, queue, visited;
      BfsAdvance(g, queue, visited);
      queue, visited, es := VisitEdges(g.out[n], queue[1..], visited, es);
      assert es0 + (g.out[n] + OutEdgesOf(g, BfsFrom(g, queue, visited))) == es + OutEdgesOf(g, BfsFrom(g, queue, visited));
    }
  }

  // ---------------------------------------------------------------------
  // Classification (lines 35-55)

  /** The six dependency kinds; `Unclassified` is the empty string. */
  datatype Kind = Assignment | Redefinition | ValueBinding | Output | Input | Unclassified

  function Label(k: Kind): string {
    match k
    case Assignment => "Assignment"
    case Redefinition => "Redefinition"
    case ValueBinding => "ValueBinding"
    case Output => "Output"
    case Input => "Input"
    case Unclassified => ""
  }

  /** `[node_child, node, kind]`: the consumer, the producer and the kind. */
  datatype Step = Step(consumer: Node, producer: Node, kind: Kind)

  /** `all_elements[x]['@type'] == t`. */
  function IsType(elements: map<Node, Record>, x: Node, t: string): Result<bool> {
    if x !in elements then Failure(KeyError)
    else
      var v :- Lookup(elements[x], "@type");
      Success(v == Str(t))
  }

  /** Python's short-circuit `a and b`. */
  function And(a: Result<bool>, b: Result<bool>): (r: Result<bool>)
    ensures a == Success(false) ==> r == Success(false)
    ensures a == Success(true) ==> r == b
    ensures a.Failure? ==> r == a
  {
    if a.Failure? || !a.value then a else b
  }

  /** `e in edges_by_type[key]`. */
  function Listed(edgesByType: map<string, seq<Edge>>, key: string, e: Edge): Result<bool> {
    if key in edgesByType then Success(e in edgesByType[key]) else Failure(KeyError)
  }

  /** `relevant_edge_types` of line 43: the keys of the edges `u -> v`. */
  function ParallelLabels(es: seq<Edge>, u: Node, v: Node): seq<string>
    decreases |es|
  {
    if es == [] then []
    else (if es[0].src == u && es[0].tgt == v then [es[0].key] else []) + ParallelLabels(es[1..], u, v)
  }

  lemma {:induction false} ParallelLabelsMember(es: seq<Edge>, u: Node, v: Node, l: string)
    ensures l in ParallelLabels(es, u, v) <==> Edge(u, v, l) in es
    decreases |es|
  {
    if es != [] {
      ParallelLabelsMember(es[1..], u, v, l);
      assert Edge(u, v, l) in es <==> es[0] == Edge(u, v, l) || Edge(u, v, l) in es[1..];
    }
  }

  /** The priority ladder of lines 40-53 for the edge `node -> node_child`. */
  function Classify(g: Graph, elements: map<Node, Record>, edgesByType: map<string, seq<Edge>>, e: Edge): Result<Kind>
  {
    var child, node := e.tgt, e.src;
    var assignment :- And(IsType(elements, child, "Feature"), IsType(elements, node, "Feature"));
    if assignment then Success(Assignment)
    else
      var attributes :- And(IsType(elements, child, "AttributeUsage"), IsType(elements, node, "AttributeUsage"));
      if attributes then
        Success(if "Redefinition^-1" in ParallelLabels(AllEdges(g), node, child) then Redefinition else Assignment)
      else
        var binding :- And(IsType(elements, child, "Feature"), IsType(elements, node, "AttributeUsage"));
        if binding then Success(ValueBinding)
        else
          var output :- Listed(edgesByType, "ReturnParameterMembership", Edge(child, node, "ReturnParameterMembership"));
          if output then Success(Output)
          else
            var input :- Listed(edgesByType, "ParameterMembership", Edge(node, child, "ParameterMembership"));
            Success(if input then Input else Unclassified)
  }

  /** A typed pair of elements. */
  predicate Typed(elements: map<Node, Record>, x: Node, t: string) {
    x in elements && "@type" in elements[x] && elements[x]["@type"] == Str(t)
  }

  /** The first three rungs, decided by the two metatypes. */
  lemma ClassifyByTypes(g: Graph, elements: map<Node, Record>, edgesByType: map<string, seq<Edge>>, e: Edge)
    ensures Typed(elements, e.tgt, "Feature") && Typed(elements, e.src, "Feature") ==>
      Classify(g, elements, edgesByType, e) == Success(Assignment)
    ensures Typed(elements, e.tgt, "Feature") && Typed(elements, e.src, "AttributeUsage") ==>
      Classify(g, elements, edgesByType, e) == Success(ValueBinding)
    ensures Typed(elements, e.tgt, "AttributeUsage") && Typed(elements, e.src, "AttributeUsage") ==>
      (Classify(g, elements, edgesByType, e) == Success(Redefinition) <==>
        Edge(e.src, e.tgt, "Redefinition^-1") in AllEdges(g))
    ensures Typed(elements, e.tgt, "AttributeUsage") && Typed(elements, e.src, "AttributeUsage") ==>
      (Classify(g, elements, edgesByType, e) == Success(Assignment) <==>
        Edge(e.src, e.tgt, "Redefinition^-1") !in AllEdges(g))
  {
    ParallelLabelsMember(AllEdges(g), e.src, e.tgt, "Redefinition^-1");
  }

  /** Past the type rungs, `Output` looks for the reversed pair among the
      return-parameter memberships and `Input` for the edge's own
      direction among the parameter memberships. */
  lemma ClassifyByMembership(g: Graph, elements: map<Node, Record>, edgesByType: map<string, seq<Edge>>, e: Edge)
    requires e.tgt in elements && "@type" in elements[e.tgt]
    requires e.src in elements && "@type" in elements[e.src]
    requires !(Typed(elements, e.tgt, "Feature") && Typed(elements, e.src, "Feature"))
    requires !(Typed(elements, e.tgt, "AttributeUsage") && Typed(elements, e.src, "AttributeUsage"))
    requires !(Typed(elements, e.tgt, "Feature") && Typed(elements, e.src, "AttributeUsage"))
    requires "ReturnParameterMembership" in edgesByType && "ParameterMembership" in edgesByType
    ensures Classify(g, elements, edgesByType, e) == Success(Output) <==>
      Edge(e.tgt, e.src, "ReturnParameterMembership") in edgesByType["ReturnParameterMembership"]
    ensures Classify(g, elements, edgesByType, e) == Success(Input) <==>
      Edge(e.tgt, e.src, "ReturnParameterMembership") !in edgesByType["ReturnParameterMembership"] &&
      Edge(e.src, e.tgt, "ParameterMembership") in edgesByType["ParameterMembership"]
    ensures Classify(g, elements, edgesByType, e) == Success(Unclassified) <==>
      Edge(e.tgt, e.src, "ReturnParameterMembership") !in edgesByType["ReturnParameterMembership"] &&
      Edge(e.src, e.tgt, "ParameterMembership") !in edgesByType["ParameterMembership"]
  {
  }

  // ---------------------------------------------------------------------
  // generate_execution_order

  /** `all_elements[root]['featuringType'][0]` on the value found there. */
  function First(v: Value): Result<Value> {
    match v
    case Coll(kind, xs) =>
      if kind == SetKind then Failure(TypeError)
      else if xs == [] then Failure(IndexError)
      else Success(xs[0])
    case Obj(_) => Failure(KeyError)
    case Str(s) => if s == "" then Failure(IndexError) else Success(Str([s[0]]))
    case _ => Failure(TypeError)
  }

  /** Line 28: the root's context, `all_elements[root]['featuringType'][0]['@id']`. */
  function Context(elements: map<Node, Record>, root: Node): Result<Value> {
    if root !in elements then Failure(KeyError)
    else
      var ft :- Lookup(elements[root], "featuringType");
      var first :- First(ft);
      Subscript(first, "@id")
  }

  /** `acc` followed by the triples of `r`, unless `r` raised. */
  function Then(acc: seq<Step>, r: Result<seq<Step>>): Result<seq<Step>> {
    if r.Failure? then r else Success(acc + r.value)
  }

  /** `a` then `b`; the first exception wins. */
  function Seq2(a: Result<seq<Step>>, b: Result<seq<Step>>): Result<seq<Step>> {
    if a.Failure? then a else Then(a.value, b)
  }

  /** The triples of a list of edges, one per edge, in order. */
  function StepsOf(g: Graph, elements: map<Node, Record>, edgesByType: map<string, seq<Edge>>, es: seq<Edge>): Result<seq<Step>>
    decreases |es|
  {
    if es == [] then Success([])
    else match Classify(g, elements, edgesByType, es[0])
      case Failure(err) => Failure(err)
      case Success(k) => Then([Step(es[0].tgt, es[0].src, k)], StepsOf(g, elements, edgesByType, es[1..]))
  }

  function Reversed<T>(s: seq<T>): (r: seq<T>)
    ensures |r| == |s| && forall i :: 0 <= i < |s| ==> r[i] == s[|s| - 1 - i]
    decreases |s|
  {
    if s == [] then [] else Reversed(s[1..]) + [s[0]]
  }

  /** `t` is `s` with its first `i` and last `i` places swapped end for end. */
  ghost predicate HalfSwapped<T>(t: seq<T>, s: seq<T>, i: nat) {
    && |t| == |s| && 2 * i <= |s|
    && (forall k :: 0 <= k < i ==> t[k] == s[|s| - 1 - k] && t[|s| - 1 - k] == s[k])
    && (forall k :: i <= k < |s| - i ==> t[k] == s[k])
  }

  lemma HalfSwappedStep<T>(t: seq<T>, s: seq<T>, i: nat)
    requires HalfSwapped(t, s, i) && i < |s| - 1 - i
    ensures HalfSwapped(t[i := t[|s| - 1 - i]][|s| - 1 - i := t[i]], s, i + 1)
  {
  }

  lemma HalfSwappedDone<T>(t: seq<T>, s: seq<T>, i: nat)
    requires HalfSwapped(t, s, i) && i >= |s| - 1 - i
    ensures t == Reversed(s)
  {
    forall k | 0 <= k < |s| ensures t[k] == Reversed(s)[k] {
      if i <= k < |s| - i {
        assert k == |s| - 1 - k;
      } else if k >= |s| - i {
        assert t[|s| - 1 - (|s| - 1 - k)] == s[|s| - 1 - k];
      }
    }
  }

  /** `calc_order.reverse()`: swap the two ends inwards. */
  method ReverseInPlace(a: array<Edge>)
    modifies a
    ensures a[..] == Reversed(old(a[..]))
  {
    ghost var s := a[..];
    var i := 0;
    while i < a.Length - 1 - i
      invariant HalfSwapped(a[..], s, i)
    {
      ghost var t := a[..];
      HalfSwappedStep(t, s, i);
      a[i], a[a.Length - 1 - i] := a[a.Length - 1 - i], a[i];
      assert a[..] == t[i := t[|s| - 1 - i]][|s| - 1 - i := t[i]];
      i := i + 1;
    }
    HalfSwappedDone(a[..], s, i);
  }

  /** One root's block: its context is read and must be hashable, then its
      reversed edge-BFS list is classified. */
  function Block(g: Graph, elements: map<Node, Record>, edgesByType: map<string, seq<Edge>>, root: Node): Result<seq<Step>>
    requires Closed(g) && root in g.out
  {
    var context :- Context(elements, root);
    if !Hashable(context) then Failure(TypeError)
    else StepsOf(g, elements, edgesByType, Reversed(EdgeBfsSpec(g, root)))
  }

  function Blocks(g: Graph, elements: map<Node, Record>, edgesByType: map<string, seq<Edge>>, roots: seq<Node>): Result<seq<Step>>
    requires Closed(g) && forall i :: 0 <= i < |roots| ==> roots[i] in g.out
    decreases |roots|
  {
    if roots == [] then Success([])
    else Seq2(Block(g, elements, edgesByType, roots[0]), Blocks(g, elements, edgesByType, roots[1..]))
  }

  /** The list `generate_execution_order` returns, or the exception it raises. */
  function ExecutionOrder(g: Graph, elements: map<Node, Record>, edgesByType: map<string, seq<Edge>>): Result<seq<Step>>
    requires Valid(g)
  {
    RootsInGraph(g);
    Blocks(g, elements, edgesByType, Roots(g))
  }

  lemma ThenThen(a: seq<Step>, b: seq<Step>, r: Result<seq<Step>>)
    ensures Then(a, Then(b, r)) == Then(a + b, r)
  {
    if r.Success? { assert a + b + r.value == a + (b + r.value); }
  }

  lemma Seq2Then(a: seq<Step>, x: Result<seq<Step>>, y: Result<seq<Step>>)
    ensures Seq2(Then(a, x), y) == Then(a, Seq2(x, y))
  {
    if x.Success? && y.Success? { assert a + x.value + y.value == a + (x.value + y.value); }
  }

  lemma RootsOfStep(g: Graph, ns: seq<Node>, i: nat)
    requires i < |ns|
    ensures RootsOf(g, ns[i..]) == (if InDegree(g, ns[i]) == 0 then [ns[i]] else []) + RootsOf(g, ns[i + 1..])
  {
    assert ns[i..][1..] == ns[i + 1..];
  }

  /** Line 25 as a loop over the nodes. */
  method FindRoots(g: Graph) returns (roots: seq<Node>)
    ensures roots == Roots(g)
  {
    roots := [];
    var i := 0;
    while i < |g.nodes|
      invariant 0 <= i <= |g.nodes|
      invariant Roots(g) == roots + RootsOf(g, g.nodes[i..])
    {
      var n := g.nodes[i];
      RootsOfStep(g, g.nodes, i);
      if InDegree(g, n) == 0 {
        roots := roots + [n];
      }
      i := i + 1;
    }
    assert roots + [] == roots;
  }

  /** Lines 35-55: classify each edge of `calcOrder` and append its triple
      to `pairs0`; the first exception ends the run. */
  method AppendSteps(g: Graph, elements: map<Node, Record>, edgesByType: map<string, seq<Edge>>, calcOrder: seq<Edge>, pairs0: seq<Step>)
    returns (r: Result<seq<Step>>)
    ensures r == Then(pairs0, StepsOf(g, elements, edgesByType, calcOrder))
  {
    var pairs := pairs0;
    var j := 0;
    while j < |calcOrder|
      invariant 0 <= j <= |calcOrder|
      invariant Then(pairs0, StepsOf(g, elements, edgesByType, calcOrder)) ==
        Then(pairs, StepsOf(g, elements, edgesByType, calcOrder[j..]))
    {
      var edg := calcOrder[j];
      assert calcOrder[j..][1..] == calcOrder[j + 1..];
      var kind := Classify(g, elements, edgesByType, edg);
      if kind.Failure? {
        return Failure(kind.error);
      }
      var step := Step(edg.tgt, edg.src, kind.value);
      ThenThen(pairs, [step], StepsOf(g, elements, edgesByType, calcOrder[j + 1..]));
      pairs := pairs + [step];
      j := j + 1;
    }
    assert pairs + [] == pairs;
    r := Success(pairs);
  }

  lemma ThenNothing(r: Result<seq<Step>>)
    ensures Then([], r) == r
  {
    if r.Success? { assert [] + r.value == r.value; }
  }

  /** Lines 31-32: `calc_order = list(nx.edge_bfs(eig, root))`, reversed in place. */
  method CalcOrder(g: Graph, root: Node) returns (calcOrder: seq<Edge>)
    requires Closed(g) && root in g.out
    ensures calcOrder == Reversed(EdgeBfsSpec(g, root))
  {
    var bfs := EdgeBfs(g, root);
    var buffer := new Edge[|bfs|](i requires 0 <= i < |bfs| => bfs[i]);
    assert buffer[..] == bfs;
    ReverseInPlace(buffer);
    calcOrder := buffer[..];
  }

  /** Lines 27-58: the loop over the roots, appending each root's block
      to `pairs0`. */
  method AppendBlocks(g: Graph, elements: map<Node, Record>, edgesByType: map<string, seq<Edge>>, roots: seq<Node>, pairs0: seq<Step>)
    returns (r: Result<seq<Step>>)
    requires Closed(g) && forall i :: 0 <= i < |roots| ==> roots[i] in g.out
    ensures r == Then(pairs0, Blocks(g, elements, edgesByType, roots))
  {
    var pairs := pairs0;
    var k := 0;
    while k < |roots|
      invariant 0 <= k <= |roots|
      invariant Then(pairs0, Blocks(g, elements, edgesByType, roots)) == Then(pairs, Blocks(g, elements, edgesByType, roots[k..]))
    {
      var root := roots[k];
      assert roots[k..][1..] == roots[k + 1..];
      ghost var rest := Blocks(g, elements, edgesByType, roots[k + 1..]);
      var context := Context(elements, root);
      if context.Failure? {
        return Failure(context.error);
      }
      if !Hashable(context.value) {
        return Failure(TypeError);
      }
      var calcOrder := CalcOrder(g, root);
      ghost var steps := StepsOf(g, elements, edgesByType, calcOrder);
      assert Block(g, elements, edgesByType, root) == steps;
      var appended := AppendSteps(g, elements, edgesByType, calcOrder, pairs);
      if appended.Failure? {
        return appended;
      }
      ThenThen(pairs, steps.value, rest);
      pairs := appended.value;
      k := k + 1;
    }
    assert pairs + [] == pairs;
    r := Success(pairs);
  }

  /** `generate_execution_order`. */
  method GenerateExecutionOrder(g: Graph, elements: map<Node, Record>, edgesByType: map<string, seq<Edge>>)
    returns (r: Result<seq<Step>>)
    requires Valid(g)
    ensures r == ExecutionOrder(g, elements, edgesByType)
  {
    var roots := FindRoots(g);
    RootsInGraph(g);
    r := AppendBlocks(g, elements, edgesByType, roots, []);
    ThenNothing(Blocks(g, elements, edgesByType, roots));
  }

  // ---------------------------------------------------------------------
  // Properties of the execution order

  /** One triple per edge: consumer first, then producer, then the kind
      the ladder gives that edge. */
  lemma {:induction false} StepsShape(g: Graph, elements: map<Node, Record>, edgesByType: map<string, seq<Edge>>, es: seq<Edge>)
    requires StepsOf(g, elements, edgesByType, es).Success?
    ensures |StepsOf(g, elements, edgesByType, es).value| == |es|
    ensures forall i :: 0 <= i < |es| ==>
      Classify(g, elements, edgesByType, es[i]).Success? &&
      StepsOf(g, elements, edgesByType, es).value[i] == Step(es[i].tgt, es[i].src, Classify(g, elements, edgesByType, es[i]).value)
    decreases |es|
  {
    if es != [] {
      StepsShape(g, elements, edgesByType, es[1..]);
      forall i | 0 < i < |es| ensures es[i] == es[1..][i - 1] { }
    }
  }

  /** Within a root's block the triples follow the reverse of the root's
      edge-BFS order. */
  lemma BlockShape(g: Graph, elements: map<Node, Record>, edgesByType: map<string, seq<Edge>>, root: Node)
    requires Closed(g) && root in g.out
    requires Block(g, elements, edgesByType, root).Success?
    ensures |Block(g, elements, edgesByType, root).value| == |EdgeBfsSpec(g, root)|
    ensures forall i :: 0 <= i < |EdgeBfsSpec(g, root)| ==>
      var e := EdgeBfsSpec(g, root)[|EdgeBfsSpec(g, root)| - 1 - i];
      Block(g, elements, edgesByType, root).value[i].consumer == e.tgt &&
      Block(g, elements, edgesByType, root).value[i].producer == e.src
  {
    StepsShape(g, elements, edgesByType, Reversed(EdgeBfsSpec(g, root)));
  }

  /** The combined length of the edge-BFS lists of `roots`. */
  function BfsLengths(g: Graph, roots: seq<Node>): nat
    requires Closed(g)
    decreases |roots|
  {
    if roots == [] then 0
    else (if roots[0] in g.out then |EdgeBfsSpec(g, roots[0])| else 0) + BfsLengths(g, roots[1..])
  }

  /** The blocks follow the roots in order, and the output has one triple
      per (root, edge of that root's edge-BFS list). */
  lemma {:induction false} BlocksShape(g: Graph, elements: map<Node, Record>, edgesByType: map<string, seq<Edge>>, roots: seq<Node>)
    requires Closed(g) && forall i :: 0 <= i < |roots| ==> roots[i] in g.out
    requires Blocks(g, elements, edgesByType, roots).Success?
    ensures |Blocks(g, elements, edgesByType, roots).value| == BfsLengths(g, roots)
    ensures roots != [] ==>
      Block(g, elements, edgesByType, roots[0]).Success? &&
      Blocks(g, elements, edgesByType, roots).value[..|Block(g, elements, edgesByType, roots[0]).value|] ==
        Block(g, elements, edgesByType, roots[0]).value
    decreases |roots|
  {
    if roots != [] {
      BlocksShape(g, elements, edgesByType, roots[1..]);
      BlockShape(g, elements, edgesByType, roots[0]);
    }
  }

  /** The output's length is the sum of the roots' edge-BFS list lengths. */
  lemma ExecutionOrderLength(g: Graph, elements: map<Node, Record>, edgesByType: map<string, seq<Edge>>)
    requires Valid(g)
    requires ExecutionOrder(g, elements, edgesByType).Success?
    ensures |ExecutionOrder(g, elements, edgesByType).value| == BfsLengths(g, Roots(g))
  {
    RootsInGraph(g);
    BlocksShape(g, elements, edgesByType, Roots(g));
  }

  /** A graph in which every node has an incoming edge has no roots and
      yields the empty list. */
  lemma NoRootsNoSteps(g: Graph, elements: map<Node, Record>, edgesByType: map<string, seq<Edge>>)
    requires Valid(g)
    requires forall i :: 0 <= i < |g.nodes| ==> exists e :: e in AllEdges(g) && e.tgt == g.nodes[i]
    ensures Roots(g) == []
    ensures ExecutionOrder(g, elements, edgesByType) == Success([])
  {
    forall i | 0 <= i < |g.nodes| ensures InDegree(g, g.nodes[i]) > 0 {
      var e :| e in AllEdges(g) && e.tgt == g.nodes[i];
      var k :| 0 <= k < |AllEdges(g)| && AllEdges(g)[k] == e;
      CountIntoPositive(AllEdges(g), g.nodes[i], k);
    }
    NoRootsOf(g, g.nodes);
  }
  /** The chain `a -> b -> c`. */
  function Chain(): Graph {
    Graph(["a", "b", "c"], map["a" := [Edge("a", "b", "x")], "b" := [Edge("b", "c", "x")], "c" := []])
  }

  /** Three features under one context. */
  function ChainElements(): map<Node, Record> {
    var feature := map["@type" := Str("Feature"), "featuringType" := Coll(ListKind, [Ref(Str("ctx"))])];
    map["a" := feature, "b" := feature, "c" := feature]
  }

  lemma ChainValid()
    ensures Valid(Chain())
  {
    var g := Chain();
    assert forall n :: n in g.out <==> n in g.nodes;
  }

  /** Only `a` has no incoming edge. */
  lemma ChainRoots()
    ensures Roots(Chain()) == ["a"]
  {
    var g := Chain();
    assert AllEdges(g) == [Edge("a", "b", "x"), Edge("b", "c", "x")];
    assert InDegree(g, "a") == 0 && InDegree(g, "b") == 1 && InDegree(g, "c") == 1;
  }

  lemma ChainClosed()
    ensures Closed(Chain())
  {
  }

  /** The search from `c`, with everything visited, stops there. */
  lemma ChainBfsC()
    ensures Closed(Chain()) && BfsFrom(Chain(), ["c"], {"a", "b", "c"}) == ["c"]
  {
    var g := Chain();
    ChainClosed();
    assert Fresh(g.out["c"], {"a", "b", "c"}) == [];
    BfsStep(g, ["c"], {"a", "b", "c"});
    assert Elems([]) == {};
  }

  /** The search from `b` discovers `c`. */
  lemma ChainBfsB()
    ensures Closed(Chain()) && BfsFrom(Chain(), ["b"], {"a", "b"}) == ["b", "c"]
  {
    var g := Chain();
    ChainClosed();
    assert Fresh(g.out["b"], {"a", "b"}) == ["c"];
    BfsStep(g, ["b"], {"a", "b"});
    assert Elems(["c"]) == {"c"};
    assert ["b"][1..] + ["c"] == ["c"] && {"a", "b"} + {"c"} == {"a", "b", "c"};
    ChainBfsC();
  }

  /** The search from `a` dequeues the chain in order. */
  lemma ChainBfsA()
    ensures Closed(Chain()) && BfsFrom(Chain(), ["a"], {"a"}) == ["a", "b", "c"]
  {
    var g := Chain();
    ChainClosed();
    assert Fresh(g.out["a"], {"a"}) == ["b"];
    BfsStep(g, ["a"], {"a"});
    assert Elems(["b"]) == {"b"};
    assert ["a"][1..] + ["b"] == ["b"] && {"a"} + {"b"} == {"a", "b"};
    ChainBfsB();
  }

  /** The edge-BFS list from `a` follows the chain. */
  lemma ChainBfs()
    ensures Closed(Chain()) && "a" in Chain().out
    ensures EdgeBfsSpec(Chain(), "a") == [Edge("a", "b", "x"), Edge("b", "c", "x")]
  {
    ChainBfsA();
    ChainOutEdges();
  }

  lemma ChainOutEdges()
    ensures OutEdgesOf(Chain(), ["a", "b", "c"]) == [Edge("a", "b", "x"), Edge("b", "c", "x")]
  {
    var g := Chain();
    OutEdgesOfCons(g, "a", ["b", "c"]);
    OutEdgesOfCons(g, "b", ["c"]);
    OutEdgesOfCons(g, "c", []);
    assert ["a", "b", "c"] == ["a"] + ["b", "c"] && ["b", "c"] == ["b"] + ["c"] && ["c"] == ["c"] + [];
  }

  /** Both chain edges join two features. */
  lemma ChainSteps()
    ensures StepsOf(Chain(), ChainElements(), map[], [Edge("b", "c", "x"), Edge("a", "b", "x")]) ==
      Success([Step("c", "b", Assignment), Step("b", "a", Assignment)])
  {
    var g, elements := Chain(), ChainElements();
    assert Classify(g, elements, map[], Edge("b", "c", "x")) == Success(Assignment);
    assert Classify(g, elements, map[], Edge("a", "b", "x")) == Success(Assignment);
    var es := [Edge("b", "c", "x"), Edge("a", "b", "x")];
    var s1, s2 := Step("c", "b", Assignment), Step("b", "a", Assignment);
    assert es[1..][1..] == [] && [s2] + [] == [s2] && [s1] + [s2] == [s1, s2];
    assert StepsOf(g, elements, map[], es[1..][1..]) == Success([]);
    assert StepsOf(g, elements, map[], es[1..]) == Success([s2]);
  }

  /** The block of root `a`. */
  lemma ChainBlock()
    ensures Closed(Chain()) && "a" in Chain().out
    ensures Block(Chain(), ChainElements(), map[], "a") == Success([Step("c", "b", Assignment), Step("b", "a", Assignment)])
  {
    ChainBfs();
    var bfs := EdgeBfsSpec(Chain(), "a");
    assert Reversed(bfs) == [Edge("b", "c", "x"), Edge("a", "b", "x")];
    assert Context(ChainElements(), "a") == Success(Str("ctx"));
    ChainSteps();
  }

  /** A chain `a -> b -> c` of features under one context: the single root
      `a` gives two triples, the later dependency first, each naming its
      consumer before its producer. */
  lemma ChainExample()
    ensures Valid(Chain())
    ensures ExecutionOrder(Chain(), ChainElements(), map[]) ==
      Success([Step("c", "b", Assignment), Step("b", "a", Assignment)])
  {
    ChainValid();
    ChainRoots();
    ChainBlock();
    var x := [Step("c", "b", Assignment), Step("b", "a", Assignment)];
    assert ["a"][1..] == [];
    assert x + [] == x;
  }
}
