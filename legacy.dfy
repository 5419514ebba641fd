/**
 * The first generation of the library, kept at the repository root:
 * graph.c's graph, whose vertices hold linked adjacency lists, and from
 * topologies.c the compaction pass, the bounds of a connection loop and
 * the module lookup.
 *
 * A node_t pointer is the index of its vertex and NULL is -1.  A vertex's
 * adjacency list is the sequence of its neighbours' indices, head first, so
 * graph_add_edge_ptr prepends.  error() ends the process; the model reports
 * that as an outcome (Exit, WalkExit, WhomExit, TooMany) instead.
 */
module Legacy {
  import opened Basics
  import GraphStore
  import Defs
  import Expansion

  /** node_type of defs.h. */
  datatype NodeType = NodeNode | NodeGate | NodeGateVisited

  /** node_t: its name, its own index n, its adjacency list (head first) and its type. */
  datatype Vertex = Vertex(name: string, n: int, adj: seq<int>, typ: NodeType)

  const GRAPH_BLK_SIZE := 32
  const NULL := -1

  /** Every cell of xs points at a vertex of ns. */
  predicate Targets(ns: seq<Vertex>, xs: seq<int>)
  {
    forall k :: 0 <= k < |xs| ==> 0 <= xs[k] < |ns|
  }

  /** Every vertex knows its own index and every list cell points at a vertex of the graph. */
  predicate WellFormed(ns: seq<Vertex>)
  {
    forall i :: 0 <= i < |ns| ==> ns[i].n == i && Targets(ns, ns[i].adj)
  }

  /** Every cell has its mirror: j occurs in i's list exactly as often as i occurs in j's. */
  ghost predicate Symmetric(ns: seq<Vertex>)
  {
    forall i, j :: 0 <= i < |ns| && 0 <= j < |ns| ==> multiset(ns[i].adj)[j] == multiset(ns[j].adj)[i]
  }

  function NamesOf(ns: seq<Vertex>): (r: seq<string>)
    ensures |r| == |ns| && forall i :: 0 <= i < |ns| ==> r[i] == ns[i].name
  {
    seq(|ns|, i requires 0 <= i < |ns| => ns[i].name)
  }

  /** The lowest index holding x, or -1: what graph_find_node and find_module look for. */
  function FirstIndex(xs: seq<string>, x: string): (r: int)
    ensures -1 <= r < |xs|
    ensures r >= 0 ==> xs[r] == x && forall k :: 0 <= k < r ==> xs[k] != x
    ensures r == -1 ==> forall k :: 0 <= k < |xs| ==> xs[k] != x
  {
    if |xs| == 0 then -1
    else
      var r := FirstIndex(xs[..|xs| - 1], x);
      if r >= 0 then r else if xs[|xs| - 1] == x then |xs| - 1 else -1
  }

  // ----- graph.c -----

  /** graph_add_edge_ptr on two vertices: a cell for b at the head of a's list, then one for a at the head of b's. */
  function Link(ns: seq<Vertex>, a: int, b: int): seq<Vertex>
    requires 0 <= a < |ns| && 0 <= b < |ns|
  {
    var ns1 := ns[a := ns[a].(adj := [b] + ns[a].adj)];
    ns1[b := ns1[b].(adj := [a] + ns1[b].adj)]
  }

  /** Linking changes nothing but the two lists, each of which gains one cell at its head (a loop a–a gains two). */
  lemma LinkShape(ns: seq<Vertex>, a: int, b: int)
    requires WellFormed(ns) && 0 <= a < |ns| && 0 <= b < |ns|
    ensures var r := Link(ns, a, b);
      |r| == |ns| && WellFormed(r) &&
      (forall i :: 0 <= i < |ns| ==> r[i].name == ns[i].name && r[i].n == ns[i].n && r[i].typ == ns[i].typ) &&
      (forall i :: 0 <= i < |ns| && i != a && i != b ==> r[i].adj == ns[i].adj) &&
      (a != b ==> r[a].adj == [b] + ns[a].adj && r[b].adj == [a] + ns[b].adj) &&
      (a == b ==> r[a].adj == [a, a] + ns[a].adj)
  {
  }

  lemma PrependCount(x: int, xs: seq<int>)
    ensures forall j :: multiset([x] + xs)[j] == multiset(xs)[j] + (if j == x then 1 else 0)
  {
  }

  /** Linking adds one cell to a's count of b and one to b's count of a. */
  lemma LinkCounts(ns: seq<Vertex>, a: int, b: int, i: int)
    requires WellFormed(ns) && 0 <= a < |ns| && 0 <= b < |ns| && 0 <= i < |ns|
    ensures forall j :: (multiset(Link(ns, a, b)[i].adj)[j] ==
      multiset(ns[i].adj)[j] + (if i == a && j == b then 1 else 0) + (if i == b && j == a then 1 else 0))
  {
    var r := Link(ns, a, b);
    LinkShape(ns, a, b);
    if i == a && a == b {
      PrependCount(a, ns[i].adj);
      PrependCount(a, [a] + ns[i].adj);
      assert r[i].adj == [a] + ([a] + ns[i].adj);
    } else if i == a {
      PrependCount(b, ns[i].adj);
    } else if i == b {
      PrependCount(a, ns[i].adj);
    }
  }

  /** Each of the two new cells is the other's mirror, so a symmetric graph stays symmetric. */
  lemma LinkSymmetric(ns: seq<Vertex>, a: int, b: int)
    requires WellFormed(ns) && Symmetric(ns) && 0 <= a < |ns| && 0 <= b < |ns|
    ensures Symmetric(Link(ns, a, b))
  {
    var r := Link(ns, a, b);
    forall i, j | 0 <= i < |ns| && 0 <= j < |ns|
      ensures multiset(r[i].adj)[j] == multiset(r[j].adj)[i]
    {
      LinkCounts(ns, a, b, i);
      LinkCounts(ns, a, b, j);
    }
  }

  /** A vertex appended with an empty list keeps the graph well formed and symmetric. */
  lemma AppendKeepsGraph(ns: seq<Vertex>, v: Vertex)
    requires WellFormed(ns) && Symmetric(ns) && v.n == |ns| && v.adj == []
    ensures WellFormed(ns + [v]) && Symmetric(ns + [v])
  {
    var r := ns + [v];
    forall i | 0 <= i < |ns|
      ensures multiset(r[i].adj)[|ns|] == 0
    {
      assert |ns| !in ns[i].adj;
    }
  }

  /** graph_t: the vertex array with its capacity. */
  class Graph {
    var nodes: seq<Vertex>
    var capNodes: int

    ghost predicate Valid()
      reads this
    {
      WellFormed(nodes) && Symmetric(nodes) && |nodes| <= capNodes && capNodes % GRAPH_BLK_SIZE == 0
    }

    /** graph_create: no vertices and room for one block. */
    constructor ()
      ensures Valid() && nodes == [] && capNodes == GRAPH_BLK_SIZE
    {
      nodes := [];
      capNodes := GRAPH_BLK_SIZE;
    }

    /** graph_add_node: a vertex at index n_nodes with an empty list; a full array grows by one block. */
    method AddNode(name: string, typ: NodeType) returns (i: int)
      requires Valid()
      modifies this
      ensures Valid()
      ensures i == |old(nodes)| && nodes == old(nodes) + [Vertex(name, i, [], typ)]
      ensures capNodes == if |old(nodes)| == old(capNodes) then old(capNodes) + GRAPH_BLK_SIZE else old(capNodes)
    {
      i := |nodes|;
      if |nodes| == capNodes {
        capNodes := capNodes + GRAPH_BLK_SIZE;
      }
      AppendKeepsGraph(nodes, Vertex(name, i, [], typ));
      nodes := nodes + [Vertex(name, i, [], typ)];
    }

    /** graph_find_node: the first vertex with the name, or NULL. */
    method FindNode(name: string) returns (r: int)
      requires Valid()
      ensures r == FirstIndex(NamesOf(nodes), name)
    {
      var i := 0;
      while i < |nodes|
        invariant 0 <= i <= |nodes|
        invariant forall k :: 0 <= k < i ==> nodes[k].name != name
      {
        if nodes[i].name == name {
          return i;
        }
        i := i + 1;
      }
      return NULL;
    }

    /** graph_add_edge_ptr: -1 for a NULL end, otherwise 0 and a cell at the head of each end's list. */
    method AddEdgePtr(a: int, b: int) returns (res: int)
      requires Valid() && -1 <= a < |nodes| && -1 <= b < |nodes|
      modifies this
      ensures Valid() && capNodes == old(capNodes)
      ensures a == NULL || b == NULL ==> res == -1 && nodes == old(nodes)
      ensures a != NULL && b != NULL ==> res == 0 && nodes == Link(old(nodes), a, b)
    {
      if a == NULL || b == NULL {
        return -1;
      }
      LinkShape(nodes, a, b);
      LinkSymmetric(nodes, a, b);
      nodes := nodes[a := nodes[a].(adj := [b] + nodes[a].adj)];
      nodes := nodes[b := nodes[b].(adj := [a] + nodes[b].adj)];
      return 0;
    }

    /** graph_add_edge_name: -1 when either name is unknown, otherwise graph_add_edge_ptr on the first vertices with those names. */
    method AddEdgeName(x: string, y: string) returns (res: int)
      requires Valid()
      modifies this
      ensures Valid() && capNodes == old(capNodes)
      ensures var a, b := FirstIndex(NamesOf(old(nodes)), x), FirstIndex(NamesOf(old(nodes)), y);
        (res == -1 <==> a == NULL || b == NULL) &&
        (res == -1 ==> nodes == old(nodes)) &&
        (res != -1 ==> res == 0 && nodes == Link(old(nodes), a, b))
    {
      var a := FindNode(x);
      var b := FindNode(y);
      if a == NULL {
        return -1;
      }
      if b == NULL {
        return -1;
      }
      res := AddEdgePtr(a, b);
    }

    /** graph_print, with the stream's contents returned: the shown vertices' lines, then every edge line. */
    method Print(printGates: bool) returns (text: string)
      requires Valid()
      ensures text == Dot(nodes, printGates)
    {
      var vs := VertexText(nodes, printGates);
      var es := "";
      var i := 0;
      while i < |nodes|
        invariant 0 <= i <= |nodes|
        invariant es == GraphStore.Lines(ShownEdges(nodes, i), EdgeLineOf)
      {
        var row := RowLines(nodes, i);
        GraphStore.LinesConcat(ShownEdges(nodes, i), ShownRow(nodes, i, |nodes[i].adj|), EdgeLineOf);
        es := es + row;
        i := i + 1;
      }
      text := GraphStore.DotHeader + vs + es + GraphStore.DotFooter;
    }

    // ----- compaction, topologies.c -----

    /** graph_gate_neighbors: walks x's list, keeping the first two cells and exiting on a third. */
    method GateNeighbours(x: int) returns (r: Pair)
      requires Valid() && 0 <= x < |nodes|
      ensures r == Neighbours(nodes, x)
    {
      var l := nodes[x].adj;
      var a, b := NULL, NULL;
      var k := 0;
      while k < |l|
        invariant 0 <= k <= |l| && k <= 2
        invariant a == (if k >= 1 then l[0] else NULL) && b == (if k >= 2 then l[1] else NULL)
      {
        if a == NULL {
          a := l[k];
        } else if b == NULL {
          b := l[k];
        } else {
          return TooMany;
        }
        k := k + 1;
      }
      return Pair(a, b);
    }

    /** graph_traverse_gate_neighbors (with the corrected loop guard of WalkFrom): marks the gates it passes. */
    method TraverseGateNeighbours(gate: int, start: int) returns (exited: bool, r: int)
      requires Valid() && 0 <= gate < |nodes| && -1 <= start < |nodes|
      modifies this
      ensures var w := Traverse(old(nodes), gate, start);
        (exited <==> w.WalkExit?) && (!exited ==> Valid() && capNodes == old(capNodes) && nodes == w.ns && r == w.end)
    {
      exited, r := false, start;
      if start == NULL {
        return;
      }
      var prev := gate;
      ghost var goal := WalkFrom(nodes, prev, r);
      var stop := false;
      while !stop && nodes[r].typ == NodeGate
        invariant Valid() && capNodes == old(capNodes) && |nodes| == |old(nodes)|
        invariant 0 <= prev < |nodes| && 0 <= r < |nodes|
        invariant !stop ==> goal == WalkFrom(nodes, prev, r)
        invariant stop ==> goal == Ended(nodes, r)
        decreases GateCount(nodes), !stop
      {
        MarkKeepsGraph(nodes, r);
        MarkCount(nodes, r);
        nodes := nodes[r := nodes[r].(typ := NodeGateVisited)];
        var p := GateNeighbours(r);
        if p.TooMany? {
          return true, r;
        }
        if p.first == NULL || p.second == NULL {
          stop := true;
        } else if p.first != prev {
          prev, r := r, p.first;
        } else {
          prev, r := r, p.second;
        }
      }
    }

    /** graph_gate_connects_whom: marks the gate, then walks from each of its two neighbours. */
    method GateConnectsWhom(gate: int) returns (exited: bool, n1: int, n2: int)
      requires Valid() && 0 <= gate < |nodes| && nodes[gate].typ == NodeGate
      modifies this
      ensures var w := ConnectsWhom(old(nodes), gate);
        (exited <==> w.WhomExit?) &&
        (!exited ==> Valid() && capNodes == old(capNodes) && nodes == w.ns && n1 == w.first && n2 == w.second)
    {
      n1, n2 := NULL, NULL;
      MarkKeepsGraph(nodes, gate);
      nodes := nodes[gate := nodes[gate].(typ := NodeGateVisited)];
      var p := GateNeighbours(gate);
      if p.TooMany? {
        return true, n1, n2;
      }
      exited, n1 := TraverseGateNeighbours(gate, p.first);
      if exited {
        return;
      }
      exited, n2 := TraverseGateNeighbours(gate, p.second);
    }

    /** One turn of the first loop of topologies_graph_compact, for a gate i. */
    method JoinGate(i: int) returns (exited: bool)
      requires Valid() && 0 <= i < |nodes| && nodes[i].typ == NodeGate
      modifies this
      ensures var c := JoinTurn(old(nodes), i);
        (exited <==> c.Exit?) && (!exited ==> Valid() && capNodes == old(capNodes) && nodes == c.ns)
    {
      ghost var w := ConnectsWhom(nodes, i);
      var n1, n2;
      exited, n1, n2 := GateConnectsWhom(i);
      if exited {
        return;
      }
      if n1 != NULL && n2 != NULL && nodes[n1].n > nodes[n2].n {
        var _ := AddEdgePtr(n1, n2);
        assert JoinTurn(old(nodes), i) == Done(Link(w.ns, n1, n2));
      } else {
        assert JoinTurn(old(nodes), i) == Done(w.ns);
      }
    }

    /**
     * topologies_graph_compact: joins the ends of every gate chain, then
     * empties every non-entity's list and unlinks the cells of entity lists
     * that point at non-entities.
     */
    method Compact() returns (exited: bool)
      requires Valid()
      modifies this
      ensures var c := Compacted(old(nodes)); (exited <==> c.Exit?) && (!exited ==> Valid() && nodes == c.ns)
    {
      ghost var goal := JoinFrom(nodes, 0);
      var i := 0;
      while i < |nodes|
        invariant Valid() && 0 <= i <= |nodes| && |nodes| == |old(nodes)|
        invariant JoinFrom(nodes, i) == goal
      {
        if nodes[i].typ == NodeGate {
          ghost var ns := nodes;
          exited := JoinGate(i);
          if exited {
            assert JoinFrom(ns, i) == Exit;
            return;
          }
          assert JoinFrom(ns, i) == JoinFrom(nodes, i + 1);
        }
        i := i + 1;
      }
      exited := false;
      DisconnectGates();
    }

    /** The second loop of topologies_graph_compact: empties non-entity lists and unlinks entity cells pointing at non-entities. */
    method DisconnectGates()
      requires Valid()
      modifies this
      ensures Valid() && nodes == Strip(old(nodes))
    {
      var ms := nodes;
      StripKeepsGraph(ms);
      var i := 0;
      while i < |ms|
        invariant 0 <= i <= |ms| && |nodes| == |ms| && capNodes == old(capNodes)
        invariant forall k :: 0 <= k < i ==> nodes[k] == Strip(ms)[k]
        invariant forall k :: i <= k < |ms| ==> nodes[k] == ms[k]
      {
        if ms[i].typ != NodeNode {
          nodes := nodes[i := ms[i].(adj := [])];
        } else {
          var kept := KeepEntities(ms, ms[i].adj);
          nodes := nodes[i := ms[i].(adj := kept)];
        }
        i := i + 1;
      }
      assert nodes == Strip(ms);
    }
  }

  /** The fprintf of one vertex line. */
  method EmitVertex(i: int, name: string) returns (out: string)
    ensures out == VertexLineOf((i, name))
  {
    out := VertexLine(i, name);
  }

  /** The fprintf of one edge line. */
  method EmitEdge(i: int, j: int) returns (out: string)
    ensures out == EdgeLineOf((i, j))
  {
    out := EdgeLine(i, j);
  }

  /** The first loop of graph_print: a line for each shown vertex. */
  method VertexText(ns: seq<Vertex>, printGates: bool) returns (vs: string)
    ensures vs == GraphStore.Lines(ShownVertices(ns, printGates, |ns|), VertexLineOf)
  {
    vs := "";
    var i := 0;
    while i < |ns|
      invariant 0 <= i <= |ns|
      invariant vs == GraphStore.Lines(ShownVertices(ns, printGates, i), VertexLineOf)
    {
      var line := VertexTurn(ns, printGates, i);
      VertexLinesNext(ns, printGates, i);
      vs := vs + line;
      i := i + 1;
    }
  }

  /** Vertex i's line when graph_print lists it, else nothing. */
  function ShownVertexLine(ns: seq<Vertex>, printGates: bool, i: nat): string
    requires i < |ns|
  {
    if ns[i].typ == NodeNode || printGates then VertexLineOf((i, ns[i].name)) else ""
  }

  /** One turn of the first loop of graph_print. */
  method VertexTurn(ns: seq<Vertex>, printGates: bool, i: nat) returns (line: string)
    requires i < |ns|
    ensures line == ShownVertexLine(ns, printGates, i)
  {
    line := "";
    if ns[i].typ == NodeNode || printGates {
      line := EmitVertex(i, ns[i].name);
    }
  }

  lemma VertexLinesNext(ns: seq<Vertex>, printGates: bool, i: nat)
    requires i < |ns|
    ensures GraphStore.Lines(ShownVertices(ns, printGates, i + 1), VertexLineOf) ==
      GraphStore.Lines(ShownVertices(ns, printGates, i), VertexLineOf) + ShownVertexLine(ns, printGates, i)
  {
    if ns[i].typ == NodeNode || printGates {
      GraphStore.LinesSnoc(ShownVertices(ns, printGates, i), (i, ns[i].name), VertexLineOf);
    } else {
      assert ShownVertices(ns, printGates, i + 1) == ShownVertices(ns, printGates, i);
    }
  }

  lemma RowStep(ns: seq<Vertex>, i: int, k: nat)
    requires WellFormed(ns) && 0 <= i < |ns| && k < |ns[i].adj|
    ensures ShownRow(ns, i, k + 1) ==
      ShownRow(ns, i, k) + (if i < ns[i].adj[k] then [(i, ns[i].adj[k])] else [])
  {
  }

  /** The inner loop of graph_print's edge pass: walks i's list and writes a line for each cell with a larger index. */
  method RowLines(ns: seq<Vertex>, i: int) returns (es: string)
    requires WellFormed(ns) && 0 <= i < |ns|
    ensures es == GraphStore.Lines(ShownRow(ns, i, |ns[i].adj|), EdgeLineOf)
  {
    var l := ns[i].adj;
    es := "";
    var k := 0;
    while k < |l|
      invariant 0 <= k <= |l|
      invariant es == GraphStore.Lines(ShownRow(ns, i, k), EdgeLineOf)
    {
      var t := l[k];
      RowLinesStep(ns, i, k);
      if i < ns[t].n {
        var line := EmitEdge(i, ns[t].n);
        es := es + line;
      }
      k := k + 1;
    }
  }

  lemma RowLinesStep(ns: seq<Vertex>, i: int, k: nat)
    requires WellFormed(ns) && 0 <= i < |ns| && k < |ns[i].adj|
    ensures var t := ns[i].adj[k];
      GraphStore.Lines(ShownRow(ns, i, k + 1), EdgeLineOf) ==
      GraphStore.Lines(ShownRow(ns, i, k), EdgeLineOf) + (if i < ns[t].n then EdgeLineOf((i, ns[t].n)) else "")
  {
    var t := ns[i].adj[k];
    RowStep(ns, i, k);
    if i < t {
      GraphStore.LinesSnoc(ShownRow(ns, i, k), (i, t), EdgeLineOf);
    } else {
      assert ShownRow(ns, i, k + 1) == ShownRow(ns, i, k);
    }
  }

  /** The unlinking loop of the second phase: walks the list and drops every cell pointing at a non-entity. */
  method KeepEntities(ns: seq<Vertex>, l: seq<int>) returns (kept: seq<int>)
    requires Targets(ns, l)
    ensures kept == Entities(ns, l)
  {
    kept := [];
    var k := 0;
    while k < |l|
      invariant 0 <= k <= |l|
      invariant kept == Entities(ns, l[..k])
    {
      assert l[..k + 1][..k] == l[..k];
      if ns[l[k]].typ == NodeNode {
        kept := kept + [l[k]];
      }
      k := k + 1;
    }
    assert l[..k] == l;
  }

  // ----- graph_print -----

  function VertexLine(i: int, name: string): string
  {
    "n" + Decimal(i) + " [label=\"" + name + "\"];\n"
  }

  function EdgeLine(i: int, j: int): string
  {
    "n" + Decimal(i) + " -- n" + Decimal(j) + ";\n"
  }

  function VertexLineOf(p: (int, string)): string { VertexLine(p.0, p.1) }

  function EdgeLineOf(e: (int, int)): string { EdgeLine(e.0, e.1) }

  /** The vertices among the first m that graph_print lists: entities, and every vertex when gates are printed. */
  function ShownVertices(ns: seq<Vertex>, printGates: bool, m: nat): seq<(int, string)>
    requires m <= |ns|
  {
    if m == 0 then []
    else ShownVertices(ns, printGates, m - 1) + (if ns[m - 1].typ == NodeNode || printGates then [(m - 1, ns[m - 1].name)] else [])
  }

  /** The edge lines of the first k cells of i's list: one per cell whose vertex has a larger index. */
  function ShownRow(ns: seq<Vertex>, i: int, k: nat): seq<(int, int)>
    requires WellFormed(ns) && 0 <= i < |ns| && k <= |ns[i].adj|
  {
    if k == 0 then []
    else ShownRow(ns, i, k - 1) + (var t := ns[i].adj[k - 1]; if i < ns[t].n then [(i, ns[t].n)] else [])
  }

  function ShownEdges(ns: seq<Vertex>, m: nat): seq<(int, int)>
    requires WellFormed(ns) && m <= |ns|
  {
    if m == 0 then [] else ShownEdges(ns, m - 1) + ShownRow(ns, m - 1, |ns[m - 1].adj|)
  }

  /** The whole text graph_print writes. */
  function Dot(ns: seq<Vertex>, printGates: bool): string
    requires WellFormed(ns)
  {
    GraphStore.DotHeader + GraphStore.Lines(ShownVertices(ns, printGates, |ns|), VertexLineOf) +
    GraphStore.Lines(ShownEdges(ns, |ns|), EdgeLineOf) + GraphStore.DotFooter
  }

  /** graph_print lists vertex i exactly when it is an entity or gates are printed. */
  lemma {:induction false} ShownVerticesExact(ns: seq<Vertex>, printGates: bool, m: nat)
    requires m <= |ns|
    ensures forall i, s :: (i, s) in ShownVertices(ns, printGates, m) <==>
      (0 <= i < m && s == ns[i].name && (ns[i].typ == NodeNode || printGates))
  {
    if m > 0 {
      ShownVerticesExact(ns, printGates, m - 1);
    }
  }

  lemma {:induction false} ShownRowExact(ns: seq<Vertex>, i: int, k: nat)
    requires WellFormed(ns) && 0 <= i < |ns| && k <= |ns[i].adj|
    ensures forall a, b :: (a, b) in ShownRow(ns, i, k) <==> (a == i && b in ns[i].adj[..k] && i < b)
  {
    if k > 0 {
      ShownRowExact(ns, i, k - 1);
      assert ns[i].adj[..k] == ns[i].adj[..k - 1] + [ns[i].adj[k - 1]];
    }
  }

  /**
   * graph_print writes the line i -- j exactly for the cells j of i's list
   * with i < j, whatever the types: an edge to a hidden gate is printed too.
   */
  lemma {:induction false} ShownEdgesExact(ns: seq<Vertex>, m: nat)
    requires WellFormed(ns) && m <= |ns|
    ensures forall i, j :: (i, j) in ShownEdges(ns, m) <==> (0 <= i < m && j in ns[i].adj && i < j)
  {
    if m > 0 {
      ShownEdgesExact(ns, m - 1);
      ShownRowExact(ns, m - 1, |ns[m - 1].adj|);
      assert ns[m - 1].adj[..|ns[m - 1].adj|] == ns[m - 1].adj;
    }
  }

  // ----- compaction: the walk along a gate chain -----

  /** Marking a vertex visited: NODE_GATE_VISITED written into its type. */
  function Mark(ns: seq<Vertex>, x: int): seq<Vertex>
    requires 0 <= x < |ns|
  {
    ns[x := ns[x].(typ := NodeGateVisited)]
  }

  /** The number of gates not yet visited. */
  function GateCount(ns: seq<Vertex>): nat
  {
    if |ns| == 0 then 0 else GateCount(ns[..|ns| - 1]) + (if ns[|ns| - 1].typ == NodeGate then 1 else 0)
  }

  lemma {:induction false} MarkCount(ns: seq<Vertex>, x: int)
    requires 0 <= x < |ns|
    ensures GateCount(Mark(ns, x)) == GateCount(ns) - (if ns[x].typ == NodeGate then 1 else 0)
    decreases |ns|
  {
    var ms := Mark(ns, x);
    if x < |ns| - 1 {
      assert ms[..|ms| - 1] == Mark(ns[..|ns| - 1], x);
      MarkCount(ns[..|ns| - 1], x);
    } else {
      assert ms[..|ms| - 1] == ns[..|ns| - 1];
    }
  }

  lemma MarkKeepsGraph(ns: seq<Vertex>, x: int)
    requires WellFormed(ns) && Symmetric(ns) && 0 <= x < |ns|
    ensures WellFormed(Mark(ns, x)) && Symmetric(Mark(ns, x))
  {
  }

  /** ms is ns with some gates marked visited and nothing else changed. */
  predicate Marks(ns: seq<Vertex>, ms: seq<Vertex>)
  {
    |ms| == |ns| &&
    forall i :: 0 <= i < |ns| ==>
      ms[i].name == ns[i].name && ms[i].n == ns[i].n && ms[i].adj == ns[i].adj &&
      (ms[i].typ == ns[i].typ || (ns[i].typ == NodeGate && ms[i].typ == NodeGateVisited))
  }

  lemma MarkMarks(ns: seq<Vertex>, x: int)
    requires 0 <= x < |ns| && ns[x].typ != NodeNode
    ensures Marks(ns, Mark(ns, x))
  {
  }

  lemma MarksTrans(a: seq<Vertex>, b: seq<Vertex>, c: seq<Vertex>)
    requires Marks(a, b) && Marks(b, c)
    ensures Marks(a, c)
  {
  }

  /** What graph_gate_neighbors reports: the first two cells, or the exit on a third. */
  datatype Pair = Pair(first: int, second: int) | TooMany

  /** graph_gate_neighbors: the first two cells of x's list, NULL where it is shorter; a third cell ends the process. */
  function Neighbours(ns: seq<Vertex>, x: int): (r: Pair)
    requires WellFormed(ns) && 0 <= x < |ns|
    ensures r.TooMany? <==> |ns[x].adj| > 2
    ensures r.Pair? ==> -1 <= r.first < |ns| && -1 <= r.second < |ns|
    ensures r.Pair? ==> (r.first == NULL <==> |ns[x].adj| == 0) && (r.second == NULL <==> |ns[x].adj| <= 1)
    ensures r.Pair? && r.first != NULL ==> r.first == ns[x].adj[0] && (r.second != NULL ==> ns[x].adj == [r.first, r.second])
  {
    var l := ns[x].adj;
    if |l| > 2 then TooMany else Pair(if |l| >= 1 then l[0] else NULL, if |l| == 2 then l[1] else NULL)
  }

  /** Where a walk ends: the graph with its marks and the end vertex, or the exit, or (as written only) no end. */
  datatype Walk = Ended(ns: seq<Vertex>, end: int) | WalkExit | Unfinished

  /**
   * graph_traverse_gate_neighbors from cur, having come from prev, with the
   * loop guard `type == NODE_GATE`: marks each gate it passes, moves to the
   * neighbour that is not prev, and stops at the first vertex that is not an
   * unvisited gate, or at a gate with fewer than two neighbours.  It always
   * ends, and its end is never an unvisited gate.
   */
  function WalkFrom(ns: seq<Vertex>, prev: int, cur: int): (r: Walk)
    requires WellFormed(ns) && 0 <= prev < |ns| && 0 <= cur < |ns|
    ensures r.Ended? || r.WalkExit?
    ensures r.Ended? ==> Marks(ns, r.ns) && WellFormed(r.ns) && 0 <= r.end < |ns| && r.ns[r.end].typ != NodeGate
    ensures r.Ended? && r.ns[r.end].typ == NodeNode ==> ns[r.end].typ == NodeNode
    decreases GateCount(ns)
  {
    if ns[cur].typ != NodeGate then Ended(ns, cur)
    else
      MarkCount(ns, cur);
      MarkMarks(ns, cur);
      var ms := Mark(ns, cur);
      match Neighbours(ms, cur)
      case TooMany => WalkExit
      case Pair(ta, tb) =>
        if ta == NULL || tb == NULL then Ended(ms, cur)
        else
          var r := WalkFrom(ms, cur, if ta != prev then ta else tb);
          if r.Ended? then MarksTrans(ns, ms, r.ns); r else r
  }

  /** The walk from a gate's neighbour: a NULL neighbour is its own end. */
  function Traverse(ns: seq<Vertex>, gate: int, start: int): (r: Walk)
    requires WellFormed(ns) && 0 <= gate < |ns| && -1 <= start < |ns|
    ensures r.Ended? || r.WalkExit?
    ensures r.Ended? ==> Marks(ns, r.ns) && WellFormed(r.ns) && -1 <= r.end < |ns|
    ensures r.Ended? && r.end != NULL ==> r.ns[r.end].typ != NodeGate
  {
    if start == NULL then Ended(ns, NULL) else WalkFrom(ns, gate, start)
  }

  /**
   * graph_traverse_gate_neighbors as written: the loop runs while the
   * vertex is not an entity, so it walks on through gates it has already
   * visited.  fuel bounds the number of turns; Unfinished means it ran out.
   */
  function WalkAsWritten(ns: seq<Vertex>, prev: int, cur: int, fuel: nat): Walk
    requires WellFormed(ns) && 0 <= prev < |ns| && 0 <= cur < |ns|
    decreases fuel
  {
    if ns[cur].typ == NodeNode then Ended(ns, cur)
    else if fuel == 0 then Unfinished
    else
      var ms := Mark(ns, cur);
      match Neighbours(ms, cur)
      case TooMany => WalkExit
      case Pair(ta, tb) =>
        if ta == NULL || tb == NULL then Ended(ms, cur)
        else if ta != prev then WalkAsWritten(ms, cur, ta, fuel - 1)
        else WalkAsWritten(ms, cur, tb, fuel - 1)
  }

  /** Three gates joined in a ring, none tied to an entity, with gate 0 already marked by graph_gate_connects_whom. */
  function Ring(t1: NodeType, t2: NodeType): seq<Vertex>
  {
    [Vertex("u.p", 0, [2, 1], NodeGateVisited),
     Vertex("v.p", 1, [2, 0], t1),
     Vertex("w.p", 2, [0, 1], t2)]
  }

  /** On the fully marked ring the as-written walk comes back to where it was after three turns. */
  lemma {:induction false} RingLoops(fuel: nat)
    ensures WalkAsWritten(Ring(NodeGateVisited, NodeGateVisited), 0, 2, fuel) == Unfinished
    decreases fuel
  {
    var rv := Ring(NodeGateVisited, NodeGateVisited);
    assert Mark(rv, 0) == rv && Mark(rv, 1) == rv && Mark(rv, 2) == rv;
    if fuel >= 1 {
      assert WalkAsWritten(rv, 0, 2, fuel) == WalkAsWritten(rv, 2, 1, fuel - 1);
    }
    if fuel >= 2 {
      assert WalkAsWritten(rv, 2, 1, fuel - 1) == WalkAsWritten(rv, 1, 0, fuel - 2);
    }
    if fuel >= 3 {
      assert WalkAsWritten(rv, 1, 0, fuel - 2) == WalkAsWritten(rv, 0, 2, fuel - 3);
      RingLoops(fuel - 3);
    }
  }

  /** On a ring of gates the walk as written never ends, whatever the fuel. */
  lemma RingNeverEndsAsWritten(fuel: nat)
    ensures WalkAsWritten(Ring(NodeGate, NodeGate), 0, 2, fuel) == Unfinished
  {
    var r0 := Ring(NodeGate, NodeGate);
    var r1 := Ring(NodeGate, NodeGateVisited);
    var rv := Ring(NodeGateVisited, NodeGateVisited);
    assert Mark(r0, 2) == r1 && Mark(r1, 1) == rv && Mark(rv, 0) == rv;
    if fuel >= 1 {
      assert WalkAsWritten(r0, 0, 2, fuel) == WalkAsWritten(r1, 2, 1, fuel - 1);
    }
    if fuel >= 2 {
      assert WalkAsWritten(r1, 2, 1, fuel - 1) == WalkAsWritten(rv, 1, 0, fuel - 2);
    }
    if fuel >= 3 {
      assert WalkAsWritten(rv, 1, 0, fuel - 2) == WalkAsWritten(rv, 0, 2, fuel - 3);
      RingLoops(fuel - 3);
    }
  }

  /** On the same ring the corrected walk stops at the gate it started from, with all three gates visited. */
  lemma RingEnds()
    ensures WalkFrom(Ring(NodeGate, NodeGate), 0, 2) == Ended(Ring(NodeGateVisited, NodeGateVisited), 0)
  {
    var r0 := Ring(NodeGate, NodeGate);
    var r1 := Ring(NodeGate, NodeGateVisited);
    var rv := Ring(NodeGateVisited, NodeGateVisited);
    assert Mark(r0, 2) == r1 && Mark(r1, 1) == rv;
    assert WalkFrom(r0, 0, 2) == WalkFrom(r1, 2, 1) == WalkFrom(rv, 1, 0);
  }

  /** The corrected walk stopped at a gate visited before it got there, one with two or more cells. */
  predicate StopsAtVisited(r: Walk)
  {
    r.Ended? && 0 <= r.end < |r.ns| && r.ns[r.end].typ == NodeGateVisited && |r.ns[r.end].adj| >= 2
  }

  /** Where the as-written walk ends: an entity or a gate with fewer than two cells, only gates marked on the way. */
  lemma {:induction false} AsWrittenEnd(ns: seq<Vertex>, prev: int, cur: int, fuel: nat)
    requires WellFormed(ns) && 0 <= prev < |ns| && 0 <= cur < |ns|
    ensures var r := WalkAsWritten(ns, prev, cur, fuel);
      r.Ended? ==> Marks(ns, r.ns) && 0 <= r.end < |ns| && (r.ns[r.end].typ == NodeNode || |r.ns[r.end].adj| < 2)
    decreases fuel
  {
    if ns[cur].typ != NodeNode && fuel > 0 {
      var ms := Mark(ns, cur);
      MarkMarks(ns, cur);
      match Neighbours(ms, cur)
      case TooMany =>
      case Pair(ta, tb) =>
        if ta != NULL && tb != NULL {
          var next := if ta != prev then ta else tb;
          AsWrittenEnd(ms, cur, next, fuel - 1);
          var r := WalkAsWritten(ms, cur, next, fuel - 1);
          if r.Ended? {
            MarksTrans(ns, ms, r.ns);
          }
        }
    }
  }

  /**
   * With fuel for every unvisited gate, the as-written walk ends where the
   * corrected one does exactly when the corrected one does not stop at an
   * already visited gate with two or more cells: only there do the two
   * guards part.
   */
  lemma {:induction false} WalkAsWrittenAgrees(ns: seq<Vertex>, prev: int, cur: int, fuel: nat)
    requires WellFormed(ns) && 0 <= prev < |ns| && 0 <= cur < |ns| && fuel > GateCount(ns)
    ensures WalkAsWritten(ns, prev, cur, fuel) == WalkFrom(ns, prev, cur) <==> !StopsAtVisited(WalkFrom(ns, prev, cur))
    decreases GateCount(ns)
  {
    var ms := Mark(ns, cur);
    if ns[cur].typ == NodeGateVisited {
      assert ms == ns;
      AsWrittenEnd(ns, prev, cur, fuel);
    } else if ns[cur].typ == NodeGate {
      MarkCount(ns, cur);
      match Neighbours(ms, cur)
      case TooMany =>
      case Pair(ta, tb) =>
        if ta != NULL && tb != NULL {
          WalkAsWrittenAgrees(ms, cur, if ta != prev then ta else tb, fuel - 1);
        }
    }
  }

  // ----- compaction: the two phases -----

  datatype Whom = Ends(ns: seq<Vertex>, first: int, second: int) | WhomExit

  /** graph_gate_connects_whom: the gate marked, then the ends of the walks from its first and second neighbour. */
  function ConnectsWhom(ns: seq<Vertex>, gate: int): (r: Whom)
    requires WellFormed(ns) && 0 <= gate < |ns| && ns[gate].typ == NodeGate
    ensures r.Ends? ==> Marks(ns, r.ns) && WellFormed(r.ns) && r.ns[gate].typ != NodeGate
    ensures r.Ends? ==> -1 <= r.first < |ns| && -1 <= r.second < |ns|
  {
    var ms := Mark(ns, gate);
    MarkMarks(ns, gate);
    match Neighbours(ms, gate)
    case TooMany => WhomExit
    case Pair(a, b) =>
      match Traverse(ms, gate, a)
      case Ended(ms1, n1) =>
        MarksTrans(ns, ms, ms1);
        (match Traverse(ms1, gate, b)
         case Ended(ms2, n2) => MarksTrans(ns, ms1, ms2); Ends(ms2, n1, n2)
         case _ => WhomExit)
      case _ => WhomExit
  }

  datatype Compaction = Done(ns: seq<Vertex>) | Exit

  /** Types and names as before, with some gates now visited. */
  predicate Retyped(ns: seq<Vertex>, ms: seq<Vertex>)
  {
    |ms| == |ns| &&
    forall i :: 0 <= i < |ns| ==>
      ms[i].name == ns[i].name && ms[i].n == ns[i].n &&
      (ms[i].typ == ns[i].typ || (ns[i].typ == NodeGate && ms[i].typ == NodeGateVisited))
  }

  lemma MarksRetyped(ns: seq<Vertex>, ms: seq<Vertex>, r: seq<Vertex>)
    requires Marks(ns, ms) && |r| == |ms|
    requires forall i :: 0 <= i < |ms| ==> r[i].name == ms[i].name && r[i].n == ms[i].n && r[i].typ == ms[i].typ
    ensures Retyped(ns, r)
  {
  }

  lemma RetypedTrans(a: seq<Vertex>, b: seq<Vertex>, c: seq<Vertex>)
    requires Retyped(a, b) && Retyped(b, c)
    ensures Retyped(a, c)
  {
  }

  /** One turn of the first loop for gate i: an edge between the two ends when both exist and the first has the larger index. */
  function JoinTurn(ns: seq<Vertex>, i: int): (r: Compaction)
    requires WellFormed(ns) && 0 <= i < |ns| && ns[i].typ == NodeGate
    ensures r.Done? ==> Retyped(ns, r.ns) && WellFormed(r.ns) && r.ns[i].typ != NodeGate
  {
    match ConnectsWhom(ns, i)
    case WhomExit => Exit
    case Ends(ms, n1, n2) =>
      if n1 != NULL && n2 != NULL && ms[n1].n > ms[n2].n then
        LinkShape(ms, n1, n2);
        MarksRetyped(ns, ms, Link(ms, n1, n2));
        Done(Link(ms, n1, n2))
      else
        MarksRetyped(ns, ms, ms);
        Done(ms)
  }

  /** The first loop of topologies_graph_compact from index i on: every vertex still an unvisited gate gets its turn. */
  function JoinFrom(ns: seq<Vertex>, i: int): (r: Compaction)
    requires WellFormed(ns) && 0 <= i <= |ns|
    ensures r.Done? ==> Retyped(ns, r.ns) && WellFormed(r.ns)
    decreases |ns| - i
  {
    if i == |ns| then Done(ns)
    else if ns[i].typ != NodeGate then JoinFrom(ns, i + 1)
    else
      match JoinTurn(ns, i)
      case Exit => Exit
      case Done(ms) =>
        var r := JoinFrom(ms, i + 1);
        if r.Done? then RetypedTrans(ns, ms, r.ns); r else r
  }

  /** Once the gates below i are visited, the rest of the first loop leaves no unvisited gate at all. */
  lemma {:induction false} JoinFromClearsGates(ns: seq<Vertex>, i: int)
    requires WellFormed(ns) && 0 <= i <= |ns|
    requires forall k :: 0 <= k < i ==> ns[k].typ != NodeGate
    ensures JoinFrom(ns, i).Done? ==> forall k :: 0 <= k < |ns| ==> JoinFrom(ns, i).ns[k].typ != NodeGate
    decreases |ns| - i
  {
    if i == |ns| {
      assert JoinFrom(ns, i) == Done(ns);
    } else {
      if ns[i].typ != NodeGate {
        assert JoinFrom(ns, i) == JoinFrom(ns, i + 1);
        JoinFromClearsGates(ns, i + 1);
      } else {
        var c := JoinTurn(ns, i);
        if c.Done? {
          var ms := c.ns;
          assert forall k :: 0 <= k < i + 1 ==> ms[k].typ != NodeGate;
          assert JoinFrom(ns, i) == JoinFrom(ms, i + 1);
          JoinFromClearsGates(ms, i + 1);
        } else {
          assert JoinFrom(ns, i) == Exit;
        }
      }
    }
  }

  /** The cells of xs that point at entities, in their order. */
  function Entities(ns: seq<Vertex>, xs: seq<int>): seq<int>
    requires Targets(ns, xs)
  {
    if |xs| == 0 then []
    else Entities(ns, xs[..|xs| - 1]) + (if ns[xs[|xs| - 1]].typ == NodeNode then [xs[|xs| - 1]] else [])
  }

  /** The second loop of topologies_graph_compact: non-entities lose their lists, entities keep their entity cells. */
  function Strip(ns: seq<Vertex>): seq<Vertex>
    requires WellFormed(ns)
  {
    seq(|ns|, i requires 0 <= i < |ns| =>
      if ns[i].typ != NodeNode then ns[i].(adj := []) else ns[i].(adj := Entities(ns, ns[i].adj)))
  }

  /** topologies_graph_compact: both loops, or the exit of the first. */
  function Compacted(ns: seq<Vertex>): Compaction
    requires WellFormed(ns)
  {
    match JoinFrom(ns, 0)
    case Exit => Exit
    case Done(ms) => Done(Strip(ms))
  }

  /** Filtering keeps each entity's cells, as many as there were, and no other cell. */
  lemma {:induction false} EntitiesCount(ns: seq<Vertex>, xs: seq<int>)
    requires Targets(ns, xs)
    ensures forall j :: 0 <= j < |ns| ==>
      multiset(Entities(ns, xs))[j] == if ns[j].typ == NodeNode then multiset(xs)[j] else 0
    decreases |xs|
  {
    if |xs| > 0 {
      var ys := xs[..|xs| - 1];
      var x := xs[|xs| - 1];
      EntitiesCount(ns, ys);
      assert xs == ys + [x];
      assert multiset(xs) == multiset(ys) + multiset{x};
      if ns[x].typ == NodeNode {
        assert multiset(Entities(ns, xs)) == multiset(Entities(ns, ys)) + multiset{x};
      } else {
        assert Entities(ns, xs) == Entities(ns, ys);
      }
    }
  }

  lemma StripKeepsGraph(ns: seq<Vertex>)
    requires WellFormed(ns) && Symmetric(ns)
    ensures WellFormed(Strip(ns)) && Symmetric(Strip(ns))
  {
    var r := Strip(ns);
    forall i | 0 <= i < |ns| && ns[i].typ == NodeNode
      ensures Targets(ns, r[i].adj)
      ensures forall j :: 0 <= j < |ns| ==> multiset(r[i].adj)[j] == if ns[j].typ == NodeNode then multiset(ns[i].adj)[j] else 0
    {
      EntitiesCount(ns, ns[i].adj);
      EntitiesAreEntities(ns, ns[i].adj);
    }
  }

  /**
   * A turn for gate i adds cells only to the lists of its two ends, and only
   * when both exist and the first end's index is strictly greater than the
   * second's; otherwise it changes nothing but marks.
   */
  lemma JoinTurnEdge(ns: seq<Vertex>, i: int)
    requires WellFormed(ns) && 0 <= i < |ns| && ns[i].typ == NodeGate
    ensures var w := ConnectsWhom(ns, i);
      w.Ends? ==>
        var r := JoinTurn(ns, i).ns;
        (w.first != NULL && w.second != NULL && w.first > w.second ==>
          r[w.first].adj == [w.second] + ns[w.first].adj && r[w.second].adj == [w.first] + ns[w.second].adj &&
          forall k :: 0 <= k < |ns| && k != w.first && k != w.second ==> r[k].adj == ns[k].adj) &&
        (!(w.first != NULL && w.second != NULL && w.first > w.second) ==>
          forall k :: 0 <= k < |ns| ==> r[k].adj == ns[k].adj)
  {
    var w := ConnectsWhom(ns, i);
    if w.Ends? && w.first != NULL && w.second != NULL && w.first > w.second {
      LinkShape(w.ns, w.first, w.second);
    }
  }

  /**
   * After compaction no vertex is an unvisited gate, the entities are the
   * same vertices as before, every non-entity's list is empty and every
   * entity's list holds exactly its cells that point at entities, in order:
   * every edge left joins two entities.
   */
  lemma CompactedShape(ns: seq<Vertex>)
    requires WellFormed(ns)
    ensures var c := Compacted(ns);
      c.Done? ==>
        |c.ns| == |ns| && WellFormed(c.ns) &&
        (forall k :: 0 <= k < |ns| ==> c.ns[k].typ != NodeGate && c.ns[k].name == ns[k].name) &&
        (forall k :: 0 <= k < |ns| ==> (c.ns[k].typ == NodeNode <==> ns[k].typ == NodeNode)) &&
        (forall k :: 0 <= k < |ns| && ns[k].typ != NodeNode ==> c.ns[k].adj == []) &&
        (forall k, t :: 0 <= k < |ns| && 0 <= t < |c.ns[k].adj| ==> c.ns[c.ns[k].adj[t]].typ == NodeNode)
  {
    var c := Compacted(ns);
    JoinFromClearsGates(ns, 0);
    if c.Done? {
      var ms := JoinFrom(ns, 0).ns;
      forall k | 0 <= k < |ns| && ms[k].typ == NodeNode
        ensures Targets(ms, c.ns[k].adj)
        ensures forall t :: 0 <= t < |c.ns[k].adj| ==> ms[c.ns[k].adj[t]].typ == NodeNode
      {
        EntitiesAreEntities(ms, ms[k].adj);
      }
    }
  }

  lemma {:induction false} EntitiesAreEntities(ns: seq<Vertex>, xs: seq<int>)
    requires Targets(ns, xs)
    ensures forall t :: 0 <= t < |Entities(ns, xs)| ==> 0 <= Entities(ns, xs)[t] < |ns| && ns[Entities(ns, xs)[t]].typ == NodeNode
    decreases |xs|
  {
    if |xs| > 0 {
      EntitiesAreEntities(ns, xs[..|xs| - 1]);
    }
  }

  // ----- graph_add_node as written: stale pointers after growth -----

  // The list cells of graph.c hold node_t pointers into g->nodes, and
  // graph_add_node reallocates that array when it is full.  A pointer is
  // modelled as the allocation of the array it points into and an index.

  datatype Ptr = Ptr(block: nat, index: int)

  /** The array's current allocation, its capacity and every vertex's list. */
  datatype RawGraph = RawGraph(block: nat, cap: int, lists: seq<seq<Ptr>>)

  /** graph_add_node as written: a full array is reallocated, taking the case where realloc moves it to a fresh allocation. */
  function AddNodeAsWritten(g: RawGraph): RawGraph
  {
    if |g.lists| == g.cap then RawGraph(g.block + 1, g.cap + GRAPH_BLK_SIZE, g.lists + [[]])
    else RawGraph(g.block, g.cap, g.lists + [[]])
  }

  /** graph_add_edge_ptr as written, with pointers into the current allocation. */
  function LinkAsWritten(g: RawGraph, a: int, b: int): RawGraph
    requires 0 <= a < |g.lists| && 0 <= b < |g.lists|
  {
    var ls := g.lists[a := [Ptr(g.block, b)] + g.lists[a]];
    g.(lists := ls[b := [Ptr(g.block, a)] + ls[b]])
  }

  /** Some cell points into an allocation the array has left. */
  predicate HasStaleCell(g: RawGraph)
  {
    exists i, k :: 0 <= i < |g.lists| && 0 <= k < |g.lists[i]| && g.lists[i][k].block != g.block
  }

  function Grown(g: RawGraph, count: nat): RawGraph
  {
    if count == 0 then g else AddNodeAsWritten(Grown(g, count - 1))
  }

  lemma {:induction false} GrownShape(count: nat)
    requires count <= GRAPH_BLK_SIZE
    ensures Grown(RawGraph(0, GRAPH_BLK_SIZE, []), count) == RawGraph(0, GRAPH_BLK_SIZE, seq(count, _ => []))
  {
    if count > 0 {
      GrownShape(count - 1);
      assert seq(count - 1, _ => []) + [[]] == seq<seq<Ptr>>(count, _ => []);
    }
  }

  /**
   * Thirty-two vertices, an edge between the first two, then a
   * thirty-third vertex: when realloc moves the array, the edge's cells
   * point into the array it gave up. AddNodeAsWritten takes that case;
   * when realloc grows the block in place the cells stay valid.
   */
  lemma StaleAfterGrowth()
    ensures var g := Grown(RawGraph(0, GRAPH_BLK_SIZE, []), GRAPH_BLK_SIZE);
      HasStaleCell(AddNodeAsWritten(LinkAsWritten(g, 0, 1)))
  {
    GrownShape(GRAPH_BLK_SIZE);
    var g := Grown(RawGraph(0, GRAPH_BLK_SIZE, []), GRAPH_BLK_SIZE);
    var h := AddNodeAsWritten(LinkAsWritten(g, 0, 1));
    assert h.lists[0][0].block != h.block;
  }

  // ----- topologies.c: loop bounds and module lookup -----

  /**
   * The bounds check and loop of traverse_and_add_conns for a loop
   * connection: start > end ends the process, otherwise j takes every value
   * from start to end inclusive.  The body is left to the caller; js lists
   * the values it sees.
   */
  method LoopValues(start: int, end: int) returns (exited: bool, js: seq<int>)
    ensures exited <==> start > end
    ensures !exited ==> |js| == end - start + 1 && forall k :: 0 <= k < |js| ==> js[k] == start + k
  {
    if start > end {
      return true, [];
    }
    exited, js := false, [];
    var j := start;
    while j <= end
      invariant start <= j <= end + 1
      invariant |js| == j - start && forall k :: 0 <= k < |js| ==> js[k] == start + k
    {
      js := js + [j];
      j := j + 1;
    }
  }

  /** find_module: the first module whose name matches, or NULL. */
  method FindModule(names: seq<string>, name: string) returns (r: int)
    ensures r == FirstIndex(names, name)
  {
    var i := 0;
    while i < |names|
      invariant 0 <= i <= |names|
      invariant forall k :: 0 <= k < i ==> names[k] != name
    {
      if names[i] == name {
        return i;
      }
      i := i + 1;
    }
    return NULL;
  }

  /** The first-generation lookup and the current one pick the same module when every module is named. */
  lemma FindModuleAgrees(names: seq<string>, ms: seq<Defs.Module>, name: string)
    requires |ms| == |names| && forall k :: 0 <= k < |ms| ==> ms[k].name == Some(names[k])
    ensures FirstIndex(names, name) == Expansion.FindModule(ms, name)
  {
  }
}
