/**
 * The adjacency-array graph store of src/graph.c: vertices with a name, their
 * own index, a type and optional attributes, each holding a growable array of
 * edges to neighbour indices; and the Graphviz DOT text it prints.
 *
 * The value-level functions below (WithEdge, IndexOf, Dot, ...) specify what
 * the methods of class Graph do to its `nodes`, and are what the other
 * modules' specifications are written in.
 */
module GraphStore {
  import opened Basics
  import opened Errors

  datatype NodeType = NodeNode | NodeGate | NodeGateVisited | NodeReplacedT | NodeReplaced

  datatype Edge = Edge(n: int, attributes: Option<string>)

  datatype Node = Node(name: string, n: int, adj: seq<Edge>, capAdj: nat, typ: NodeType,
                       attributes: Option<string>)

  const GRAPH_BLK_SIZE := 32
  const ADJ_BLK_SIZE := 8

  /** The neighbour indices of an adjacency array, in order. */
  function Targets(adj: seq<Edge>): (r: seq<int>)
    ensures |r| == |adj|
    ensures forall k {:trigger adj[k]} :: 0 <= k < |adj| ==> r[k] == adj[k].n
  {
    if |adj| == 0 then [] else Targets(adj[..|adj| - 1]) + [adj[|adj| - 1].n]
  }

  /** A vertex at index i of a store of the given size: it knows its index, its edges point at vertices, its array has room. */
  ghost predicate NodeOk(node: Node, i: int, size: int)
  {
    node.n == i && |node.adj| <= node.capAdj && node.capAdj % ADJ_BLK_SIZE == 0 &&
    forall k :: 0 <= k < |node.adj| ==> 0 <= node.adj[k].n < size
  }

  ghost predicate WellFormed(ns: seq<Node>)
  {
    forall i :: 0 <= i < |ns| ==> NodeOk(ns[i], i, |ns|)
  }

  /** Every edge is recorded at both of its ends. */
  ghost predicate Reciprocal(ns: seq<Node>)
    requires WellFormed(ns)
  {
    forall i, k :: 0 <= i < |ns| && 0 <= k < |ns[i].adj| ==> i in Targets(ns[ns[i].adj[k].n].adj)
  }

  /** j is among the neighbours of vertex i. */
  predicate Adjacent(ns: seq<Node>, i: int, j: int)
  {
    0 <= i < |ns| && j in Targets(ns[i].adj)
  }

  /** A fresh vertex as graph_add_node builds it at index i. */
  function NewNode(i: nat, name: string, typ: NodeType, attrs: Option<string>): Node
  {
    Node(name, i, [], ADJ_BLK_SIZE, typ, attrs)
  }

  /** A new vertex with no neighbours keeps the store well formed and reciprocal. */
  lemma WithNodeFacts(ns: seq<Node>, name: string, typ: NodeType, attrs: Option<string>)
    requires WellFormed(ns) && Reciprocal(ns)
    ensures WellFormed(ns + [NewNode(|ns|, name, typ, attrs)])
    ensures Reciprocal(ns + [NewNode(|ns|, name, typ, attrs)])
  {
    var ms := ns + [NewNode(|ns|, name, typ, attrs)];
    forall i | 0 <= i < |ms|
      ensures NodeOk(ms[i], i, |ms|)
    {
      if i < |ns| {
        assert NodeOk(ns[i], i, |ns|);
      }
    }
    forall i, k | 0 <= i < |ms| && 0 <= k < |ms[i].adj|
      ensures i in Targets(ms[ms[i].adj[k].n].adj)
    {
      assert i < |ns|;
      assert NodeOk(ns[i], i, |ns|);
    }
  }

  /** Appending to an adjacency array, one more block of room when it is full. */
  function Append(node: Node, e: Edge): (r: Node)
    ensures r.adj == node.adj + [e]
    ensures r.name == node.name && r.n == node.n && r.typ == node.typ && r.attributes == node.attributes
  {
    node.(adj := node.adj + [e],
          capAdj := if |node.adj| == node.capAdj then node.capAdj + ADJ_BLK_SIZE else node.capAdj)
  }

  /** The vertices after an edge a--b with the given attributes is recorded at both ends. */
  function WithEdge(ns: seq<Node>, a: int, b: int, attr: Option<string>): seq<Node>
    requires 0 <= a < |ns| && 0 <= b < |ns|
  {
    var ns1 := ns[a := Append(ns[a], Edge(b, attr))];
    ns1[b := Append(ns1[b], Edge(a, attr))]
  }

  /** Names, types and attributes of all vertices are the same in both sequences. */
  ghost predicate SameVertices(ns: seq<Node>, ms: seq<Node>)
  {
    |ns| == |ms| &&
    forall i :: 0 <= i < |ns| ==>
      ns[i].name == ms[i].name && ns[i].n == ms[i].n && ns[i].typ == ms[i].typ &&
      ns[i].attributes == ms[i].attributes
  }

  /**
   * Adding an edge keeps the store well formed and reciprocal, appends b to a's
   * neighbours and a to b's, and touches no other adjacency array and no vertex.
   */
  lemma WithEdgeFacts(ns: seq<Node>, a: int, b: int, attr: Option<string>)
    requires WellFormed(ns) && Reciprocal(ns)
    requires 0 <= a < |ns| && 0 <= b < |ns|
    ensures var ms := WithEdge(ns, a, b, attr);
      WellFormed(ms) && Reciprocal(ms) && SameVertices(ns, ms) &&
      (a != b ==> ms[a].adj == ns[a].adj + [Edge(b, attr)] && ms[b].adj == ns[b].adj + [Edge(a, attr)]) &&
      (a == b ==> ms[a].adj == ns[a].adj + [Edge(a, attr), Edge(a, attr)]) &&
      (forall i :: 0 <= i < |ns| && i != a && i != b ==> ms[i] == ns[i])
  {
    var ms := WithEdge(ns, a, b, attr);
    WithEdgeShape(ns, a, b, attr);
    WithEdgeWellFormed(ns, a, b, attr);
    WithEdgeReciprocal(ns, a, b, attr);
  }

  lemma WithEdgeShape(ns: seq<Node>, a: int, b: int, attr: Option<string>)
    requires 0 <= a < |ns| && 0 <= b < |ns|
    ensures var ms := WithEdge(ns, a, b, attr);
      SameVertices(ns, ms) &&
      (a != b ==> ms[a].adj == ns[a].adj + [Edge(b, attr)] && ms[b].adj == ns[b].adj + [Edge(a, attr)]) &&
      (a == b ==> ms[a].adj == ns[a].adj + [Edge(a, attr), Edge(a, attr)]) &&
      (forall i :: 0 <= i < |ns| && i != a && i != b ==> ms[i] == ns[i]) &&
      (forall i :: 0 <= i < |ns| ==> ns[i].adj <= ms[i].adj)
  {
  }

  lemma WithEdgeWellFormed(ns: seq<Node>, a: int, b: int, attr: Option<string>)
    requires WellFormed(ns)
    requires 0 <= a < |ns| && 0 <= b < |ns|
    ensures WellFormed(WithEdge(ns, a, b, attr))
  {
    assert NodeOk(ns[a], a, |ns|);
    AppendOk(ns[a], Edge(b, attr), a, |ns|);
    var ns1 := ns[a := Append(ns[a], Edge(b, attr))];
    ReplaceOk(ns, a, Append(ns[a], Edge(b, attr)));
    assert NodeOk(ns1[b], b, |ns1|);
    AppendOk(ns1[b], Edge(a, attr), b, |ns1|);
    ReplaceOk(ns1, b, Append(ns1[b], Edge(a, attr)));
  }

  /** Appending an edge to a vertex's own range keeps the vertex sound. */
  lemma AppendOk(node: Node, e: Edge, i: int, size: int)
    requires NodeOk(node, i, size) && 0 <= e.n < size
    ensures NodeOk(Append(node, e), i, size)
  {
    var r := Append(node, e);
    forall k | 0 <= k < |r.adj|
      ensures 0 <= r.adj[k].n < size
    {
      if k < |node.adj| {
        assert r.adj[k] == node.adj[k];
      }
    }
  }

  /** Replacing one vertex by a sound one keeps the store well formed. */
  lemma ReplaceOk(ns: seq<Node>, x: int, node: Node)
    requires WellFormed(ns) && 0 <= x < |ns| && NodeOk(node, x, |ns|)
    ensures WellFormed(ns[x := node])
  {
    var ms := ns[x := node];
    forall i | 0 <= i < |ms|
      ensures NodeOk(ms[i], i, |ms|)
    {
      if i != x {
        assert ms[i] == ns[i];
      }
    }
  }

  lemma WithEdgeReciprocal(ns: seq<Node>, a: int, b: int, attr: Option<string>)
    requires WellFormed(ns) && Reciprocal(ns)
    requires 0 <= a < |ns| && 0 <= b < |ns|
    ensures WellFormed(WithEdge(ns, a, b, attr))
    ensures Reciprocal(WithEdge(ns, a, b, attr))
  {
    var ms := WithEdge(ns, a, b, attr);
    WithEdgeWellFormed(ns, a, b, attr);
    forall i, k | 0 <= i < |ms| && 0 <= k < |ms[i].adj|
      ensures i in Targets(ms[ms[i].adj[k].n].adj)
    {
      WithEdgeEntry(ns, a, b, attr, i, k);
    }
  }

  /** One adjacency entry after adding a--b is still recorded at its other end. */
  lemma WithEdgeEntry(ns: seq<Node>, a: int, b: int, attr: Option<string>, i: int, k: int)
    requires WellFormed(ns) && Reciprocal(ns)
    requires 0 <= a < |ns| && 0 <= b < |ns|
    requires 0 <= i < |ns| && 0 <= k < |WithEdge(ns, a, b, attr)[i].adj|
    ensures 0 <= WithEdge(ns, a, b, attr)[i].adj[k].n < |ns|
    ensures i in Targets(WithEdge(ns, a, b, attr)[WithEdge(ns, a, b, attr)[i].adj[k].n].adj)
  {
    var ms := WithEdge(ns, a, b, attr);
    WithEdgeShape(ns, a, b, attr);
    var j := ms[i].adj[k].n;
    if k < |ns[i].adj| {
      assert ms[i].adj[k] == ns[i].adj[k];
      assert NodeOk(ns[i], i, |ns|);
      assert i in Targets(ns[j].adj);
      TargetsGrow(ns[j].adj, ms[j].adj, i);
    } else if a == b {
      assert j == a;
      LastTarget(ms[a].adj);
    } else if i == a {
      assert j == b;
      LastTarget(ms[b].adj);
    } else {
      assert i == b && j == a;
      LastTarget(ms[a].adj);
    }
  }

  lemma LastTarget(adj: seq<Edge>)
    requires |adj| > 0
    ensures adj[|adj| - 1].n in Targets(adj)
  {
    assert Targets(adj)[|adj| - 1] == adj[|adj| - 1].n;
  }

  lemma TargetsGrow(adj: seq<Edge>, adj2: seq<Edge>, x: int)
    requires adj <= adj2 && x in Targets(adj)
    ensures x in Targets(adj2)
  {
    var k :| 0 <= k < |adj| && Targets(adj)[k] == x;
    assert adj2[k] == adj[k];
    assert Targets(adj2)[k] == x;
  }

  lemma TargetsPrefix(adj: seq<Edge>, k: nat)
    requires k <= |adj|
    ensures Targets(adj[..k]) == Targets(adj)[..k]
  {
    forall i | 0 <= i < k
      ensures Targets(adj[..k])[i] == Targets(adj)[i]
    {
      assert adj[..k][i] == adj[i];
    }
  }

  lemma SubsetByPrefix(xs: seq<int>, ys: seq<int>, x: int)
    requires xs <= ys && x in xs
    ensures x in ys
  {
    var k :| 0 <= k < |xs| && xs[k] == x;
    assert ys[k] == x;
  }

  /** The lowest index whose vertex has the given name, or -1. */
  function IndexOf(ns: seq<Node>, name: string): (r: int)
    ensures -1 <= r < |ns|
    ensures r >= 0 ==> ns[r].name == name && forall k :: 0 <= k < r ==> ns[k].name != name
    ensures r == -1 ==> forall k :: 0 <= k < |ns| ==> ns[k].name != name
  {
    if |ns| == 0 then -1
    else
      var r := IndexOf(ns[..|ns| - 1], name);
      if r >= 0 then r else if ns[|ns| - 1].name == name then |ns| - 1 else -1
  }

  /** The first vertex with the name is the one IndexOf finds. */
  lemma IndexOfFirst(ns: seq<Node>, name: string, i: int)
    requires 0 <= i < |ns| && ns[i].name == name && forall k :: 0 <= k < i ==> ns[k].name != name
    ensures IndexOf(ns, name) == i
  {
  }

  /**
   * The id check of graph_add_edge_id as written: `n_a > n_nodes` lets the
   * index n_nodes, one past the last vertex, through.
   */
  predicate EdgeIdsAcceptedAsWritten(nNodes: int, a: int, b: int)
  {
    !(a < 0 || b < 0 || a > nNodes || b > nNodes)
  }

  /** A one-vertex graph: the written check accepts vertex id 1, which does not exist. */
  lemma EdgeIdPastEndAcceptedAsWritten()
    ensures EdgeIdsAcceptedAsWritten(1, 0, 1) && !(0 <= 1 < 1)
  {
  }

  /** The intended check: both ids name existing vertices. */
  predicate EdgeIdsValid(nNodes: int, a: int, b: int)
  {
    0 <= a < nNodes && 0 <= b < nNodes
  }

  /**
   * The adjacency update of graph_add_edge_id as written: the second half
   * stores the attribute into a's slot at b's old degree (line 96 names
   * node_a), so b's new slot keeps the zero the allocator put there and one
   * of a's earlier edges may lose its attribute.  Nothing checks that slot
   * against a's capacity: None is a store past the end of a's list.
   */
  function WithEdgeAsWritten(ns: seq<Node>, a: int, b: int, attr: Option<string>): Option<seq<Node>>
    requires 0 <= a < |ns| && 0 <= b < |ns|
  {
    var ns1 := ns[a := Append(ns[a], Edge(b, attr))];
    var i := |ns1[b].adj|;
    var ns2 := ns1[b := Append(ns1[b], Edge(a, None))];
    if i >= ns2[a].capAdj then None
    else if i < |ns2[a].adj| then Some(ns2[a := ns2[a].(adj := ns2[a].adj[i := ns2[a].adj[i].(attributes := attr)])])
    else Some(ns2)
  }

  /**
   * For vertices whose lists fit their capacity, the written update writes
   * past a's list exactly when a and b differ and b's old degree is at
   * least a's capacity after a's append; otherwise it gives the same store
   * as the intended one exactly when the edge is a loop, or it carries no
   * attributes and a's slot at b's old degree (if a has one) carries none
   * either.
   */
  lemma WithEdgeAsWrittenAgreesIff(ns: seq<Node>, a: int, b: int, attr: Option<string>)
    requires 0 <= a < |ns| && 0 <= b < |ns|
    requires |ns[a].adj| <= ns[a].capAdj && |ns[b].adj| <= ns[b].capAdj
    ensures WithEdgeAsWritten(ns, a, b, attr).None? <==> a != b && |ns[b].adj| >= Append(ns[a], Edge(b, attr)).capAdj
    ensures WithEdgeAsWritten(ns, a, b, attr) == Some(WithEdge(ns, a, b, attr)) <==>
            a == b ||
            (|ns[b].adj| < Append(ns[a], Edge(b, attr)).capAdj && attr == None &&
             (|ns[b].adj| >= |ns[a].adj| || ns[a].adj[|ns[b].adj|].attributes == None))
  {
    var c := WithEdge(ns, a, b, attr);
    if a == b {
      var w := WithEdgeAsWritten(ns, a, b, attr);
      assert w.Some?;
      assert w.value[a].adj == c[a].adj;
      assert w.value[a] == c[a];
      assert w.value == c;
    } else if |ns[b].adj| < Append(ns[a], Edge(b, attr)).capAdj {
      var w := WithEdgeAsWritten(ns, a, b, attr).value;
      var i := |ns[b].adj|;
      if attr != None {
        assert w[b].adj[i] != c[b].adj[i];
      } else if i < |ns[a].adj| && ns[a].adj[i].attributes != None {
        assert w[a].adj[i] != c[a].adj[i];
      } else {
        if i < |ns[a].adj| {
          assert ns[a].adj[i].(attributes := attr) == ns[a].adj[i];
        }
        assert w[a].adj == c[a].adj;
        assert w[a] == c[a];
        assert w[b] == c[b];
        assert w == c;
      }
    }
  }

  /**
   * add_gate joins each gate of a simple module to the module's vertex,
   * the new gate as a.  The ninth gate, with an empty list of one block,
   * meets a module vertex that already has eight neighbours: as written,
   * the store lands at slot 8, past the gate's list.
   */
  lemma NinthGateOverflowsAsWritten(ns: seq<Node>, gate: int, owner: int)
    requires 0 <= gate < |ns| && 0 <= owner < |ns| && gate != owner
    requires ns[gate].adj == [] && ns[gate].capAdj == ADJ_BLK_SIZE && |ns[owner].adj| == 8
    ensures WithEdgeAsWritten(ns, gate, owner, None).None?
    ensures |WithEdge(ns, gate, owner, None)[gate].adj| <= WithEdge(ns, gate, owner, None)[gate].capAdj
  {
  }

  /**
   * Vertex 0 has an edge to 1 labelled "w"; adding 0--2 labelled "x" as
   * written relabels that earlier edge at 0 and leaves 2's new slot
   * unlabelled, while the intended update keeps "w" and labels both ends "x".
   */
  lemma AttributeSlotSlipAsWritten()
    ensures var ns := [Node("a", 0, [Edge(1, Some("w"))], 8, NodeNode, None),
                       Node("b", 1, [Edge(0, Some("w"))], 8, NodeNode, None),
                       Node("c", 2, [], 8, NodeNode, None)];
      var written := WithEdgeAsWritten(ns, 0, 2, Some("x"));
      var intended := WithEdge(ns, 0, 2, Some("x"));
      written.Some? && written.value[0].adj[0].attributes == Some("x") && written.value[2].adj[0].attributes == None &&
      intended[0].adj[0].attributes == Some("w") && intended[2].adj[0].attributes == Some("x")
  {
  }

  /** Whether the DOT text shows vertex `node`. */
  predicate ShowsNode(node: Node, printGates: bool)
  {
    node.typ == NodeNode || printGates
  }

  /** Whether the DOT text shows the k-th adjacency entry of vertex i. */
  predicate ShowsEdge(ns: seq<Node>, i: int, k: int, printGates: bool)
    requires WellFormed(ns) && 0 <= i < |ns| && 0 <= k < |ns[i].adj|
  {
    ShowsNode(ns[i], printGates) && i <= ns[i].adj[k].n &&
    (printGates || ns[ns[i].adj[k].n].typ == NodeNode)
  }

  /** The indices of the shown vertices among the first m, in order. */
  function ShownNodes(ns: seq<Node>, printGates: bool, m: nat): (r: seq<nat>)
    requires m <= |ns|
    ensures forall t :: 0 <= t < |r| ==> r[t] < m
  {
    if m == 0 then []
    else ShownNodes(ns, printGates, m - 1) + (if ShowsNode(ns[m - 1], printGates) then [m - 1] else [])
  }

  /** The shown edges (vertex, edge) among the first k adjacency entries of vertex i, in order. */
  function ShownRow(ns: seq<Node>, printGates: bool, i: nat, k: nat): (r: seq<(nat, Edge)>)
    requires WellFormed(ns) && i < |ns| && k <= |ns[i].adj|
  {
    if k == 0 then []
    else ShownRow(ns, printGates, i, k - 1) + (if ShowsEdge(ns, i, k - 1, printGates) then [(i, ns[i].adj[k - 1])] else [])
  }

  /** The shown edges of the first m vertices, vertex by vertex. */
  function ShownEdges(ns: seq<Node>, printGates: bool, m: nat): (r: seq<(nat, Edge)>)
    requires WellFormed(ns) && m <= |ns|
  {
    if m == 0 then []
    else ShownEdges(ns, printGates, m - 1) + ShownRow(ns, printGates, m - 1, |ns[m - 1].adj|)
  }

  /** The three printf pieces of a vertex line: `n<i> [label="<name>"`, `, <attributes>`, `];\n`. */
  function NodeHead(i: int, node: Node): string { "n" + Decimal(i) + " [label=\"" + node.name + "\"" }
  function NodeAttrs(node: Node): string { if node.attributes.Some? then ", " + node.attributes.value else "" }
  const NodeTail := "];\n"

  function NodeLine(i: int, node: Node): string { NodeHead(i, node) + NodeAttrs(node) + NodeTail }

  /** The three printf pieces of an edge line: `n<i> -- n<j>`, ` [<attributes>]`, `;\n`. */
  function EdgeHead(i: int, e: Edge): string { "n" + Decimal(i) + " -- n" + Decimal(e.n) }
  function EdgeAttrs(e: Edge): string { if e.attributes.Some? then " [" + e.attributes.value + "]" else "" }
  const EdgeTail := ";\n"

  function EdgeLine(i: int, e: Edge): string { EdgeHead(i, e) + EdgeAttrs(e) + EdgeTail }

  const DotHeader := "graph g {\n"
  const DotFooter := "}\n"

  function NodeLines(ns: seq<Node>, idx: seq<nat>): string
    requires forall t :: 0 <= t < |idx| ==> idx[t] < |ns|
  {
    if |idx| == 0 then "" else NodeLines(ns, idx[..|idx| - 1]) + NodeLine(idx[|idx| - 1], ns[idx[|idx| - 1]])
  }

  /** One line per element, in order. */
  function Lines<T>(xs: seq<T>, line: T -> string): string
  {
    if |xs| == 0 then "" else Lines(xs[..|xs| - 1], line) + line(xs[|xs| - 1])
  }

  function EdgeLineOf(p: (nat, Edge)): string { EdgeLine(p.0, p.1) }

  function EdgeLines(es: seq<(nat, Edge)>): string { Lines(es, EdgeLineOf) }

  /** The whole text topologies_graph_print writes and topologies_graph_string returns. */
  function Dot(ns: seq<Node>, printGates: bool): string
    requires WellFormed(ns)
  {
    DotHeader + NodeLines(ns, ShownNodes(ns, printGates, |ns|)) +
    EdgeLines(ShownEdges(ns, printGates, |ns|)) + DotFooter
  }

  /** A vertex gets a line exactly when it is an entity or gate vertices are shown; lines go in index order. */
  lemma ShownNodesExact(ns: seq<Node>, printGates: bool, m: nat)
    requires m <= |ns|
    ensures forall i :: i in ShownNodes(ns, printGates, m) <==> 0 <= i < m && ShowsNode(ns[i], printGates)
    ensures forall s, t :: 0 <= s < t < |ShownNodes(ns, printGates, m)| ==>
      ShownNodes(ns, printGates, m)[s] < ShownNodes(ns, printGates, m)[t]
  {
    ShownNodesMembers(ns, printGates, m);
    ShownNodesAscending(ns, printGates, m);
  }

  lemma {:induction false} ShownNodesMembers(ns: seq<Node>, printGates: bool, m: nat)
    requires m <= |ns|
    ensures forall i :: i in ShownNodes(ns, printGates, m) <==> 0 <= i < m && ShowsNode(ns[i], printGates)
  {
    if m > 0 {
      ShownNodesMembers(ns, printGates, m - 1);
      var prev := ShownNodes(ns, printGates, m - 1);
      if ShowsNode(ns[m - 1], printGates) {
        var r := prev + [m - 1];
        assert ShownNodes(ns, printGates, m) == r;
        assert forall i :: i in r <==> i in prev || i == m - 1;
      } else {
        assert ShownNodes(ns, printGates, m) == prev;
      }
    }
  }

  lemma {:induction false} ShownNodesAscending(ns: seq<Node>, printGates: bool, m: nat)
    requires m <= |ns|
    ensures forall s, t :: 0 <= s < t < |ShownNodes(ns, printGates, m)| ==>
      ShownNodes(ns, printGates, m)[s] < ShownNodes(ns, printGates, m)[t]
  {
    if m > 0 {
      ShownNodesAscending(ns, printGates, m - 1);
      var prev := ShownNodes(ns, printGates, m - 1);
      if ShowsNode(ns[m - 1], printGates) {
        var r := prev + [m - 1];
        assert ShownNodes(ns, printGates, m) == r;
        assert forall t :: 0 <= t < |prev| ==> r[t] == prev[t] && prev[t] < m - 1;
      } else {
        assert ShownNodes(ns, printGates, m) == prev;
      }
    }
  }

  lemma {:induction false} ShownRowExact(ns: seq<Node>, printGates: bool, i: nat, k: nat)
    requires WellFormed(ns) && i < |ns| && k <= |ns[i].adj|
    ensures forall p :: p in ShownRow(ns, printGates, i, k) <==>
      p.0 == i && exists j :: 0 <= j < k && ns[i].adj[j] == p.1 && ShowsEdge(ns, i, j, printGates)
  {
    if k > 0 {
      ShownRowExact(ns, printGates, i, k - 1);
    }
  }

  /** A hidden vertex contributes no edge lines. */
  lemma {:induction false} HiddenRowEmpty(ns: seq<Node>, printGates: bool, i: nat, k: nat)
    requires WellFormed(ns) && i < |ns| && k <= |ns[i].adj|
    requires !ShowsNode(ns[i], printGates)
    ensures ShownRow(ns, printGates, i, k) == []
  {
    if k > 0 {
      HiddenRowEmpty(ns, printGates, i, k - 1);
    }
  }

  /**
   * An adjacency entry gets an edge line exactly when its vertex is shown,
   * the entry points at an index no lower than its own, and, with gate
   * vertices hidden, it points at an entity.
   */
  lemma {:induction false} ShownEdgesExact(ns: seq<Node>, printGates: bool, m: nat)
    requires WellFormed(ns) && m <= |ns|
    ensures forall p :: p in ShownEdges(ns, printGates, m) <==>
      p.0 < m && exists j :: 0 <= j < |ns[p.0].adj| && ns[p.0].adj[j] == p.1 && ShowsEdge(ns, p.0, j, printGates)
  {
    if m > 0 {
      ShownEdgesExact(ns, printGates, m - 1);
      ShownRowExact(ns, printGates, m - 1, |ns[m - 1].adj|);
    }
  }

  /** With gate vertices hidden, every edge line joins two entities, lower index first. */
  lemma HiddenGatesShowEntityEdgesOnly(ns: seq<Node>, i: nat, e: Edge)
    requires WellFormed(ns)
    requires (i, e) in ShownEdges(ns, false, |ns|)
    ensures i < |ns| && 0 <= e.n < |ns|
    ensures ns[i].typ == NodeNode && ns[e.n].typ == NodeNode && i <= e.n
  {
    ShownEdgesExact(ns, false, |ns|);
    var j :| 0 <= j < |ns[i].adj| && ns[i].adj[j] == e && ShowsEdge(ns, i, j, false);
    assert NodeOk(ns[i], i, |ns|);
  }

  /** The DOT text is framed by `graph g {` and `}`. */
  lemma DotFramed(ns: seq<Node>, printGates: bool)
    requires WellFormed(ns)
    ensures DotHeader <= Dot(ns, printGates)
    ensures |Dot(ns, printGates)| >= |DotHeader| + |DotFooter|
    ensures Dot(ns, printGates)[|Dot(ns, printGates)| - |DotFooter|..] == DotFooter
  {
    Framed(DotHeader, NodeLines(ns, ShownNodes(ns, printGates, |ns|)) + EdgeLines(ShownEdges(ns, printGates, |ns|)), DotFooter);
  }

  lemma Framed(h: string, m: string, f: string)
    ensures h <= h + m + f
    ensures (h + m + f)[|h + m + f| - |f|..] == f
  {
    assert (h + m + f)[..|h|] == h;
  }

  /** The line vertex i contributes: its own when shown, none when hidden. */
  function ShownLine(ns: seq<Node>, printGates: bool, i: nat): string
    requires i < |ns|
  {
    if ShowsNode(ns[i], printGates) then NodeLine(i, ns[i]) else ""
  }

  /** One more vertex considered: its line is appended exactly when it is shown. */
  lemma NodeLinesNext(ns: seq<Node>, printGates: bool, i: nat)
    requires i < |ns|
    ensures NodeLines(ns, ShownNodes(ns, printGates, i + 1)) == NodeLines(ns, ShownNodes(ns, printGates, i)) + ShownLine(ns, printGates, i)
  {
    var shown := ShownNodes(ns, printGates, i);
    if ShowsNode(ns[i], printGates) {
      assert ShownNodes(ns, printGates, i + 1) == shown + [i];
      NodeLinesStep(ns, shown, i);
    } else {
      assert ShownNodes(ns, printGates, i + 1) == shown;
    }
  }

  lemma NodeLinesStep(ns: seq<Node>, idx: seq<nat>, i: nat)
    requires i < |ns| && forall t :: 0 <= t < |idx| ==> idx[t] < |ns|
    ensures NodeLines(ns, idx + [i]) == NodeLines(ns, idx) + NodeLine(i, ns[i])
  {
    assert (idx + [i])[..|idx|] == idx;
  }

  lemma {:induction false} LinesConcat<T>(xs: seq<T>, ys: seq<T>, line: T -> string)
    ensures Lines(xs + ys, line) == Lines(xs, line) + Lines(ys, line)
    decreases |ys|
  {
    if |ys| == 0 {
      assert xs + ys == xs;
    } else {
      assert (xs + ys)[..|xs + ys| - 1] == xs + ys[..|ys| - 1];
      LinesConcat(xs, ys[..|ys| - 1], line);
    }
  }

  lemma LinesSnoc<T>(xs: seq<T>, x: T, line: T -> string)
    ensures Lines(xs + [x], line) == Lines(xs, line) + line(x)
  {
    assert (xs + [x])[..|xs|] == xs;
  }

  /** One turn of the vertex loop: vertex i's line, or nothing for a gate when gates are hidden. */
  method NodeStep(ns: seq<Node>, printGates: bool, i: nat) returns (line: string)
    requires i < |ns|
    ensures line == ShownLine(ns, printGates, i)
  {
    line := "";
    if ns[i].typ == NodeNode || printGates {
      line := EmitNode(i, ns[i]);
    }
  }

  method EmitNode(i: nat, node: Node) returns (out: string)
    ensures out == NodeLine(i, node)
  {
    out := NodeHead(i, node);
    if node.attributes.Some? {
      out := out + NodeAttrs(node);
    }
    out := out + NodeTail;
  }

  /** The three fprintf calls of one edge line. */
  method EmitEdge(i: nat, e: Edge) returns (out: string)
    ensures out == EdgeLineOf((i, e))
  {
    out := EdgeHead(i, e);
    if e.attributes.Some? {
      out := out + EdgeAttrs(e);
    }
    out := out + EdgeTail;
  }

  /** The vertex lines of topologies_graph_print: one pass over the vertices. */
  method NodeText(ns: seq<Node>, printGates: bool) returns (out: string)
    ensures out == NodeLines(ns, ShownNodes(ns, printGates, |ns|))
  {
    out := "";
    var i := 0;
    while i < |ns|
      invariant 0 <= i <= |ns|
      invariant out == NodeLines(ns, ShownNodes(ns, printGates, i))
    {
      var line := NodeStep(ns, printGates, i);
      NodeLinesNext(ns, printGates, i);
      out := out + line;
      i := i + 1;
    }
  }

  /** The edge lines of topologies_graph_print: each vertex's adjacency array in turn. */
  method EdgeText(ns: seq<Node>, printGates: bool) returns (out: string)
    requires WellFormed(ns)
    ensures out == EdgeLines(ShownEdges(ns, printGates, |ns|))
  {
    out := "";
    var i := 0;
    while i < |ns|
      invariant 0 <= i <= |ns|
      invariant out == EdgeLines(ShownEdges(ns, printGates, i))
    {
      var row := RowText(ns, printGates, i);
      EdgeLinesNext(ns, printGates, i);
      out := out + row;
      i := i + 1;
    }
  }

  lemma EdgeLinesNext(ns: seq<Node>, printGates: bool, i: nat)
    requires WellFormed(ns) && i < |ns|
    ensures EdgeLines(ShownEdges(ns, printGates, i + 1)) ==
      EdgeLines(ShownEdges(ns, printGates, i)) + EdgeLines(ShownRow(ns, printGates, i, |ns[i].adj|))
  {
    LinesConcat(ShownEdges(ns, printGates, i), ShownRow(ns, printGates, i, |ns[i].adj|), EdgeLineOf);
  }

  method RowText(ns: seq<Node>, printGates: bool, i: nat) returns (out: string)
    requires WellFormed(ns) && i < |ns|
    ensures out == EdgeLines(ShownRow(ns, printGates, i, |ns[i].adj|))
  {
    out := "";
    if ns[i].typ != NodeNode && !printGates {
      HiddenRowEmpty(ns, printGates, i, |ns[i].adj|);
      return;
    }
    assert NodeOk(ns[i], i, |ns|);
    var j := 0;
    while j < |ns[i].adj|
      invariant 0 <= j <= |ns[i].adj|
      invariant out == EdgeLines(ShownRow(ns, printGates, i, j))
    {
      var e := ns[i].adj[j];
      RowStep(ns, printGates, i, j);
      if i > e.n {
        assert ShownRow(ns, printGates, i, j + 1) == ShownRow(ns, printGates, i, j);
        j := j + 1;
        continue;
      }
      if !printGates && ns[e.n].typ != NodeNode {
        assert ShownRow(ns, printGates, i, j + 1) == ShownRow(ns, printGates, i, j);
        j := j + 1;
        continue;
      }
      var line := EmitEdge(i, e);
      ghost var row := ShownRow(ns, printGates, i, j);
      assert ShowsEdge(ns, i, j, printGates);
      assert ShownRow(ns, printGates, i, j + 1) == row + [(i, e)];
      LinesSnoc(row, (i, e), EdgeLineOf);
      out := out + line;
      j := j + 1;
    }
  }

  lemma RowStep(ns: seq<Node>, printGates: bool, i: nat, j: nat)
    requires WellFormed(ns) && i < |ns| && j < |ns[i].adj|
    ensures ShownRow(ns, printGates, i, j + 1) ==
      ShownRow(ns, printGates, i, j) + (if ShowsEdge(ns, i, j, printGates) then [(i, ns[i].adj[j])] else [])
  {
  }

  // ---- the measuring pass of topologies_graph_string

  /**
   * The first vertex loop of topologies_graph_string: the lengths
   * snprintf(0, 0, ...) reports for the header and each shown vertex's pieces.
   */
  method MeasureNodes(ns: seq<Node>, printGates: bool) returns (len: nat)
    ensures len == |DotHeader| + |NodeLines(ns, ShownNodes(ns, printGates, |ns|))|
  {
    len := |DotHeader|;
    var i := 0;
    while i < |ns|
      invariant 0 <= i <= |ns|
      invariant len == |DotHeader| + |NodeLines(ns, ShownNodes(ns, printGates, i))|
    {
      var n := MeasureNodeStep(ns, printGates, i);
      NodeLinesNext(ns, printGates, i);
      len := len + n;
      i := i + 1;
    }
  }

  /** One measuring turn of the vertex loop: vertex i's line length, or 0 for a hidden gate. */
  method MeasureNodeStep(ns: seq<Node>, printGates: bool, i: nat) returns (len: nat)
    requires i < |ns|
    ensures len == |ShownLine(ns, printGates, i)|
  {
    len := 0;
    if ns[i].typ == NodeNode || printGates {
      len := MeasureNode(i, ns[i]);
    }
  }

  /** The three snprintf(0, 0, ...) calls of one vertex line. */
  method MeasureNode(i: nat, node: Node) returns (len: nat)
    ensures len == |NodeLine(i, node)|
  {
    len := |NodeHead(i, node)|;
    if node.attributes.Some? {
      len := len + |NodeAttrs(node)|;
    }
    len := len + |NodeTail|;
  }

  /** The three snprintf(0, 0, ...) calls of one edge line. */
  method MeasureEdge(i: nat, e: Edge) returns (len: nat)
    ensures len == |EdgeLineOf((i, e))|
  {
    len := |EdgeHead(i, e)|;
    if e.attributes.Some? {
      len := len + |EdgeAttrs(e)|;
    }
    len := len + |EdgeTail|;
  }

  /** The measuring turn of the edge loop for vertex i: the lengths of its shown edge lines. */
  method MeasureRow(ns: seq<Node>, printGates: bool, i: nat) returns (len: nat)
    requires WellFormed(ns) && i < |ns|
    ensures len == |EdgeLines(ShownRow(ns, printGates, i, |ns[i].adj|))|
  {
    len := 0;
    if ns[i].typ != NodeNode && !printGates {
      HiddenRowEmpty(ns, printGates, i, |ns[i].adj|);
      return;
    }
    var j := 0;
    while j < |ns[i].adj|
      invariant 0 <= j <= |ns[i].adj|
      invariant len == |EdgeLines(ShownRow(ns, printGates, i, j))|
    {
      len := MeasureEdgeStep(ns, printGates, i, j, len);
      j := j + 1;
    }
  }

  /** The line the k-th adjacency entry of vertex i contributes: its own when shown, none otherwise. */
  function ShownEdgeLine(ns: seq<Node>, printGates: bool, i: nat, k: nat): string
    requires WellFormed(ns) && i < |ns| && k < |ns[i].adj|
  {
    if ShowsEdge(ns, i, k, printGates) then EdgeLineOf((i, ns[i].adj[k])) else ""
  }

  lemma RowLinesNext(ns: seq<Node>, printGates: bool, i: nat, k: nat)
    requires WellFormed(ns) && i < |ns| && k < |ns[i].adj|
    ensures EdgeLines(ShownRow(ns, printGates, i, k + 1)) == EdgeLines(ShownRow(ns, printGates, i, k)) + ShownEdgeLine(ns, printGates, i, k)
  {
    var row := ShownRow(ns, printGates, i, k);
    if ShowsEdge(ns, i, k, printGates) {
      assert ShownRow(ns, printGates, i, k + 1) == row + [(i, ns[i].adj[k])];
      LinesSnoc(row, (i, ns[i].adj[k]), EdgeLineOf);
    } else {
      assert ShownRow(ns, printGates, i, k + 1) == row;
    }
  }

  /** One measuring turn of the edge loop: the sum so far grows by the k-th entry's line length, or not at all when it is skipped. */
  method MeasureEdgeStep(ns: seq<Node>, printGates: bool, i: nat, k: nat, sum: nat) returns (len: nat)
    requires WellFormed(ns) && i < |ns| && k < |ns[i].adj| && ShowsNode(ns[i], printGates)
    requires sum == |EdgeLines(ShownRow(ns, printGates, i, k))|
    ensures len == |EdgeLines(ShownRow(ns, printGates, i, k + 1))|
  {
    RowLinesNext(ns, printGates, i, k);
    var e := ns[i].adj[k];
    assert NodeOk(ns[i], i, |ns|);
    if i > e.n {
      return sum;
    }
    if !printGates && ns[e.n].typ != NodeNode {
      return sum;
    }
    var n := MeasureEdge(i, e);
    len := sum + n;
  }

  /**
   * The whole measuring pass of topologies_graph_string: its sum is the
   * length of the DOT text the writing pass then produces.
   */
  method Measure(ns: seq<Node>, printGates: bool) returns (len: nat)
    requires WellFormed(ns)
    ensures len == |Dot(ns, printGates)|
  {
    len := MeasureNodes(ns, printGates);
    ghost var nodeLen := len;
    var i := 0;
    while i < |ns|
      invariant 0 <= i <= |ns|
      invariant len == nodeLen + |EdgeLines(ShownEdges(ns, printGates, i))|
    {
      var row := MeasureRow(ns, printGates, i);
      EdgeLinesNext(ns, printGates, i);
      len := len + row;
      i := i + 1;
    }
    len := len + |DotFooter|;
  }

  /** malloc(len + 1), then the written text and its NUL: the text must be len long. */
  method NulTerminated(len: nat, text: string) returns (buf: array<char>)
    requires |text| == len
    ensures fresh(buf)
    ensures buf.Length == len + 1 && buf[..len] == text && buf[len] == NUL
  {
    buf := new char[len + 1];
    var k := 0;
    while k < len
      invariant 0 <= k <= len
      invariant buf[..k] == text[..k]
    {
      buf[k] := text[k];
      k := k + 1;
    }
    buf[len] := NUL;
  }

  /** graph_are_adjacent: false for a missing vertex, else whether b's index is among a's neighbours. */
  method AreAdjacent(a: Option<Node>, b: Option<Node>) returns (r: bool)
    ensures r <==> a.Some? && b.Some? && b.value.n in Targets(a.value.adj)
  {
    if a.None? || b.None? {
      return false;
    }
    var adj := a.value.adj;
    var j := 0;
    while j < |adj|
      invariant 0 <= j <= |adj|
      invariant forall k :: 0 <= k < j ==> Targets(adj)[k] != b.value.n
    {
      if adj[j].n == b.value.n {
        return true;
      }
      j := j + 1;
    }
    return false;
  }

  /** On a well-formed store, graph_are_adjacent on vertices i and j agrees with Adjacent. */
  lemma AreAdjacentOnStore(ns: seq<Node>, i: nat, j: nat)
    requires WellFormed(ns) && i < |ns| && j < |ns|
    ensures ns[j].n in Targets(ns[i].adj) <==> Adjacent(ns, i, j)
  {
    assert NodeOk(ns[j], j, |ns|);
  }

  /**
   * graph_t: a growable array of vertices.  Allocation failures (TOP_E_ALLOC)
   * are not modelled.
   */
  class Graph {
    var nodes: seq<Node>
    var capNodes: nat

    ghost predicate Valid()
      reads this
    {
      |nodes| <= capNodes && capNodes % GRAPH_BLK_SIZE == 0 && WellFormed(nodes) && Reciprocal(nodes)
    }

    /** graph_create: no vertices, room for one block. */
    constructor ()
      ensures Valid()
      ensures nodes == [] && capNodes == GRAPH_BLK_SIZE
    {
      nodes := [];
      capNodes := GRAPH_BLK_SIZE;
    }

    /**
     * graph_add_node: appends a vertex with the given name, type and
     * attributes at index n_nodes, with an empty adjacency array of one
     * block; the vertex array grows by one block when full.
     */
    method AddNode(name: string, typ: NodeType, attrs: Option<string>)
      requires Valid()
      modifies this
      ensures Valid()
      ensures nodes == old(nodes) + [NewNode(|old(nodes)|, name, typ, attrs)]
      ensures capNodes == if |old(nodes)| == old(capNodes) then old(capNodes) + GRAPH_BLK_SIZE else old(capNodes)
    {
      var i := |nodes|;
      if i == capNodes {
        capNodes := capNodes + GRAPH_BLK_SIZE;
      }
      WithNodeFacts(nodes, name, typ, attrs);
      nodes := nodes + [NewNode(i, name, typ, attrs)];
    }

    /** graph_find_node: the lowest index of a vertex with this name, or -1. */
    method FindNode(name: string) returns (r: int)
      requires Valid()
      ensures r == IndexOf(nodes, name)
    {
      var i := 0;
      while i < |nodes|
        invariant 0 <= i <= |nodes|
        invariant forall k :: 0 <= k < i ==> nodes[k].name != name
      {
        if nodes[i].name == name {
          IndexOfFirst(nodes, name, i);
          return i;
        }
        i := i + 1;
      }
      return -1;
    }

    /**
     * graph_add_edge_id: TOP_E_CONN unless both ids name vertices (the
     * written check also lets n_nodes through, see EdgeIdsAcceptedAsWritten);
     * otherwise records b at a and a at b, both with the edge's attributes.
     */
    method AddEdgeId(a: int, b: int, attr: Option<string>) returns (r: int)
      requires Valid()
      modifies this
      ensures Valid()
      ensures r == 0 || r == TOP_E_CONN
      ensures r == TOP_E_CONN <==> !EdgeIdsValid(|old(nodes)|, a, b)
      ensures r == TOP_E_CONN <==> !EdgeIdsAcceptedAsWritten(|old(nodes)|, a, b) || a == |old(nodes)| || b == |old(nodes)|
      ensures r == TOP_E_CONN ==> nodes == old(nodes)
      ensures r == 0 ==> nodes == WithEdge(old(nodes), a, b, attr)
      ensures capNodes == old(capNodes)
    {
      if !EdgeIdsValid(|nodes|, a, b) {
        return TOP_E_CONN;
      }
      WithEdgeFacts(nodes, a, b, attr);
      var nodeA := nodes[a];
      nodes := nodes[a := Append(nodeA, Edge(nodes[b].n, attr))];
      var nodeB := nodes[b];
      nodes := nodes[b := Append(nodeB, Edge(nodes[a].n, attr))];
      r := 0;
    }

    /** graph_add_edge_name: TOP_E_CONN when either name is unknown, else an edge between the first matches. */
    method AddEdgeName(nameA: string, nameB: string, attr: Option<string>) returns (r: int)
      requires Valid()
      modifies this
      ensures Valid()
      ensures r == 0 || r == TOP_E_CONN
      ensures r == TOP_E_CONN <==> IndexOf(old(nodes), nameA) < 0 || IndexOf(old(nodes), nameB) < 0
      ensures r == TOP_E_CONN ==> nodes == old(nodes)
      ensures r == 0 ==> nodes == WithEdge(old(nodes), IndexOf(old(nodes), nameA), IndexOf(old(nodes), nameB), attr)
      ensures capNodes == old(capNodes)
    {
      var a := FindNode(nameA);
      var b := FindNode(nameB);
      if a < 0 {
        return TOP_E_CONN;
      }
      if b < 0 {
        return TOP_E_CONN;
      }
      r := AddEdgeId(a, b, attr);
    }

    /** topologies_graph_print: the DOT text, written piece by piece to the stream. */
    method Print(printGates: bool) returns (out: string)
      requires Valid()
      ensures out == Dot(nodes, printGates)
    {
      var nodeText := NodeText(nodes, printGates);
      var edgeText := EdgeText(nodes, printGates);
      out := DotHeader + nodeText + edgeText;
      out := out + DotFooter;
    }

    /**
     * topologies_graph_string: a buffer sized by the measuring pass, then
     * the same text as Print written into it, and a NUL.
     */
    method ToText(printGates: bool) returns (buf: array<char>)
      requires Valid()
      ensures fresh(buf)
      ensures buf.Length == |Dot(nodes, printGates)| + 1
      ensures buf[..buf.Length - 1] == Dot(nodes, printGates) && buf[buf.Length - 1] == NUL
    {
      var len := Measure(nodes, printGates);
      var text := Print(printGates);
      buf := NulTerminated(len, text);
    }
  }
}
