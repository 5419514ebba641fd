/**
 * Compaction of an expanded graph (topologies_graph_compact and
 * graph_find_end_and_mark in src/topologies.c).
 *
 * Phase one walks from every entity (NODE_NODE) along each chain of gate
 * vertices, marking the gates it passes NODE_GATE_VISITED, and joins the
 * vertex the walk ends on to the entity unless the two are already
 * adjacent.  Phase two copies into a fresh graph every vertex that is not
 * marked and has a neighbour, in order; phase three copies every edge
 * i--t with i < t between two unmarked vertices, looking both ends up by
 * name in the fresh graph.
 */
module Compaction {
  import opened Basics
  import opened Errors
  import opened GraphStore

  /** The number of vertices still typed NODE_GATE: what every walk step uses up. */
  function GateCount(ns: seq<Node>): nat
  {
    if |ns| == 0 then 0 else GateCount(ns[..|ns| - 1]) + (if ns[|ns| - 1].typ == NodeGate then 1 else 0)
  }

  /** The vertices with x's type rewritten to NODE_GATE_VISITED. */
  function Mark(ns: seq<Node>, x: int): seq<Node>
    requires 0 <= x < |ns|
  {
    ns[x := ns[x].(typ := NodeGateVisited)]
  }

  /** ms is ns with some non-entity vertices marked visited, and nothing else changed. */
  ghost predicate Marked(ns: seq<Node>, ms: seq<Node>)
  {
    |ns| == |ms| &&
    forall i :: 0 <= i < |ns| ==>
      ms[i] == ns[i] || (ns[i].typ != NodeNode && ms[i] == ns[i].(typ := NodeGateVisited))
  }

  /** Marking a vertex uses up one gate exactly when the vertex was a gate. */
  lemma {:induction false} MarkCount(ns: seq<Node>, x: int)
    requires 0 <= x < |ns|
    ensures GateCount(Mark(ns, x)) == GateCount(ns) - (if ns[x].typ == NodeGate then 1 else 0)
  {
    var m := Mark(ns, x);
    if x == |ns| - 1 {
      assert m[..|m| - 1] == ns[..|ns| - 1];
    } else {
      assert m[..|m| - 1] == Mark(ns[..|ns| - 1], x);
      MarkCount(ns[..|ns| - 1], x);
    }
  }

  /** Vertices of the same types hold the same number of gates. */
  lemma {:induction false} SameTypesCount(ns: seq<Node>, ms: seq<Node>)
    requires |ns| == |ms| && forall i :: 0 <= i < |ns| ==> ms[i].typ == ns[i].typ
    ensures GateCount(ms) == GateCount(ns)
  {
    if |ns| > 0 {
      SameTypesCount(ns[..|ns| - 1], ms[..|ms| - 1]);
    }
  }

  /** Marking changes no adjacency, so the store stays well formed and reciprocal. */
  lemma MarkedStore(ns: seq<Node>, ms: seq<Node>)
    requires WellFormed(ns) && Reciprocal(ns) && Marked(ns, ms)
    ensures WellFormed(ms) && Reciprocal(ms)
  {
    forall i | 0 <= i < |ms|
      ensures NodeOk(ms[i], i, |ms|)
    {
      assert NodeOk(ns[i], i, |ns|);
    }
    forall i, k | 0 <= i < |ms| && 0 <= k < |ms[i].adj|
      ensures i in Targets(ms[ms[i].adj[k].n].adj)
    {
      assert ms[i].adj == ns[i].adj;
      assert NodeOk(ns[i], i, |ns|);
      var t := ns[i].adj[k].n;
      assert ms[t].adj == ns[t].adj;
    }
  }

  lemma MarkedTrans(ns: seq<Node>, ms: seq<Node>, ls: seq<Node>)
    requires Marked(ns, ms) && Marked(ms, ls)
    ensures Marked(ns, ls)
  {
  }

  lemma MarkIsMarked(ns: seq<Node>, x: int)
    requires 0 <= x < |ns| && ns[x].typ != NodeNode
    ensures Marked(ns, Mark(ns, x))
  {
  }

  /** A neighbour of x has x among its own neighbours, so it has at least one. */
  lemma NeighbourHasNeighbour(ns: seq<Node>, x: int, k: int)
    requires WellFormed(ns) && Reciprocal(ns) && 0 <= x < |ns| && 0 <= k < |ns[x].adj|
    ensures 0 <= ns[x].adj[k].n < |ns| && |ns[ns[x].adj[k].n].adj| >= 1
    ensures x in Targets(ns[ns[x].adj[k].n].adj)
  {
    assert NodeOk(ns[x], x, |ns|);
  }

  /** What graph_find_end_and_mark leaves: its status, the vertices and the end of the chain. */
  datatype Walked = Walked(code: int, ns: seq<Node>, end: int)

  /** One turn of the walk: it either stops with its outcome or moves on to another vertex. */
  datatype Move = Stop(w: Walked) | Go(ns: seq<Node>, to: int)

  /** The measure a walk from x uses up: two per remaining gate, less one while x is itself a gate. */
  function WalkRank(ns: seq<Node>, x: int): int
    requires 0 <= x < |ns|
  {
    2 * GateCount(ns) - (if ns[x].typ == NodeGate then 1 else 0)
  }

  /** Stepping from x, once marked, to a gate y lowers the measure, which stays non-negative. */
  lemma GoRank(ns: seq<Node>, x: int, y: int)
    requires 0 <= x < |ns| && 0 <= y < |ns| && ns[y].typ == NodeGate
    ensures 0 <= WalkRank(Mark(ns, x), y) < WalkRank(ns, x)
  {
    MarkCount(ns, x);
    if y != x {
      MarkCount(Mark(ns, x), y);
    }
  }

  /** Leaving x, marked, for its k-th neighbour, a gate. */
  function GoTo(ns: seq<Node>, x: int, k: int): (m: Move)
    requires WellFormed(ns) && Reciprocal(ns)
    requires 0 <= x < |ns| && ns[x].typ != NodeNode && 0 <= k < |ns[x].adj|
    requires ns[ns[x].adj[k].n].typ == NodeGate
    ensures m.Go? && m.ns == Mark(ns, x) && Marked(ns, m.ns) && m.to == ns[x].adj[k].n && 0 <= m.to < |ns|
    ensures |m.ns[m.to].adj| >= 1 && m.ns[m.to].typ != NodeNode
    ensures 0 <= WalkRank(m.ns, m.to) < WalkRank(ns, x)
  {
    GoToFacts(ns, x, k);
    Go(Mark(ns, x), ns[x].adj[k].n)
  }

  lemma GoToFacts(ns: seq<Node>, x: int, k: int)
    requires WellFormed(ns) && Reciprocal(ns)
    requires 0 <= x < |ns| && ns[x].typ != NodeNode && 0 <= k < |ns[x].adj|
    requires ns[ns[x].adj[k].n].typ == NodeGate
    ensures var y := ns[x].adj[k].n; var ms := Mark(ns, x);
      Marked(ns, ms) && 0 <= y < |ns| && |ms[y].adj| >= 1 && ms[y].typ != NodeNode &&
      0 <= WalkRank(ms, y) < WalkRank(ns, x)
  {
    var y := ns[x].adj[k].n;
    NeighbourHasNeighbour(ns, x, k);
    GoRank(ns, x, y);
    MarkIsMarked(ns, x);
  }

  /** Ending the walk at x's k-th neighbour, x marked. */
  function EndAt(ns: seq<Node>, x: int, k: int): (m: Move)
    requires WellFormed(ns) && 0 <= x < |ns| && ns[x].typ != NodeNode && 0 <= k < |ns[x].adj|
    ensures m.Stop? && m.w == Walked(0, Mark(ns, x), ns[x].adj[k].n)
    ensures Marked(ns, m.w.ns) && 0 <= m.w.end < |ns|
    ensures ns[x].typ == NodeGate ==> GateCount(m.w.ns) < GateCount(ns)
    ensures GateCount(m.w.ns) <= GateCount(ns)
  {
    assert NodeOk(ns[x], x, |ns|);
    MarkCount(ns, x);
    MarkIsMarked(ns, x);
    Stop(Walked(0, Mark(ns, x), ns[x].adj[k].n))
  }

  /**
   * What every turn of the walk at x guarantees.  A stop has status 0 or
   * TOP_E_BADGATE, only marks, and ends at a vertex; TOP_E_BADGATE changes
   * nothing and ends at x, which has more than two neighbours; a stop at a
   * gate uses it up unless nothing changed and the walk ends on x.  A move
   * marks x and goes to a non-entity with a neighbour, lowering WalkRank.
   */
  ghost predicate Sound(ns: seq<Node>, x: int, m: Move)
    requires 0 <= x < |ns|
  {
    match m
    case Stop(w) =>
      (w.code == 0 || w.code == TOP_E_BADGATE) && Marked(ns, w.ns) && 0 <= w.end < |ns| &&
      (w.code == TOP_E_BADGATE ==> w.ns == ns && w.end == x && |ns[x].adj| > 2) &&
      (ns[x].typ == NodeGate ==> GateCount(w.ns) < GateCount(ns) || (w.ns == ns && w.end == x)) &&
      GateCount(w.ns) <= GateCount(ns)
    case Go(ms, to) =>
      ms == Mark(ns, x) && Marked(ns, ms) && 0 <= to < |ns| &&
      |ms[to].adj| >= 1 && ms[to].typ != NodeNode && 0 <= WalkRank(ms, to) < WalkRank(ns, x)
  }

  /**
   * One turn of graph_find_end_and_mark's loop at x, entered from the
   * entity prev: a non-entity with more than two neighbours stops the walk
   * with TOP_E_BADGATE; otherwise Follow.
   */
  function Turn(ns: seq<Node>, prev: int, x: int): (m: Move)
    requires WellFormed(ns) && Reciprocal(ns)
    requires 0 <= x < |ns| && |ns[x].adj| >= 1 && ns[x].typ != NodeNode
    ensures Sound(ns, x, m)
    ensures m.Stop? && m.w.code == TOP_E_BADGATE <==> |ns[x].adj| > 2
  {
    if ns[x].typ != NodeNode && |ns[x].adj| > 2 then Stop(Walked(TOP_E_BADGATE, ns, x))
    else Follow(ns, prev, x)
  }

  /**
   * A turn at a vertex with one or two neighbours: the first neighbour
   * decides.  A gate is stepped to; an entity other than prev ends the
   * walk there; otherwise Second.  Every vertex left is marked visited.
   */
  function Follow(ns: seq<Node>, prev: int, x: int): (m: Move)
    requires WellFormed(ns) && Reciprocal(ns)
    requires 0 <= x < |ns| && 1 <= |ns[x].adj| <= 2 && ns[x].typ != NodeNode
    ensures Sound(ns, x, m) && !(m.Stop? && m.w.code == TOP_E_BADGATE)
  {
    assert NodeOk(ns[x], x, |ns|);
    var a0 := ns[x].adj[0].n;
    if ns[a0].typ == NodeGate then GoTo(ns, x, 0)
    else if ns[a0].typ == NodeNode && a0 != prev then EndAt(ns, x, 0)
    else Second(ns, x)
  }

  /**
   * A turn whose first neighbour is prev or a marked vertex: a vertex with
   * one neighbour ends the walk on itself, unmarked; else the second
   * neighbour is stepped to when it is a gate and ends the walk otherwise.
   */
  function Second(ns: seq<Node>, x: int): (m: Move)
    requires WellFormed(ns) && Reciprocal(ns)
    requires 0 <= x < |ns| && 1 <= |ns[x].adj| <= 2 && ns[x].typ != NodeNode
    ensures Sound(ns, x, m) && !(m.Stop? && m.w.code == TOP_E_BADGATE)
  {
    assert NodeOk(ns[x], x, |ns|);
    if |ns[x].adj| == 1 then Stop(Walked(0, ns, x))
    else if ns[ns[x].adj[1].n].typ == NodeGate then GoTo(ns, x, 1)
    else EndAt(ns, x, 1)
  }

  /**
   * graph_find_end_and_mark from x, entered from the entity prev: turns
   * until one stops.  prev is never updated, so it is the marks that keep
   * the walk from turning back.
   */
  function Walk(ns: seq<Node>, prev: int, x: int): (r: Walked)
    requires WellFormed(ns) && Reciprocal(ns)
    requires 0 <= x < |ns| && |ns[x].adj| >= 1 && ns[x].typ != NodeNode
    ensures r.code == 0 || r.code == TOP_E_BADGATE
    ensures Marked(ns, r.ns) && WellFormed(r.ns) && Reciprocal(r.ns) && 0 <= r.end < |ns|
    ensures r.code == TOP_E_BADGATE ==> r.ns[r.end].typ != NodeNode && |r.ns[r.end].adj| > 2
    ensures ns[x].typ == NodeGate ==> GateCount(r.ns) < GateCount(ns) || (r.ns == ns && r.end == x)
    ensures GateCount(r.ns) <= GateCount(ns)
    decreases WalkRank(ns, x)
  {
    match Turn(ns, prev, x)
    case Stop(w) =>
      MarkedStore(ns, w.ns);
      w
    case Go(marked, to) =>
      MarkedStore(ns, marked);
      var r := Walk(marked, prev, to);
      MarkedTrans(ns, marked, r.ns);
      MarkCount(ns, x);
      r
  }

  /** A compaction outcome: the status and the vertices it leaves. */
  datatype Compacted = Compacted(code: int, ns: seq<Node>)

  /** The turns of phase one left for vertex i: its adjacency from j on, while i is an entity. */
  function Pending(ns: seq<Node>, i: nat, j: nat): nat
  {
    if i < |ns| && ns[i].typ == NodeNode && j < |ns[i].adj| then |ns[i].adj| - j else 0
  }

  /**
   * One turn of phase one at entity i's j-th neighbour.  Nothing happens
   * unless that neighbour is a gate; then the walk from it, and, when the
   * walk succeeds, the end of the chain is joined to i unless it already
   * has i as a neighbour.  A failing walk gives its status and the
   * vertices as it left them.
   */
  function Visit(ns: seq<Node>, i: nat, j: nat): (r: Compacted)
    requires WellFormed(ns) && Reciprocal(ns) && i < |ns| && ns[i].typ == NodeNode && j < |ns[i].adj|
    ensures r.code == 0 || r.code == TOP_E_BADGATE
    ensures |r.ns| == |ns| && WellFormed(r.ns) && Reciprocal(r.ns)
    ensures r.code == 0 ==> r.ns[i].typ == NodeNode
    ensures r.code == 0 ==> GateCount(r.ns) < GateCount(ns) || (GateCount(r.ns) == GateCount(ns) && |r.ns[i].adj| == |ns[i].adj|)
  {
    NeighbourHasNeighbour(ns, i, j);
    if ns[ns[i].adj[j].n].typ != NodeGate then Compacted(0, ns)
    else
    var w := Walk(ns, i, ns[i].adj[j].n);
    if w.code != 0 then Compacted(w.code, w.ns)
    else if Adjacent(w.ns, w.end, i) then
      UnchangedOrUsed(ns, i, j, w);
      Compacted(0, w.ns)
    else
      JoinFacts(w.ns, w.end, i);
      UnchangedOrUsed(ns, i, j, w);
      Compacted(0, WithEdge(w.ns, w.end, i, None))
  }

  /** A walk that uses up no gate changes nothing and ends where it began, next to i. */
  lemma UnchangedOrUsed(ns: seq<Node>, i: nat, j: nat, w: Walked)
    requires WellFormed(ns) && Reciprocal(ns) && i < |ns| && ns[i].typ == NodeNode && j < |ns[i].adj|
    requires 0 <= ns[i].adj[j].n < |ns| && ns[ns[i].adj[j].n].typ == NodeGate
    requires |ns[ns[i].adj[j].n].adj| >= 1
    requires w == Walk(ns, i, ns[i].adj[j].n) && w.code == 0
    ensures w.ns[i].typ == NodeNode
    ensures GateCount(w.ns) < GateCount(ns) || (w.ns == ns && Adjacent(w.ns, w.end, i))
  {
    if GateCount(w.ns) == GateCount(ns) {
      NeighbourHasNeighbour(ns, i, j);
    }
  }

  /** Joining the end e of a chain to i keeps the store sound, i's type, and the gates. */
  lemma JoinFacts(ns: seq<Node>, e: int, i: nat)
    requires WellFormed(ns) && Reciprocal(ns) && 0 <= e < |ns| && i < |ns|
    ensures var ms := WithEdge(ns, e, i, None);
      |ms| == |ns| && WellFormed(ms) && Reciprocal(ms) && ms[i].typ == ns[i].typ &&
      GateCount(ms) == GateCount(ns) && SameVertices(ns, ms)
  {
    WithEdgeFacts(ns, e, i, None);
    SameTypesCount(ns, WithEdge(ns, e, i, None));
  }

  /** Where phase one goes after one turn: it has finished, or resumes at vertex i, neighbour j. */
  datatype Next = Finished(r: Compacted) | Resume(ns: seq<Node>, i: nat, j: nat)

  /**
   * Phase one resuming at ms, vertex i', neighbour j' has come closer to
   * its end than at ns, i, j: the next vertex, one gate fewer, or one
   * neighbour fewer left to visit.
   */
  predicate Progressed(ns: seq<Node>, i: nat, j: nat, ms: seq<Node>, i': nat, j': nat)
  {
    i' == i + 1 || (i' == i && GateCount(ms) < GateCount(ns)) ||
    (i' == i && GateCount(ms) == GateCount(ns) && Pending(ms, i, j') < Pending(ns, i, j))
  }

  /**
   * One turn of phase one at vertex i, neighbour j: past the end of an
   * entity's adjacency, or at a vertex that is not an entity, go on with
   * the next vertex; otherwise Visit, and go on with the next neighbour
   * unless the visit failed.
   */
  function Advance(ns: seq<Node>, i: nat, j: nat): (a: Next)
    requires WellFormed(ns) && Reciprocal(ns) && i < |ns|
    ensures a.Finished? ==> a.r.code == TOP_E_BADGATE && |a.r.ns| == |ns| && WellFormed(a.r.ns) && Reciprocal(a.r.ns)
    ensures a.Resume? ==> |a.ns| == |ns| && WellFormed(a.ns) && Reciprocal(a.ns) && a.i <= |ns|
    ensures a.Resume? ==> Progressed(ns, i, j, a.ns, a.i, a.j)
  {
    if ns[i].typ != NodeNode || j >= |ns[i].adj| then Resume(ns, i + 1, 0)
    else
      var v := Visit(ns, i, j);
      if v.code != 0 then Finished(v)
      else
        VisitAdvances(ns, i, j, v);
        Resume(v.ns, i, j + 1)
  }

  /** A successful visit uses up a gate, or leaves fewer neighbours of i to visit. */
  lemma VisitAdvances(ns: seq<Node>, i: nat, j: nat, v: Compacted)
    requires WellFormed(ns) && Reciprocal(ns) && i < |ns| && ns[i].typ == NodeNode && j < |ns[i].adj|
    requires v == Visit(ns, i, j) && v.code == 0
    ensures GateCount(v.ns) < GateCount(ns) || (GateCount(v.ns) == GateCount(ns) && Pending(v.ns, i, j + 1) < Pending(ns, i, j))
  {
  }

  /**
   * Phase one of topologies_graph_compact from vertex i's j-th neighbour
   * on: every gate neighbour of every entity gets a turn (Visit), and a
   * failing turn stops phase one.  The adjacency of i is re-read at every
   * turn, so a neighbour a turn adds is visited too.
   */
  function Phase1(ns: seq<Node>, i: nat, j: nat): (r: Compacted)
    requires WellFormed(ns) && Reciprocal(ns) && i <= |ns|
    ensures r.code == 0 || r.code == TOP_E_BADGATE
    ensures |r.ns| == |ns| && WellFormed(r.ns) && Reciprocal(r.ns)
    decreases |ns| - i, GateCount(ns), Pending(ns, i, j)
  {
    if i == |ns| then Compacted(0, ns)
    else
      match Advance(ns, i, j)
      case Finished(r) => r
      case Resume(ns', i', j') => Phase1(ns', i', j')
  }

  /** Phase one past the last vertex leaves the vertices as they are. */
  lemma Phase1Done(ns: seq<Node>)
    requires WellFormed(ns) && Reciprocal(ns)
    ensures Phase1(ns, |ns|, 0) == Compacted(0, ns)
  {
  }

  /** Phase one skips a vertex that is not an entity, and an entity whose neighbours are all done. */
  lemma Phase1Skip(ns: seq<Node>, i: nat, j: nat)
    requires WellFormed(ns) && Reciprocal(ns) && i < |ns|
    requires ns[i].typ != NodeNode || j >= |ns[i].adj|
    ensures Phase1(ns, i, j) == Phase1(ns, i + 1, 0)
  {
    assert Advance(ns, i, j) == Resume(ns, i + 1, 0);
  }

  /** Phase one at an entity's j-th neighbour is a Visit, then the next neighbour unless it failed. */
  lemma Phase1Visit(ns: seq<Node>, i: nat, j: nat)
    requires WellFormed(ns) && Reciprocal(ns) && i < |ns| && ns[i].typ == NodeNode && j < |ns[i].adj|
    ensures var v := Visit(ns, i, j);
      (v.code != 0 ==> Phase1(ns, i, j) == v) &&
      (v.code == 0 ==> Phase1(ns, i, j) == Phase1(v.ns, i, j + 1) && v.ns[i].typ == NodeNode) &&
      (v.code == 0 ==>
        GateCount(v.ns) < GateCount(ns) ||
        (GateCount(v.ns) == GateCount(ns) && Pending(v.ns, i, j + 1) < Pending(ns, i, j)))
  {
    var v := Visit(ns, i, j);
    if v.code != 0 {
      assert Advance(ns, i, j) == Finished(v);
    } else {
      assert Advance(ns, i, j) == Resume(v.ns, i, j + 1);
      VisitAdvances(ns, i, j, v);
    }
  }

  /** A vertex phase two keeps: not marked visited, and with a neighbour. */
  predicate Kept(node: Node)
  {
    node.typ != NodeGateVisited && |node.adj| > 0
  }

  /** The indices below m of the vertices phase two keeps, ascending. */
  function KeptIndices(ns: seq<Node>, m: nat): (r: seq<nat>)
    requires m <= |ns|
    ensures forall k :: 0 <= k < |r| ==> r[k] < m && Kept(ns[r[k]])
    ensures forall a, b :: 0 <= a < b < |r| ==> r[a] < r[b]
    ensures forall i :: 0 <= i < m && Kept(ns[i]) ==> i in r
  {
    if m == 0 then []
    else
      var r := KeptIndices(ns, m - 1);
      if Kept(ns[m - 1]) then r + [m - 1] else r
  }

  /** Phase two after the first m vertices: a fresh graph of their kept vertices, without attributes or edges. */
  function Keep(ns: seq<Node>, m: nat): (r: seq<Node>)
    requires m <= |ns|
    ensures |r| <= m
  {
    if m == 0 then []
    else
      var r := Keep(ns, m - 1);
      if Kept(ns[m - 1]) then r + [NewNode(|r|, ns[m - 1].name, ns[m - 1].typ, None)] else r
  }

  /** Phase two at vertex m: it is appended when kept. */
  lemma KeepNext(ns: seq<Node>, m: nat)
    requires m < |ns|
    ensures Keep(ns, m + 1) ==
      if Kept(ns[m]) then Keep(ns, m) + [NewNode(|Keep(ns, m)|, ns[m].name, ns[m].typ, None)] else Keep(ns, m)
  {
  }

  /** Phase two keeps exactly the vertices KeptIndices names, in order, renumbered and without edges or attributes. */
  lemma {:induction false} KeepIsKept(ns: seq<Node>, m: nat)
    requires m <= |ns|
    ensures |Keep(ns, m)| == |KeptIndices(ns, m)|
    ensures forall k :: 0 <= k < |Keep(ns, m)| ==>
      Keep(ns, m)[k] == NewNode(k, ns[KeptIndices(ns, m)[k]].name, ns[KeptIndices(ns, m)[k]].typ, None)
  {
    if m > 0 {
      KeepIsKept(ns, m - 1);
    }
  }

  /** The vertices phase two keeps make a well-formed store without edges. */
  lemma KeepStore(ns: seq<Node>, m: nat)
    requires m <= |ns|
    ensures WellFormed(Keep(ns, m)) && Reciprocal(Keep(ns, m))
  {
    KeepIsKept(ns, m);
    NoEdgesStore(Keep(ns, m));
  }

  /** A store whose vertices have no edges is well formed and reciprocal. */
  lemma NoEdgesStore(ms: seq<Node>)
    requires forall k :: 0 <= k < |ms| ==> ms[k] == NewNode(k, ms[k].name, ms[k].typ, None)
    ensures WellFormed(ms) && Reciprocal(ms)
  {
    forall k | 0 <= k < |ms|
      ensures NodeOk(ms[k], k, |ms|)
    {
      assert ms[k].adj == [];
    }
  }

  /** The turns of phase three left: vertex i's adjacency from j on. */
  function Remaining(ns: seq<Node>, i: nat, j: nat): nat
  {
    if i < |ns| && j < |ns[i].adj| then |ns[i].adj| - j else 0
  }

  /**
   * One turn of phase three at vertex i's j-th neighbour t: an edge i--t
   * with i < t between two unmarked vertices is added to ms between the
   * first vertices of ms with their names; graph_add_edge_id refuses, and
   * ms stays as it is, when a name is missing.
   */
  function LinkEdge(ns: seq<Node>, ms: seq<Node>, i: nat, j: nat): (r: seq<Node>)
    requires WellFormed(ns) && WellFormed(ms) && Reciprocal(ms) && i < |ns| && j < |ns[i].adj|
    ensures SameVertices(ms, r) && WellFormed(r) && Reciprocal(r)
    ensures forall x :: 0 <= x < |ms| ==> ms[x].adj <= r[x].adj
  {
    assert NodeOk(ns[i], i, |ns|);
    var t := ns[i].adj[j].n;
    if ns[i].typ == NodeGateVisited || t <= i || ns[t].typ == NodeGateVisited then ms
    else
      var a := IndexOf(ms, ns[i].name);
      var b := IndexOf(ms, ns[t].name);
      if EdgeIdsValid(|ms|, a, b) then
        WithEdgeFacts(ms, a, b, None);
        WithEdge(ms, a, b, None)
      else ms
  }

  /** Phase three from vertex i's j-th neighbour on: LinkEdge for every neighbour of every unmarked vertex. */
  function Link(ns: seq<Node>, ms: seq<Node>, i: nat, j: nat): (r: seq<Node>)
    requires WellFormed(ns) && WellFormed(ms) && Reciprocal(ms) && i <= |ns|
    ensures SameVertices(ms, r) && WellFormed(r) && Reciprocal(r)
    ensures forall x :: 0 <= x < |ms| ==> ms[x].adj <= r[x].adj
    decreases |ns| - i, Remaining(ns, i, j)
  {
    if i == |ns| then ms
    else if ns[i].typ == NodeGateVisited || j >= |ns[i].adj| then Link(ns, ms, i + 1, 0)
    else
      var m := LinkEdge(ns, ms, i, j);
      var r := Link(ns, m, i, j + 1);
      GrowChain(ms, m, r);
      r
  }

  /** Two steps that keep the vertices and only append to adjacencies compose into one. */
  lemma GrowChain(ms: seq<Node>, m: seq<Node>, r: seq<Node>)
    requires SameVertices(ms, m) && SameVertices(m, r)
    requires forall x :: 0 <= x < |ms| ==> ms[x].adj <= m[x].adj
    requires forall x :: 0 <= x < |m| ==> m[x].adj <= r[x].adj
    ensures SameVertices(ms, r)
    ensures forall x :: 0 <= x < |ms| ==> ms[x].adj <= r[x].adj
  {
  }

  /** Phase three past the last vertex adds nothing. */
  lemma LinkDone(ns: seq<Node>, ms: seq<Node>)
    requires WellFormed(ns) && WellFormed(ms) && Reciprocal(ms)
    ensures Link(ns, ms, |ns|, 0) == ms
  {
  }

  /** Phase three skips a marked vertex, and a vertex whose neighbours are all done. */
  lemma LinkSkip(ns: seq<Node>, ms: seq<Node>, i: nat, j: nat)
    requires WellFormed(ns) && WellFormed(ms) && Reciprocal(ms) && i < |ns|
    requires ns[i].typ == NodeGateVisited || j >= |ns[i].adj|
    ensures Link(ns, ms, i, j) == Link(ns, ms, i + 1, 0)
  {
  }

  /** Phase three at an unmarked vertex's j-th neighbour is a LinkEdge, then the next neighbour. */
  lemma LinkStep(ns: seq<Node>, ms: seq<Node>, i: nat, j: nat)
    requires WellFormed(ns) && WellFormed(ms) && Reciprocal(ms) && i < |ns|
    requires ns[i].typ != NodeGateVisited && j < |ns[i].adj|
    ensures Link(ns, ms, i, j) == Link(ns, LinkEdge(ns, ms, i, j), i, j + 1)
  {
  }

  /** topologies_graph_compact: phase one, then the fresh graph of phases two and three. */
  function Compact(ns: seq<Node>): (r: Compacted)
    requires WellFormed(ns) && Reciprocal(ns)
    ensures WellFormed(r.ns) && Reciprocal(r.ns)
  {
    var p := Phase1(ns, 0, 0);
    if p.code != 0 then p
    else
      var kept := Keep(p.ns, |p.ns|);
      KeepStore(p.ns, |p.ns|);
      Compacted(0, Link(p.ns, kept, 0, 0))
  }

  // ----- what phase one joins and what phase three copies -----

  /** The vertices keep their names, in the same places. */
  ghost predicate SameNames(ns: seq<Node>, ms: seq<Node>)
  {
    |ns| == |ms| && forall k :: 0 <= k < |ns| ==> ms[k].name == ns[k].name
  }

  /** Marking keeps every name in its place. */
  lemma {:induction false} MarkedNames(ns: seq<Node>, ms: seq<Node>)
    requires Marked(ns, ms)
    ensures SameNames(ns, ms)
  {
    forall k | 0 <= k < |ns|
      ensures ms[k].name == ns[k].name
    {
    }
  }

  /** Names kept in place are kept in place through two steps. */
  lemma {:induction false} SameNamesTrans(ns: seq<Node>, ms: seq<Node>, ls: seq<Node>)
    requires SameNames(ns, ms) && SameNames(ms, ls)
    ensures SameNames(ns, ls)
  {
    forall k | 0 <= k < |ns|
      ensures ls[k].name == ns[k].name
    {
      assert ms[k].name == ns[k].name;
    }
  }

  /** A turn of phase one renames nothing. */
  lemma {:induction false} VisitNames(ns: seq<Node>, i: nat, j: nat)
    requires WellFormed(ns) && Reciprocal(ns) && i < |ns| && ns[i].typ == NodeNode && j < |ns[i].adj|
    ensures SameNames(ns, Visit(ns, i, j).ns)
  {
    NeighbourHasNeighbour(ns, i, j);
    if ns[ns[i].adj[j].n].typ == NodeGate {
      var w := Walk(ns, i, ns[i].adj[j].n);
      MarkedNames(ns, w.ns);
      if w.code == 0 && !Adjacent(w.ns, w.end, i) {
        JoinNames(w.ns, w.end, i);
        SameNamesTrans(ns, w.ns, WithEdge(w.ns, w.end, i, None));
      }
    }
  }

  /** Adding an edge renames nothing. */
  lemma {:induction false} JoinNames(ns: seq<Node>, e: int, i: nat)
    requires WellFormed(ns) && Reciprocal(ns) && 0 <= e < |ns| && i < |ns|
    ensures SameNames(ns, WithEdge(ns, e, i, None))
  {
    JoinFacts(ns, e, i);
  }

  /** Phase one renames nothing. */
  lemma {:induction false} Phase1Names(ns: seq<Node>, i: nat, j: nat)
    requires WellFormed(ns) && Reciprocal(ns) && i <= |ns|
    ensures SameNames(ns, Phase1(ns, i, j).ns)
    decreases |ns| - i, GateCount(ns), Pending(ns, i, j), 1
  {
    if i < |ns| {
      if ns[i].typ != NodeNode || j >= |ns[i].adj| {
        Phase1Skip(ns, i, j);
        Phase1Names(ns, i + 1, 0);
      } else {
        Phase1VisitNames(ns, i, j);
      }
    }
  }

  /** Phase one from an entity's j-th neighbour on renames nothing. */
  lemma {:induction false} Phase1VisitNames(ns: seq<Node>, i: nat, j: nat)
    requires WellFormed(ns) && Reciprocal(ns) && i < |ns| && ns[i].typ == NodeNode && j < |ns[i].adj|
    ensures SameNames(ns, Phase1(ns, i, j).ns)
    decreases |ns| - i, GateCount(ns), Pending(ns, i, j), 0
  {
    var v := Visit(ns, i, j);
    Phase1Visit(ns, i, j);
    VisitNames(ns, i, j);
    if v.code == 0 {
      Phase1Names(v.ns, i, j + 1);
      SameNamesTrans(ns, v.ns, Phase1(v.ns, i, j + 1).ns);
    }
  }

  /** x lists y among its neighbours, and y lists x. */
  ghost predicate Joined(ns: seq<Node>, x: int, y: int)
  {
    0 <= x < |ns| && 0 <= y < |ns| && y in Targets(ns[x].adj) && x in Targets(ns[y].adj)
  }

  /** Adjacent vertices of a reciprocal store are joined. */
  lemma {:induction false} AdjacentJoined(ns: seq<Node>, e: int, i: int)
    requires WellFormed(ns) && Reciprocal(ns) && 0 <= i < |ns| && Adjacent(ns, e, i)
    ensures Joined(ns, e, i)
  {
    var k :| 0 <= k < |ns[e].adj| && Targets(ns[e].adj)[k] == i;
    assert ns[e].adj[k].n == i;
  }

  /** Adding the edge e--i joins e and i. */
  lemma {:induction false} WithEdgeJoins(ns: seq<Node>, e: int, i: int)
    requires WellFormed(ns) && Reciprocal(ns) && 0 <= e < |ns| && 0 <= i < |ns|
    ensures Joined(WithEdge(ns, e, i, None), e, i)
  {
    var r := WithEdge(ns, e, i, None);
    WithEdgeShape(ns, e, i, None);
    if e != i {
      assert Targets(r[e].adj)[|r[e].adj| - 1] == i;
      assert Targets(r[i].adj)[|r[i].adj| - 1] == e;
    } else {
      assert Targets(r[i].adj)[|r[i].adj| - 1] == i;
    }
  }

  /**
   * A visit that walks a chain of gates from entity i to its end leaves
   * the end and i joined: already adjacent, or by the edge phase one adds.
   */
  lemma {:induction false} VisitJoins(ns: seq<Node>, i: nat, j: nat)
    requires WellFormed(ns) && Reciprocal(ns) && i < |ns| && ns[i].typ == NodeNode && j < |ns[i].adj|
    requires 0 <= ns[i].adj[j].n < |ns| && ns[ns[i].adj[j].n].typ == NodeGate
    ensures var w := Walk(ns, i, ns[i].adj[j].n);
      w.code == 0 ==> Visit(ns, i, j).code == 0 && Joined(Visit(ns, i, j).ns, w.end, i)
  {
    NeighbourHasNeighbour(ns, i, j);
    var w := Walk(ns, i, ns[i].adj[j].n);
    if w.code == 0 {
      if Adjacent(w.ns, w.end, i) {
        assert Visit(ns, i, j) == Compacted(0, w.ns);
        AdjacentJoined(w.ns, w.end, i);
      } else {
        assert Visit(ns, i, j) == Compacted(0, WithEdge(w.ns, w.end, i, None));
        WithEdgeJoins(w.ns, w.end, i);
      }
    }
  }

  /** No two vertices share a name. */
  ghost predicate DistinctNames(ns: seq<Node>)
  {
    forall a, b :: 0 <= a < |ns| && 0 <= b < |ns| && a != b ==> ns[a].name != ns[b].name
  }

  /** The index phase two gives vertex s: the number of vertices kept before it. */
  function KeptPos(ns: seq<Node>, s: nat): nat
    requires s <= |ns|
  {
    |KeptIndices(ns, s)|
  }

  /** The kept vertices below m come first among those below any later bound. */
  lemma {:induction false} KeptPrefix(ns: seq<Node>, m: nat, m': nat)
    requires m <= m' <= |ns|
    ensures KeptIndices(ns, m) <= KeptIndices(ns, m')
    decreases m'
  {
    if m < m' {
      KeptPrefix(ns, m, m' - 1);
    }
  }

  /** A kept vertex s sits at KeptPos(ns, s) among all kept vertices. */
  lemma {:induction false} KeptPosAt(ns: seq<Node>, s: nat)
    requires s < |ns| && Kept(ns[s])
    ensures KeptPos(ns, s) < |KeptIndices(ns, |ns|)| && KeptIndices(ns, |ns|)[KeptPos(ns, s)] == s
  {
    KeptPrefix(ns, s + 1, |ns|);
    assert KeptIndices(ns, s + 1) == KeptIndices(ns, s) + [s];
  }

  /**
   * K lists the kept vertices of ns, and P gives every kept vertex its
   * place in K: the renumbering of phase two, in both directions.
   */
  ghost predicate KeptOrder(ns: seq<Node>, K: seq<nat>, P: seq<int>)
  {
    |P| == |ns| &&
    (forall x :: 0 <= x < |K| ==> K[x] < |ns| && Kept(ns[K[x]]) && P[K[x]] == x) &&
    (forall s :: 0 <= s < |ns| && Kept(ns[s]) ==> 0 <= P[s] < |K| && K[P[s]] == s)
  }

  /** KeptIndices and KeptPos are phase two's renumbering. */
  lemma {:induction false} KeptIndicesOrder(ns: seq<Node>)
    ensures KeptOrder(ns, KeptIndices(ns, |ns|), seq(|ns|, s requires 0 <= s < |ns| => KeptPos(ns, s)))
  {
    var K := KeptIndices(ns, |ns|);
    var P := seq(|ns|, s requires 0 <= s < |ns| => KeptPos(ns, s));
    forall s | 0 <= s < |ns| && Kept(ns[s])
      ensures 0 <= P[s] < |K| && K[P[s]] == s
    {
      KeptPosAt(ns, s);
    }
    forall x | 0 <= x < |K|
      ensures K[x] < |ns| && Kept(ns[K[x]]) && P[K[x]] == x
    {
      KeptPosAt(ns, K[x]);
      assert K[KeptPos(ns, K[x])] == K[x];
    }
  }

  /** ms holds a vertex per entry of K, in order, with that vertex's name. */
  ghost predicate HoldsKept(ns: seq<Node>, K: seq<nat>, ms: seq<Node>)
  {
    |ms| == |K| && forall k :: 0 <= k < |ms| ==> K[k] < |ns| && ms[k].name == ns[K[k]].name
  }

  /** With distinct names, the lookup by name in the fresh graph finds a kept vertex at its new index. */
  lemma {:induction false} FoundAtNewIndex(ns: seq<Node>, K: seq<nat>, P: seq<int>, ms: seq<Node>, s: nat)
    requires DistinctNames(ns) && KeptOrder(ns, K, P) && HoldsKept(ns, K, ms) && s < |ns| && Kept(ns[s])
    ensures IndexOf(ms, ns[s].name) == P[s]
  {
    forall k | 0 <= k < P[s]
      ensures ms[k].name != ns[s].name
    {
      assert P[K[k]] == k;
      assert K[k] != s;
    }
    IndexOfFirst(ms, ns[s].name, P[s]);
  }

  /** The k-th edge of ms[x] joins x to another entry of K whose vertex is adjacent to K[x]'s in ns. */
  ghost predicate EdgeSound(ns: seq<Node>, K: seq<nat>, ms: seq<Node>, x: int, k: int)
  {
    |ms| == |K| && 0 <= x < |ms| && 0 <= k < |ms[x].adj| &&
    ms[x].adj[k].n != x && 0 <= ms[x].adj[k].n < |K| && K[x] < |ns| &&
    K[ms[x].adj[k].n] in Targets(ns[K[x]].adj)
  }

  /** Every edge of ms joins two distinct entries of K whose vertices are adjacent in ns. */
  ghost predicate LinksSound(ns: seq<Node>, K: seq<nat>, ms: seq<Node>)
  {
    |ms| == |K| &&
    forall x, k :: 0 <= x < |ms| && 0 <= k < |ms[x].adj| ==> EdgeSound(ns, K, ms, x, k)
  }

  /**
   * Phase three has passed the k-th entry of vertex s before reaching
   * vertex i's j-th, and the entry goes from an unmarked vertex to an
   * unmarked one of larger index.
   */
  ghost predicate Due(ns: seq<Node>, i: nat, j: nat, s: int, k: int)
  {
    0 <= s < |ns| && 0 <= k < |ns[s].adj| && (s < i || (s == i && k < j)) &&
    0 <= ns[s].adj[k].n < |ns| && s < ns[s].adj[k].n &&
    ns[s].typ != NodeGateVisited && ns[ns[s].adj[k].n].typ != NodeGateVisited
  }

  /** The k-th entry of vertex s is an edge of ms between the two ends' new indices. */
  ghost predicate Copied(ns: seq<Node>, P: seq<int>, ms: seq<Node>, s: int, k: int)
  {
    |P| == |ns| && 0 <= s < |ns| && 0 <= k < |ns[s].adj| && 0 <= ns[s].adj[k].n < |ns| &&
    0 <= P[s] < |ms| && P[ns[s].adj[k].n] in Targets(ms[P[s]].adj)
  }

  /** Every entry phase three has passed before vertex i's j-th is copied into ms. */
  ghost predicate LinkedBefore(ns: seq<Node>, P: seq<int>, ms: seq<Node>, i: nat, j: nat)
  {
    |P| == |ns| && forall s, k :: Due(ns, i, j, s, k) ==> Copied(ns, P, ms, s, k)
  }

  /** An entry of a prefix of an adjacency array is an entry of the whole. */
  lemma {:induction false} TargetsPrefix(u: seq<Edge>, v: seq<Edge>, y: int)
    requires u <= v && y in Targets(u)
    ensures y in Targets(v)
  {
    var k :| 0 <= k < |u| && Targets(u)[k] == y;
    assert u[k] == v[k];
    assert Targets(v)[k] == y;
  }

  /** An unmarked neighbour has a neighbour of its own, so phase two keeps it. */
  lemma {:induction false} NeighbourKept(ns: seq<Node>, s: nat, k: nat)
    requires WellFormed(ns) && Reciprocal(ns) && s < |ns| && k < |ns[s].adj|
    requires 0 <= ns[s].adj[k].n < |ns| && ns[ns[s].adj[k].n].typ != NodeGateVisited
    ensures Kept(ns[ns[s].adj[k].n]) && s in Targets(ns[ns[s].adj[k].n].adj)
  {
    NeighbourHasNeighbour(ns, s, k);
  }

  /** The edges of ms after a--b is added, when both ends satisfy LinksSound. */
  lemma {:induction false} WithEdgeSound(ns: seq<Node>, K: seq<nat>, ms: seq<Node>, a: int, b: int)
    requires LinksSound(ns, K, ms)
    requires 0 <= a < |ms| && 0 <= b < |ms| && a != b && K[a] < |ns| && K[b] < |ns|
    requires K[b] in Targets(ns[K[a]].adj) && K[a] in Targets(ns[K[b]].adj)
    ensures LinksSound(ns, K, WithEdge(ms, a, b, None))
  {
    var r := WithEdge(ms, a, b, None);
    WithEdgeShape(ms, a, b, None);
    forall x, k | 0 <= x < |r| && 0 <= k < |r[x].adj|
      ensures EdgeSound(ns, K, r, x, k)
    {
      if k < |ms[x].adj| {
        assert r[x].adj[k] == ms[x].adj[k] by {
          assert ms[x].adj <= r[x].adj;
        }
        assert EdgeSound(ns, K, ms, x, k);
      } else if x == a {
        assert r[x].adj[k].n == b;
      } else {
        assert x == b;
        assert r[x].adj[k].n == a;
      }
    }
  }

  /** A turn of phase three whose ends are found at a and b adds the edge a--b. */
  lemma {:induction false} LinkEdgeFound(ns: seq<Node>, ms: seq<Node>, i: nat, j: nat, a: int, b: int)
    requires WellFormed(ns) && WellFormed(ms) && Reciprocal(ms)
    requires i < |ns| && ns[i].typ != NodeGateVisited && j < |ns[i].adj|
    requires 0 <= ns[i].adj[j].n < |ns| && i < ns[i].adj[j].n && ns[ns[i].adj[j].n].typ != NodeGateVisited
    requires 0 <= a < |ms| && 0 <= b < |ms|
    requires IndexOf(ms, ns[i].name) == a && IndexOf(ms, ns[ns[i].adj[j].n].name) == b
    ensures LinkEdge(ns, ms, i, j) == WithEdge(ms, a, b, None)
  {
  }

  /** A turn of phase three that copies its entry adds the edge between the two ends' new indices. */
  lemma {:induction false} LinkEdgeTarget(ns: seq<Node>, K: seq<nat>, P: seq<int>, ms: seq<Node>, i: nat, j: nat)
    requires WellFormed(ns) && Reciprocal(ns) && DistinctNames(ns) && KeptOrder(ns, K, P)
    requires WellFormed(ms) && Reciprocal(ms) && HoldsKept(ns, K, ms)
    requires i < |ns| && ns[i].typ != NodeGateVisited && j < |ns[i].adj|
    requires 0 <= ns[i].adj[j].n < |ns| && i < ns[i].adj[j].n && ns[ns[i].adj[j].n].typ != NodeGateVisited
    ensures var t := ns[i].adj[j].n;
      0 <= P[i] < |ms| && 0 <= P[t] < |ms| && P[i] != P[t] && K[P[i]] == i && K[P[t]] == t &&
      t in Targets(ns[i].adj) && i in Targets(ns[t].adj) &&
      LinkEdge(ns, ms, i, j) == WithEdge(ms, P[i], P[t], None)
  {
    var t := ns[i].adj[j].n;
    NeighbourKept(ns, i, j);
    assert Kept(ns[i]);
    FoundAtNewIndex(ns, K, P, ms, i);
    FoundAtNewIndex(ns, K, P, ms, t);
    assert Targets(ns[i].adj)[j] == t;
    LinkEdgeFound(ns, ms, i, j, P[i], P[t]);
  }

  /** The entry phase three copies at vertex i's j-th: an edge of LinkEdge's result. */
  lemma {:induction false} LinkEdgeCopies(ns: seq<Node>, K: seq<nat>, P: seq<int>, ms: seq<Node>, i: nat, j: nat)
    requires WellFormed(ns) && Reciprocal(ns) && DistinctNames(ns) && KeptOrder(ns, K, P)
    requires WellFormed(ms) && Reciprocal(ms) && HoldsKept(ns, K, ms) && LinksSound(ns, K, ms)
    requires i < |ns| && ns[i].typ != NodeGateVisited && j < |ns[i].adj|
    ensures var r := LinkEdge(ns, ms, i, j);
      HoldsKept(ns, K, r) && LinksSound(ns, K, r) && (Due(ns, i, j + 1, i, j) ==> Copied(ns, P, r, i, j))
  {
    var r := LinkEdge(ns, ms, i, j);
    assert NodeOk(ns[i], i, |ns|);
    var t := ns[i].adj[j].n;
    SameVerticesHold(ns, K, ms, r);
    if t <= i || ns[t].typ == NodeGateVisited {
      assert r == ms;
    } else {
      LinkEdgeTarget(ns, K, P, ms, i, j);
      var a := P[i];
      var b := P[t];
      WithEdgeSound(ns, K, ms, a, b);
      WithEdgeShape(ms, a, b, None);
      assert Targets(r[a].adj)[|r[a].adj| - 1] == b;
    }
  }

  /** Changing only edges keeps each kept vertex's name at its new index. */
  lemma {:induction false} SameVerticesHold(ns: seq<Node>, K: seq<nat>, ms: seq<Node>, r: seq<Node>)
    requires HoldsKept(ns, K, ms) && SameVertices(ms, r)
    ensures HoldsKept(ns, K, r)
  {
    forall k | 0 <= k < |r|
      ensures K[k] < |ns| && r[k].name == ns[K[k]].name
    {
      assert r[k].name == ms[k].name;
    }
  }

  /** One turn of phase three keeps both invariants and passes one more entry. */
  lemma {:induction false} LinkEdgeKeeps(ns: seq<Node>, K: seq<nat>, P: seq<int>, ms: seq<Node>, i: nat, j: nat)
    requires WellFormed(ns) && Reciprocal(ns) && DistinctNames(ns) && KeptOrder(ns, K, P)
    requires WellFormed(ms) && Reciprocal(ms) && HoldsKept(ns, K, ms)
    requires i < |ns| && ns[i].typ != NodeGateVisited && j < |ns[i].adj|
    requires LinksSound(ns, K, ms) && LinkedBefore(ns, P, ms, i, j)
    ensures var r := LinkEdge(ns, ms, i, j);
      HoldsKept(ns, K, r) && LinksSound(ns, K, r) && LinkedBefore(ns, P, r, i, j + 1)
  {
    LinkEdgeCopies(ns, K, P, ms, i, j);
    CopiedStays(ns, P, ms, LinkEdge(ns, ms, i, j), i, j);
  }

  /** Adding edges keeps the entries already copied; with the j-th entry copied too, one more is passed. */
  lemma {:induction false} CopiedStays(ns: seq<Node>, P: seq<int>, ms: seq<Node>, r: seq<Node>, i: nat, j: nat)
    requires |r| == |ms| && (forall x :: 0 <= x < |ms| ==> ms[x].adj <= r[x].adj)
    requires LinkedBefore(ns, P, ms, i, j) && (Due(ns, i, j + 1, i, j) ==> Copied(ns, P, r, i, j))
    ensures LinkedBefore(ns, P, r, i, j + 1)
  {
    forall s, k | Due(ns, i, j + 1, s, k)
      ensures Copied(ns, P, r, s, k)
    {
      if s < i || k < j {
        assert Due(ns, i, j, s, k);
        assert Copied(ns, P, ms, s, k);
        TargetsPrefix(ms[P[s]].adj, r[P[s]].adj, P[ns[s].adj[k].n]);
      }
    }
  }

  /** Phase three from vertex i's j-th entry on keeps both invariants and passes every entry. */
  lemma {:induction false} LinkKeeps(ns: seq<Node>, K: seq<nat>, P: seq<int>, ms: seq<Node>, i: nat, j: nat)
    requires WellFormed(ns) && Reciprocal(ns) && DistinctNames(ns) && KeptOrder(ns, K, P)
    requires WellFormed(ms) && Reciprocal(ms) && HoldsKept(ns, K, ms) && i <= |ns|
    requires LinksSound(ns, K, ms) && LinkedBefore(ns, P, ms, i, j)
    ensures var r := Link(ns, ms, i, j); LinksSound(ns, K, r) && LinkedBefore(ns, P, r, |ns|, 0)
    decreases |ns| - i, Remaining(ns, i, j), 1
  {
    if i == |ns| {
      LinkDone(ns, ms);
      assert j == 0 || LinkedBefore(ns, P, ms, |ns|, 0);
    } else if ns[i].typ == NodeGateVisited || j >= |ns[i].adj| {
      LinkSkip(ns, ms, i, j);
      assert LinkedBefore(ns, P, ms, i + 1, 0) by {
        forall s, k | Due(ns, i + 1, 0, s, k)
          ensures Copied(ns, P, ms, s, k)
        {
          assert Due(ns, i, j, s, k);
        }
      }
      LinkKeeps(ns, K, P, ms, i + 1, 0);
    } else {
      LinkStepKeeps(ns, K, P, ms, i, j);
    }
  }

  /** Phase three at an unmarked vertex's j-th entry: LinkEdgeKeeps, then the rest. */
  lemma {:induction false} LinkStepKeeps(ns: seq<Node>, K: seq<nat>, P: seq<int>, ms: seq<Node>, i: nat, j: nat)
    requires WellFormed(ns) && Reciprocal(ns) && DistinctNames(ns) && KeptOrder(ns, K, P)
    requires WellFormed(ms) && Reciprocal(ms) && HoldsKept(ns, K, ms)
    requires i < |ns| && ns[i].typ != NodeGateVisited && j < |ns[i].adj|
    requires LinksSound(ns, K, ms) && LinkedBefore(ns, P, ms, i, j)
    ensures var r := Link(ns, ms, i, j); LinksSound(ns, K, r) && LinkedBefore(ns, P, r, |ns|, 0)
    decreases |ns| - i, Remaining(ns, i, j), 0
  {
    LinkStep(ns, ms, i, j);
    LinkEdgeKeeps(ns, K, P, ms, i, j);
    LinkKeeps(ns, K, P, LinkEdge(ns, ms, i, j), i, j + 1);
  }

  /** An edge between two distinct kept vertices of q is copied, whichever end has the smaller index. */
  lemma {:induction false} LinkedFromBoth(q: seq<Node>, K: seq<nat>, P: seq<int>, c: seq<Node>, x: nat, y: nat)
    requires WellFormed(q) && Reciprocal(q) && KeptOrder(q, K, P)
    requires WellFormed(c) && Reciprocal(c) && |c| == |K| && LinkedBefore(q, P, c, |q|, 0)
    requires x < |K| && y < |K| && x != y && K[y] in Targets(q[K[x]].adj)
    ensures 0 <= x < |c| && y in Targets(c[x].adj)
  {
    assert P[K[x]] == x && P[K[y]] == y;
    assert K[x] != K[y] && Kept(q[K[x]]) && Kept(q[K[y]]);
    var k :| 0 <= k < |q[K[x]].adj| && Targets(q[K[x]].adj)[k] == K[y];
    assert q[K[x]].adj[k].n == K[y];
    if K[x] < K[y] {
      assert Due(q, |q|, 0, K[x], k);
      assert Copied(q, P, c, K[x], k);
    } else {
      NeighbourKept(q, K[x], k);
      var k' :| 0 <= k' < |q[K[y]].adj| && Targets(q[K[y]].adj)[k'] == K[x];
      assert q[K[y]].adj[k'].n == K[x];
      assert Due(q, |q|, 0, K[y], k');
      assert Copied(q, P, c, K[y], k');
      ReverseEdge(c, y, x);
    }
  }

  /** In a reciprocal store, an edge y--x is listed at x too. */
  lemma {:induction false} ReverseEdge(c: seq<Node>, y: int, x: int)
    requires WellFormed(c) && Reciprocal(c) && 0 <= y < |c| && x in Targets(c[y].adj)
    ensures 0 <= x < |c| && y in Targets(c[x].adj)
  {
    var m :| 0 <= m < |c[y].adj| && Targets(c[y].adj)[m] == x;
    assert NodeOk(c[y], y, |c|);
    assert c[y].adj[m].n == x;
  }

  /** Renaming nothing keeps the names distinct. */
  lemma {:induction false} DistinctKept(ns: seq<Node>, ms: seq<Node>)
    requires DistinctNames(ns) && SameNames(ns, ms)
    ensures DistinctNames(ms)
  {
    forall a, b | 0 <= a < |ms| && 0 <= b < |ms| && a != b
      ensures ms[a].name != ms[b].name
    {
      assert ms[a].name == ns[a].name && ms[b].name == ns[b].name;
    }
  }

  /** The vertices phase two keeps, each with its name at its new index. */
  lemma {:induction false} KeepHoldsKept(q: seq<Node>)
    ensures HoldsKept(q, KeptIndices(q, |q|), Keep(q, |q|))
  {
    var K := KeptIndices(q, |q|);
    var kept := Keep(q, |q|);
    KeepIsKept(q, |q|);
    forall k | 0 <= k < |kept|
      ensures K[k] < |q| && kept[k].name == q[K[k]].name
    {
      assert kept[k] == NewNode(k, q[K[k]].name, q[K[k]].typ, None);
    }
  }

  /** Once phase three has passed every entry, x and y are adjacent in c exactly when their vertices were in q. */
  lemma {:induction false} LinkedPair(q: seq<Node>, K: seq<nat>, P: seq<int>, c: seq<Node>, x: int, y: int)
    requires WellFormed(q) && Reciprocal(q) && KeptOrder(q, K, P)
    requires WellFormed(c) && Reciprocal(c) && LinksSound(q, K, c) && LinkedBefore(q, P, c, |q|, 0)
    requires 0 <= x < |K| && 0 <= y < |K|
    ensures |c| == |K| && K[x] < |q|
    ensures y in Targets(c[x].adj) <==> x != y && K[y] in Targets(q[K[x]].adj)
  {
    if y in Targets(c[x].adj) {
      var k :| 0 <= k < |c[x].adj| && Targets(c[x].adj)[k] == y;
      assert c[x].adj[k].n == y;
      assert EdgeSound(q, K, c, x, k);
    }
    if x != y && K[y] in Targets(q[K[x]].adj) {
      LinkedFromBoth(q, K, P, c, x, y);
    }
  }

  /** Once phase three has passed every entry, the edges of c are exactly the copied ones, and no self-loop. */
  lemma {:induction false} LinkedExactly(q: seq<Node>, K: seq<nat>, P: seq<int>, c: seq<Node>)
    requires WellFormed(q) && Reciprocal(q) && KeptOrder(q, K, P)
    requires WellFormed(c) && Reciprocal(c) && LinksSound(q, K, c) && LinkedBefore(q, P, c, |q|, 0)
    ensures |c| == |K|
    ensures forall x :: 0 <= x < |K| ==> x !in Targets(c[x].adj)
    ensures forall x, y :: 0 <= x < |K| && 0 <= y < |K| && x != y ==>
      (y in Targets(c[x].adj) <==> K[y] in Targets(q[K[x]].adj))
  {
    forall x | 0 <= x < |K|
      ensures x !in Targets(c[x].adj)
    {
      LinkedPair(q, K, P, c, x, x);
    }
    forall x, y | 0 <= x < |K| && 0 <= y < |K| && x != y
      ensures y in Targets(c[x].adj) <==> K[y] in Targets(q[K[x]].adj)
    {
      LinkedPair(q, K, P, c, x, y);
    }
  }

  /** Before phase three, the fresh graph has no edge and nothing has been passed. */
  lemma {:induction false} LinkStart(q: seq<Node>, K: seq<nat>, P: seq<int>)
    requires K == KeptIndices(q, |q|) && |P| == |q|
    ensures LinksSound(q, K, Keep(q, |q|)) && LinkedBefore(q, P, Keep(q, |q|), 0, 0)
  {
    var kept := Keep(q, |q|);
    KeepIsKept(q, |q|);
    forall x | 0 <= x < |kept|
      ensures kept[x].adj == []
    {
      assert kept[x] == NewNode(x, q[K[x]].name, q[K[x]].typ, None);
    }
  }

  /** Phases two and three after phase one left q: the edges copied are exactly q's between kept vertices. */
  lemma {:induction false} KeepAndLink(q: seq<Node>)
    requires WellFormed(q) && Reciprocal(q) && DistinctNames(q)
    ensures WellFormed(Keep(q, |q|)) && Reciprocal(Keep(q, |q|))
    ensures var K := KeptIndices(q, |q|); var c := Link(q, Keep(q, |q|), 0, 0);
      |c| == |K| &&
      (forall x :: 0 <= x < |K| ==> x !in Targets(c[x].adj)) &&
      forall x, y :: 0 <= x < |K| && 0 <= y < |K| && x != y ==>
        (y in Targets(c[x].adj) <==> K[y] in Targets(q[K[x]].adj))
  {
    var K := KeptIndices(q, |q|);
    var P := seq(|q|, s requires 0 <= s < |q| => KeptPos(q, s));
    KeptIndicesOrder(q);
    var kept := Keep(q, |q|);
    KeepHoldsKept(q);
    KeepStore(q, |q|);
    LinkStart(q, K, P);
    LinkKeeps(q, K, P, kept, 0, 0);
    LinkedExactly(q, K, P, Link(q, kept, 0, 0));
    assert |K| == |Link(q, kept, 0, 0)|;
  }

  /** After a successful phase one, the compacted graph is phase three over phase two's vertices. */
  lemma {:induction false} CompactLinks(ns: seq<Node>)
    requires WellFormed(ns) && Reciprocal(ns)
    ensures var p := Phase1(ns, 0, 0);
      p.code == 0 ==>
        WellFormed(Keep(p.ns, |p.ns|)) && Reciprocal(Keep(p.ns, |p.ns|)) &&
        Compact(ns) == Compacted(0, Link(p.ns, Keep(p.ns, |p.ns|), 0, 0))
  {
    var p := Phase1(ns, 0, 0);
    if p.code == 0 {
      KeepStore(p.ns, |p.ns|);
    }
  }

  /**
   * The edges of the compacted graph of a store with distinct names: two
   * distinct vertices are adjacent exactly when the vertices phase two
   * copied them from are adjacent after phase one, and no vertex is its
   * own neighbour, since phase three only copies i--t with i < t.
   */
  lemma {:induction false} CompactEdges(ns: seq<Node>)
    requires WellFormed(ns) && Reciprocal(ns) && DistinctNames(ns)
    ensures var p := Phase1(ns, 0, 0); var K := KeptIndices(p.ns, |p.ns|); var c := Compact(ns);
      p.code == 0 ==>
        c.code == 0 && |c.ns| == |K| &&
        (forall x :: 0 <= x < |K| ==> x !in Targets(c.ns[x].adj)) &&
        forall x, y :: 0 <= x < |K| && 0 <= y < |K| && x != y ==>
          (y in Targets(c.ns[x].adj) <==> K[y] in Targets(p.ns[K[x]].adj))
  {
    var p := Phase1(ns, 0, 0);
    if p.code == 0 {
      Phase1Names(ns, 0, 0);
      DistinctKept(ns, p.ns);
      KeepAndLink(p.ns);
      CompactLinks(ns);
    }
  }

  /**
   * The vertices of the compacted graph: at index k, the k-th vertex phase
   * two keeps, with its name and type and without attributes.
   */
  lemma {:induction false} CompactVertices(ns: seq<Node>)
    requires WellFormed(ns) && Reciprocal(ns)
    ensures var p := Phase1(ns, 0, 0); var K := KeptIndices(p.ns, |p.ns|); var c := Compact(ns);
      (p.code != 0 ==> c == p) &&
      (p.code == 0 ==>
        c.code == 0 && |c.ns| == |K| &&
        forall k :: 0 <= k < |K| ==>
          c.ns[k].n == k && c.ns[k].name == p.ns[K[k]].name && c.ns[k].typ == p.ns[K[k]].typ &&
          c.ns[k].attributes == None)
  {
    var p := Phase1(ns, 0, 0);
    if p.code == 0 {
      KeepIsKept(p.ns, |p.ns|);
      KeepStore(p.ns, |p.ns|);
    }
  }

  /** One turn of graph_find_end_and_mark's loop, in place: Turn, with the mark written into g. */
  method TurnAt(g: Graph, prev: int, x: int) returns (stop: bool, res: int, to: int)
    requires g.Valid() && 0 <= x < |g.nodes| && |g.nodes[x].adj| >= 1 && g.nodes[x].typ != NodeNode
    modifies g
    ensures g.Valid() && g.capNodes == old(g.capNodes)
    ensures stop ==> Turn(old(g.nodes), prev, x) == Stop(Walked(res, g.nodes, to))
    ensures !stop ==> Turn(old(g.nodes), prev, x) == Go(g.nodes, to)
  {
    var node := g.nodes[x];
    assert NodeOk(node, x, |g.nodes|);
    if node.typ != NodeNode && |node.adj| > 2 {
      return true, TOP_E_BADGATE, x;
    }
    var a0 := node.adj[0].n;
    var next: int;
    if g.nodes[a0].typ == NodeGate {
      stop, next := false, a0;
    } else if g.nodes[a0].typ == NodeNode && a0 != prev {
      stop, next := true, a0;
    } else if |node.adj| == 1 {
      return true, 0, x;
    } else {
      next := node.adj[1].n;
      stop := g.nodes[next].typ != NodeGate;
    }
    MarkVisited(g, x);
    return stop, 0, next;
  }

  /** `type = NODE_GATE_VISITED` on a non-entity vertex of g. */
  method MarkVisited(g: Graph, x: int)
    requires g.Valid() && 0 <= x < |g.nodes| && g.nodes[x].typ != NodeNode
    modifies g
    ensures g.Valid() && g.capNodes == old(g.capNodes) && g.nodes == Mark(old(g.nodes), x)
  {
    MarkIsMarked(g.nodes, x);
    MarkedStore(g.nodes, Mark(g.nodes, x));
    g.nodes := g.nodes[x := g.nodes[x].(typ := NodeGateVisited)];
  }

  /**
   * graph_find_end_and_mark: walks the gate chain from n in place, marking
   * the gates it leaves, and gives the status and the end of the chain.
   */
  method FindEndAndMark(g: Graph, prev: int, n: int) returns (res: int, end: int)
    requires g.Valid() && 0 <= n < |g.nodes| && |g.nodes[n].adj| >= 1 && g.nodes[n].typ != NodeNode
    modifies g
    ensures g.Valid() && g.capNodes == old(g.capNodes)
    ensures Walk(old(g.nodes), prev, n) == Walked(res, g.nodes, end)
  {
    var x := n;
    while true
      invariant g.Valid() && g.capNodes == old(g.capNodes)
      invariant 0 <= x < |g.nodes| && |g.nodes[x].adj| >= 1 && g.nodes[x].typ != NodeNode
      invariant Walk(old(g.nodes), prev, n) == Walk(g.nodes, prev, x)
      decreases WalkRank(g.nodes, x)
    {
      ghost var before := g.nodes;
      var stop, r, to := TurnAt(g, prev, x);
      if stop {
        return r, to;
      }
      assert Walk(before, prev, x) == Walk(g.nodes, prev, to);
      x := to;
    }
  }

  /**
   * Phase one of topologies_graph_compact in place: for every entity, in
   * order, every gate neighbour, re-reading the adjacency count at each
   * turn.
   */
  method JoinChainEnds(g: Graph) returns (res: int)
    requires g.Valid()
    modifies g
    ensures g.Valid() && g.capNodes == old(g.capNodes)
    ensures Phase1(old(g.nodes), 0, 0) == Compacted(res, g.nodes)
  {
    ghost var goal := Phase1(g.nodes, 0, 0);
    var i := 0;
    while i < |g.nodes|
      invariant g.Valid() && g.capNodes == old(g.capNodes)
      invariant |g.nodes| == |old(g.nodes)| && 0 <= i <= |g.nodes|
      invariant goal == Phase1(g.nodes, i, 0)
      decreases |g.nodes| - i
    {
      res := VisitAll(g, i);
      if res != 0 {
        return res;
      }
      i := i + 1;
    }
    Phase1Done(g.nodes);
    return 0;
  }

  /** The turns of phase one at vertex i, while it is an entity. */
  method VisitAll(g: Graph, i: nat) returns (res: int)
    requires g.Valid() && i < |g.nodes|
    modifies g
    ensures g.Valid() && g.capNodes == old(g.capNodes) && |g.nodes| == |old(g.nodes)|
    ensures res != 0 ==> Phase1(old(g.nodes), i, 0) == Compacted(res, g.nodes)
    ensures res == 0 ==> Phase1(old(g.nodes), i, 0) == Phase1(g.nodes, i + 1, 0)
  {
    if g.nodes[i].typ != NodeNode {
      Phase1Skip(g.nodes, i, 0);
      return 0;
    }
    ghost var goal := Phase1(g.nodes, i, 0);
    var j := 0;
    while j < |g.nodes[i].adj|
      invariant g.Valid() && g.capNodes == old(g.capNodes)
      invariant |g.nodes| == |old(g.nodes)| && g.nodes[i].typ == NodeNode
      invariant goal == Phase1(g.nodes, i, j)
      decreases GateCount(g.nodes), Pending(g.nodes, i, j)
    {
      Phase1Visit(g.nodes, i, j);
      res := VisitAt(g, i, j);
      if res != 0 {
        return res;
      }
      j := j + 1;
    }
    Phase1Skip(g.nodes, i, j);
    return 0;
  }

  /** One turn of phase one in place: Visit at entity i's j-th neighbour. */
  method VisitAt(g: Graph, i: nat, j: nat) returns (res: int)
    requires g.Valid() && i < |g.nodes| && g.nodes[i].typ == NodeNode && j < |g.nodes[i].adj|
    modifies g
    ensures g.Valid() && g.capNodes == old(g.capNodes)
    ensures Visit(old(g.nodes), i, j) == Compacted(res, g.nodes)
  {
    assert NodeOk(g.nodes[i], i, |g.nodes|);
    var t := g.nodes[i].adj[j].n;
    NeighbourHasNeighbour(g.nodes, i, j);
    if g.nodes[t].typ != NodeGate {
      return 0;
    }
    ghost var v := Visit(g.nodes, i, j);
    var end;
    res, end := FindEndAndMark(g, i, t);
    if res != 0 {
      return res;
    }
    var adjacent := AreAdjacent(Some(g.nodes[end]), Some(g.nodes[i]));
    assert NodeOk(g.nodes[i], i, |g.nodes|);
    if !adjacent {
      var _ := g.AddEdgeId(end, i, None);
    }
    assert g.nodes == v.ns;
  }

  /** Phase two: a fresh graph holding the kept vertices of g, in order. */
  method KeepVertices(g: Graph) returns (kept: Graph)
    requires g.Valid()
    ensures fresh(kept) && kept.Valid() && kept.nodes == Keep(g.nodes, |g.nodes|)
  {
    kept := new Graph();
    var i := 0;
    while i < |g.nodes|
      invariant 0 <= i <= |g.nodes|
      invariant kept.Valid() && kept.nodes == Keep(g.nodes, i)
    {
      KeepNext(g.nodes, i);
      if g.nodes[i].typ != NodeGateVisited && |g.nodes[i].adj| > 0 {
        kept.AddNode(g.nodes[i].name, g.nodes[i].typ, None);
      }
      i := i + 1;
    }
  }

  /** Phase three: the edges i--t, i < t, between unmarked vertices of g, added to out by name. */
  method LinkKept(g: Graph, out: Graph)
    requires g.Valid() && out.Valid() && g != out
    modifies out
    ensures out.Valid() && out.nodes == Link(g.nodes, old(out.nodes), 0, 0)
  {
    ghost var goal := Link(g.nodes, out.nodes, 0, 0);
    var i := 0;
    while i < |g.nodes|
      invariant 0 <= i <= |g.nodes| && out.Valid()
      invariant goal == Link(g.nodes, out.nodes, i, 0)
    {
      LinkAll(g, out, i);
      i := i + 1;
    }
    LinkDone(g.nodes, out.nodes);
  }

  /** The turns of phase three at vertex i, unless it is marked. */
  method LinkAll(g: Graph, out: Graph, i: nat)
    requires g.Valid() && out.Valid() && g != out && i < |g.nodes|
    modifies out
    ensures out.Valid() && Link(g.nodes, old(out.nodes), i, 0) == Link(g.nodes, out.nodes, i + 1, 0)
  {
    if g.nodes[i].typ == NodeGateVisited {
      LinkSkip(g.nodes, out.nodes, i, 0);
      return;
    }
    ghost var goal := Link(g.nodes, out.nodes, i, 0);
    var j := 0;
    while j < |g.nodes[i].adj|
      invariant 0 <= j <= |g.nodes[i].adj| && out.Valid()
      invariant goal == Link(g.nodes, out.nodes, i, j)
    {
      LinkStep(g.nodes, out.nodes, i, j);
      LinkAt(g, out, i, j);
      j := j + 1;
    }
    LinkSkip(g.nodes, out.nodes, i, j);
  }

  /** One turn of phase three in place: LinkEdge. */
  method LinkAt(g: Graph, out: Graph, i: nat, j: nat)
    requires g.Valid() && out.Valid() && g != out
    requires i < |g.nodes| && g.nodes[i].typ != NodeGateVisited && j < |g.nodes[i].adj|
    modifies out
    ensures out.Valid() && out.nodes == LinkEdge(g.nodes, old(out.nodes), i, j)
  {
    assert NodeOk(g.nodes[i], i, |g.nodes|);
    var t := g.nodes[i].adj[j].n;
    if i < t && g.nodes[t].typ != NodeGateVisited {
      var a := out.FindNode(g.nodes[i].name);
      var b := out.FindNode(g.nodes[t].name);
      var _ := out.AddEdgeId(a, b, None);
    }
  }

  /**
   * topologies_graph_compact: on success the compacted graph is a fresh
   * one; on TOP_E_BADGATE the caller keeps g, with the marks and edges
   * phase one had written.
   */
  method CompactGraph(g: Graph) returns (res: int, out: Graph)
    requires g.Valid()
    modifies g
    ensures out.Valid() && Compact(old(g.nodes)) == Compacted(res, out.nodes)
    ensures res != 0 ==> out == g
    ensures res == 0 ==> fresh(out)
  {
    res := JoinChainEnds(g);
    if res != 0 {
      return res, g;
    }
    out := KeepVertices(g);
    LinkKept(g, out);
  }
}
