/**
 * The graph products of src/products.c.  Every product first builds the
 * vertices with graphs_cart_product_nodes: one entity `(a,b)` per pair of
 * entities, A-major, each with a copy `(a,b).<gate>` of the gate
 * neighbours of a and of b.  Then one or two edge passes visit the same
 * pairs and request edges by name.
 *
 * A pass is specified by the calls it makes (GraphOps): the calls of
 * pair (i, j) are CellOps, gathered row by row by PassOps.  The flag
 * `attrs` selects the newer four-argument graph calls of src/products.c,
 * which carry attributes; graphs_product in src/topologies.c makes the
 * same calls without them.
 */
module Products {
  import opened Basics
  import opened Errors
  import opened GraphStore
  import opened GraphOps

  /** The parts one after the other. */
  function Flatten<T>(parts: seq<seq<T>>): seq<T>
  {
    if |parts| == 0 then [] else parts[0] + Flatten(parts[1..])
  }

  function PairName(a: string, b: string): string
  {
    "(" + a + "," + b + ")"
  }

  function GateName(pair: string, gate: string): string
  {
    pair + "." + gate
  }

  /** A product vertex's attributes: both, joined by ", ", else whichever exists. */
  function PairAttrs(a: Option<string>, b: Option<string>): Option<string>
  {
    if a.Some? && b.Some? then Some(a.value + ", " + b.value) else if a.Some? then a else b
  }

  function Attr(attrs: bool, a: Option<string>): Option<string>
  {
    if attrs then a else None
  }

  /**
   * The k-th slot of an adjacency array.  The tensor, lexicographic and
   * strong passes read b's slot k with k running over a's neighbours;
   * a slot past b's neighbours reads as zeroed memory.
   */
  function Slot(node: Node, k: nat): Edge
  {
    if k < |node.adj| then node.adj[k] else Edge(0, None)
  }

  ghost predicate Operands(a: seq<Node>, b: seq<Node>)
  {
    WellFormed(a) && WellFormed(b)
  }

  datatype Pass = Vertices | CartEdges | TensEdges | LexEdges

  /** For each gate neighbour of src[x]: the vertex `<pair>.<gate>` and its edge to `<pair>`. */
  function GateParts(src: seq<Node>, x: int, pair: string, attrs: bool): seq<seq<Op>>
    requires WellFormed(src) && 0 <= x < |src|
  {
    seq(|src[x].adj|, k requires 0 <= k < |src[x].adj| =>
      var t := src[x].adj[k].n;
      if src[t].typ == NodeGate then
        [NewVertex(GateName(pair, src[t].name), NodeGate, None),
         NewEdge(pair, GateName(pair, src[t].name), Attr(attrs, src[x].adj[k].attributes))]
      else [])
  }

  /** Cartesian edges along a: to `(a',b)` for each entity neighbour a' of index at least i. */
  function CartAParts(a: seq<Node>, b: seq<Node>, i: int, j: int, attrs: bool): seq<seq<Op>>
    requires Operands(a, b) && 0 <= i < |a| && 0 <= j < |b|
  {
    seq(|a[i].adj|, k requires 0 <= k < |a[i].adj| =>
      var t := a[i].adj[k].n;
      if a[t].typ == NodeNode && t >= i then
        [NewEdge(PairName(a[i].name, b[j].name), PairName(a[t].name, b[j].name),
                 Attr(attrs, a[i].adj[k].attributes))]
      else [])
  }

  /** Cartesian edges along b: to `(a,b')` for each entity neighbour b' of index at least j. */
  function CartBParts(a: seq<Node>, b: seq<Node>, i: int, j: int, attrs: bool): seq<seq<Op>>
    requires Operands(a, b) && 0 <= i < |a| && 0 <= j < |b|
  {
    seq(|b[j].adj|, k requires 0 <= k < |b[j].adj| =>
      var t := b[j].adj[k].n;
      if b[t].typ == NodeNode && t >= j then
        [NewEdge(PairName(a[i].name, b[j].name), PairName(a[i].name, b[t].name),
                 Attr(attrs, b[j].adj[k].attributes))]
      else [])
  }

  /**
   * The tensor inner loop as evidently intended, for a's k-th neighbour
   * a': for each entity neighbour b' of b, an edge to `(a', b')` with the
   * attributes of b's edge to b'.  The code reads the type and the
   * attributes from b's k-th slot instead (TensInnerAsWritten); this is
   * the reference it is compared with.
   */
  function TensInner(a: seq<Node>, b: seq<Node>, i: int, j: int, k: int): seq<seq<Op>>
    requires Operands(a, b) && 0 <= i < |a| && 0 <= j < |b| && 0 <= k < |a[i].adj|
  {
    var t := a[i].adj[k].n;
    seq(|b[j].adj|, l requires 0 <= l < |b[j].adj| =>
      var u := b[j].adj[l].n;
      if b[u].typ == NodeNode then
        [NewEdge(PairName(a[i].name, b[j].name), PairName(a[t].name, b[u].name), b[j].adj[l].attributes)]
      else [])
  }

  /**
   * The tensor pass's inner loop for a's k-th neighbour a', as written: for
   * each slot l of b, an edge to `(a', b_l)` with b_l the l-th neighbour,
   * made when b's k-th slot points at an entity and labelled with that
   * slot's attributes.
   */
  function TensInnerAsWritten(a: seq<Node>, b: seq<Node>, i: int, j: int, k: int): seq<seq<Op>>
    requires Operands(a, b) && 0 <= i < |a| && 0 <= j < |b| && 0 <= k < |a[i].adj|
  {
    var t := a[i].adj[k].n;
    var slot := Slot(b[j], k);
    seq(|b[j].adj|, l requires 0 <= l < |b[j].adj| =>
      if b[slot.n].typ == NodeNode then
        [NewEdge(PairName(a[i].name, b[j].name), PairName(a[t].name, b[b[j].adj[l].n].name),
                 slot.attributes)]
      else [])
  }

  function TensParts(a: seq<Node>, b: seq<Node>, i: int, j: int): seq<seq<Op>>
    requires Operands(a, b) && 0 <= i < |a| && 0 <= j < |b|
  {
    seq(|a[i].adj|, k requires 0 <= k < |a[i].adj| =>
      if a[a[i].adj[k].n].typ == NodeNode then Flatten(TensInnerAsWritten(a, b, i, j, k)) else [])
  }

  /**
   * The lexicographic inner loop as evidently intended, for a's k-th
   * neighbour a': an edge to `(a', b')` for every entity b' of b, with the
   * attributes of a's edge.  The code guards each l by the type of b's
   * k-th neighbour and reads b's k-th slot's attributes instead
   * (LexInnerAsWritten); this is the reference it is compared with.
   */
  function LexInner(a: seq<Node>, b: seq<Node>, i: int, j: int, k: int): seq<seq<Op>>
    requires Operands(a, b) && 0 <= i < |a| && 0 <= j < |b| && 0 <= k < |a[i].adj|
  {
    var t := a[i].adj[k].n;
    seq(|b|, l requires 0 <= l < |b| =>
      if b[l].typ == NodeNode then
        [NewEdge(PairName(a[i].name, b[j].name), PairName(a[t].name, b[l].name), a[i].adj[k].attributes)]
      else [])
  }

  /**
   * The lexicographic pass's inner loop for a's k-th neighbour a', as
   * written: for every vertex b_l of b, an edge to `(a', b_l)`, made when
   * b's k-th slot points at an entity and labelled with that slot's
   * attributes.
   */
  function LexInnerAsWritten(a: seq<Node>, b: seq<Node>, i: int, j: int, k: int): seq<seq<Op>>
    requires Operands(a, b) && 0 <= i < |a| && 0 <= j < |b| && 0 <= k < |a[i].adj|
  {
    var t := a[i].adj[k].n;
    var slot := Slot(b[j], k);
    seq(|b|, l requires 0 <= l < |b| =>
      if b[slot.n].typ == NodeNode then
        [NewEdge(PairName(a[i].name, b[j].name), PairName(a[t].name, b[l].name), slot.attributes)]
      else [])
  }

  function LexAParts(a: seq<Node>, b: seq<Node>, i: int, j: int): seq<seq<Op>>
    requires Operands(a, b) && 0 <= i < |a| && 0 <= j < |b|
  {
    seq(|a[i].adj|, k requires 0 <= k < |a[i].adj| =>
      if a[a[i].adj[k].n].typ == NodeNode then Flatten(LexInnerAsWritten(a, b, i, j, k)) else [])
  }

  /** The lexicographic pass along b: every entity neighbour b', whatever its index. */
  function LexBParts(a: seq<Node>, b: seq<Node>, i: int, j: int): seq<seq<Op>>
    requires Operands(a, b) && 0 <= i < |a| && 0 <= j < |b|
  {
    seq(|b[j].adj|, k requires 0 <= k < |b[j].adj| =>
      var t := b[j].adj[k].n;
      if b[t].typ == NodeNode then
        [NewEdge(PairName(a[i].name, b[j].name), PairName(a[i].name, b[t].name), b[j].adj[k].attributes)]
      else [])
  }

  /** The calls a pass makes for the entity pair (i, j). */
  function CellOps(a: seq<Node>, b: seq<Node>, i: int, j: int, pass: Pass, attrs: bool): seq<Op>
    requires Operands(a, b) && 0 <= i < |a| && 0 <= j < |b|
  {
    var pair := PairName(a[i].name, b[j].name);
    match pass
    case Vertices =>
      [NewVertex(pair, NodeNode, if attrs then PairAttrs(a[i].attributes, b[j].attributes) else None)]
        + Flatten(GateParts(a, i, pair, attrs)) + Flatten(GateParts(b, j, pair, attrs))
    case CartEdges => Flatten(CartAParts(a, b, i, j, attrs)) + Flatten(CartBParts(a, b, i, j, attrs))
    case TensEdges => Flatten(TensParts(a, b, i, j))
    case LexEdges => Flatten(LexAParts(a, b, i, j)) + Flatten(LexBParts(a, b, i, j))
  }

  /** Row i of a pass: the entities of b, in order. */
  function Cols(a: seq<Node>, b: seq<Node>, i: int, pass: Pass, attrs: bool): seq<seq<Op>>
    requires Operands(a, b) && 0 <= i < |a|
  {
    seq(|b|, j requires 0 <= j < |b| =>
      if b[j].typ == NodeNode then CellOps(a, b, i, j, pass, attrs) else [])
  }

  function Rows(a: seq<Node>, b: seq<Node>, pass: Pass, attrs: bool): seq<seq<Op>>
    requires Operands(a, b)
  {
    seq(|a|, i requires 0 <= i < |a| =>
      if a[i].typ == NodeNode then Flatten(Cols(a, b, i, pass, attrs)) else [])
  }

  /** Every call of a pass, A-major. */
  function PassOps(a: seq<Node>, b: seq<Node>, pass: Pass, attrs: bool): seq<Op>
    requires Operands(a, b)
  {
    Flatten(Rows(a, b, pass, attrs))
  }

  /** The calls of parts k.. are the calls of part k, then those of parts k+1.. */
  lemma FlattenStep(ns: seq<Node>, parts: seq<seq<Op>>, k: int)
    requires Store(ns) && 0 <= k < |parts|
    ensures Run(ns, Flatten(parts[k..])) ==
      (var r := Run(ns, parts[k]); if r.code != 0 then r else Run(r.ns, Flatten(parts[k + 1..])))
  {
    assert parts[k..][0] == parts[k];
    assert parts[k..][1..] == parts[k + 1..];
    RunAppend(ns, parts[k], Flatten(parts[k + 1..]));
  }

  /** One turn of the gate loop: a gate neighbour gets its copy and the edge to it. */
  method GateStep(src: seq<Node>, x: int, pair: string, attrs: bool, k: int, g: Graph) returns (res: int)
    requires WellFormed(src) && 0 <= x < |src| && 0 <= k < |src[x].adj| && g.Valid()
    modifies g
    ensures g.Valid()
    ensures Built(res, g.nodes) == Run(old(g.nodes), GateParts(src, x, pair, attrs)[k])
  {
    var t := src[x].adj[k].n;
    if src[t].typ != NodeGate {
      return 0;
    }
    var gate := GateName(pair, src[t].name);
    var ops := [NewVertex(gate, NodeGate, None), NewEdge(pair, gate, Attr(attrs, src[x].adj[k].attributes))];
    assert GateParts(src, x, pair, attrs)[k] == ops;
    res := ApplyAll(g, ops);
  }

  /** The loop over a vertex's neighbours in graphs_cart_product_nodes (and graphs_product). */
  method GateLoop(src: seq<Node>, x: int, pair: string, attrs: bool, g: Graph) returns (res: int)
    requires WellFormed(src) && 0 <= x < |src| && g.Valid()
    modifies g
    ensures g.Valid()
    ensures Built(res, g.nodes) == Run(old(g.nodes), Flatten(GateParts(src, x, pair, attrs)))
  {
    ghost var parts := GateParts(src, x, pair, attrs);
    ghost var goal := Run(g.nodes, Flatten(parts));
    assert parts[0..] == parts;
    var k := 0;
    while k < |src[x].adj|
      invariant 0 <= k <= |src[x].adj| && g.Valid()
      invariant goal == Run(g.nodes, Flatten(parts[k..]))
    {
      FlattenStep(g.nodes, parts, k);
      res := GateStep(src, x, pair, attrs, k, g);
      if res != 0 {
        return;
      }
      k := k + 1;
    }
    return 0;
  }

  /** The loop over a's neighbours of the Cartesian pass. */
  method CartALoop(a: seq<Node>, b: seq<Node>, i: int, j: int, attrs: bool, g: Graph) returns (res: int)
    requires Operands(a, b) && 0 <= i < |a| && 0 <= j < |b| && g.Valid()
    modifies g
    ensures g.Valid()
    ensures Built(res, g.nodes) == Run(old(g.nodes), Flatten(CartAParts(a, b, i, j, attrs)))
  {
    ghost var parts := CartAParts(a, b, i, j, attrs);
    ghost var goal := Run(g.nodes, Flatten(parts));
    assert parts[0..] == parts;
    var k := 0;
    while k < |a[i].adj|
      invariant 0 <= k <= |a[i].adj| && g.Valid()
      invariant goal == Run(g.nodes, Flatten(parts[k..]))
    {
      FlattenStep(g.nodes, parts, k);
      res := CartAStep(a, b, i, j, k, attrs, g);
      if res != 0 {
        return;
      }
      k := k + 1;
    }
    return 0;
  }

  /** One turn of the Cartesian loop over a's neighbours. */
  method CartAStep(a: seq<Node>, b: seq<Node>, i: int, j: int, k: int, attrs: bool, g: Graph) returns (res: int)
    requires Operands(a, b) && 0 <= i < |a| && 0 <= j < |b| && 0 <= k < |a[i].adj| && g.Valid()
    modifies g
    ensures g.Valid()
    ensures Built(res, g.nodes) == Run(old(g.nodes), CartAParts(a, b, i, j, attrs)[k])
  {
    var t := a[i].adj[k].n;
    if a[t].typ != NodeNode || t < i {
      return 0;
    }
    var ops := [NewEdge(PairName(a[i].name, b[j].name), PairName(a[t].name, b[j].name),
                        Attr(attrs, a[i].adj[k].attributes))];
    assert CartAParts(a, b, i, j, attrs)[k] == ops;
    res := ApplyAll(g, ops);
  }

  /** The loop over b's neighbours of the Cartesian pass. */
  method CartBLoop(a: seq<Node>, b: seq<Node>, i: int, j: int, attrs: bool, g: Graph) returns (res: int)
    requires Operands(a, b) && 0 <= i < |a| && 0 <= j < |b| && g.Valid()
    modifies g
    ensures g.Valid()
    ensures Built(res, g.nodes) == Run(old(g.nodes), Flatten(CartBParts(a, b, i, j, attrs)))
  {
    ghost var parts := CartBParts(a, b, i, j, attrs);
    ghost var goal := Run(g.nodes, Flatten(parts));
    assert parts[0..] == parts;
    var k := 0;
    while k < |b[j].adj|
      invariant 0 <= k <= |b[j].adj| && g.Valid()
      invariant goal == Run(g.nodes, Flatten(parts[k..]))
    {
      FlattenStep(g.nodes, parts, k);
      res := CartBStep(a, b, i, j, k, attrs, g);
      if res != 0 {
        return;
      }
      k := k + 1;
    }
    return 0;
  }

  /** One turn of the Cartesian loop over b's neighbours. */
  method CartBStep(a: seq<Node>, b: seq<Node>, i: int, j: int, k: int, attrs: bool, g: Graph) returns (res: int)
    requires Operands(a, b) && 0 <= i < |a| && 0 <= j < |b| && 0 <= k < |b[j].adj| && g.Valid()
    modifies g
    ensures g.Valid()
    ensures Built(res, g.nodes) == Run(old(g.nodes), CartBParts(a, b, i, j, attrs)[k])
  {
    var t := b[j].adj[k].n;
    if b[t].typ != NodeNode || t < j {
      return 0;
    }
    var ops := [NewEdge(PairName(a[i].name, b[j].name), PairName(a[i].name, b[t].name),
                        Attr(attrs, b[j].adj[k].attributes))];
    assert CartBParts(a, b, i, j, attrs)[k] == ops;
    res := ApplyAll(g, ops);
  }

  /** One turn of the tensor pass's innermost loop: the guard and the attributes come from b's slot k, the target from slot l. */
  method TensStep(a: seq<Node>, b: seq<Node>, i: int, j: int, k: int, l: int, g: Graph) returns (res: int)
    requires Operands(a, b) && 0 <= i < |a| && 0 <= j < |b| && 0 <= k < |a[i].adj| && 0 <= l < |b[j].adj|
    requires g.Valid()
    modifies g
    ensures g.Valid()
    ensures Built(res, g.nodes) == Run(old(g.nodes), TensInnerAsWritten(a, b, i, j, k)[l])
  {
    var t := a[i].adj[k].n;
    var slot := Slot(b[j], k);
    if b[slot.n].typ != NodeNode {
      return 0;
    }
    var ops := [NewEdge(PairName(a[i].name, b[j].name), PairName(a[t].name, b[b[j].adj[l].n].name),
                        slot.attributes)];
    assert TensInnerAsWritten(a, b, i, j, k)[l] == ops;
    res := ApplyAll(g, ops);
  }

  /** The tensor pass's innermost loop, over b's slots l. */
  method TensInnerLoop(a: seq<Node>, b: seq<Node>, i: int, j: int, k: int, g: Graph) returns (res: int)
    requires Operands(a, b) && 0 <= i < |a| && 0 <= j < |b| && 0 <= k < |a[i].adj| && g.Valid()
    modifies g
    ensures g.Valid()
    ensures Built(res, g.nodes) == Run(old(g.nodes), Flatten(TensInnerAsWritten(a, b, i, j, k)))
  {
    ghost var parts := TensInnerAsWritten(a, b, i, j, k);
    ghost var goal := Run(g.nodes, Flatten(parts));
    assert parts[0..] == parts;
    var l := 0;
    while l < |b[j].adj|
      invariant 0 <= l <= |b[j].adj| && g.Valid()
      invariant goal == Run(g.nodes, Flatten(parts[l..]))
    {
      FlattenStep(g.nodes, parts, l);
      res := TensStep(a, b, i, j, k, l, g);
      if res != 0 {
        return;
      }
      l := l + 1;
    }
    return 0;
  }

  /** The tensor pass's loop over a's neighbours. */
  method TensLoop(a: seq<Node>, b: seq<Node>, i: int, j: int, g: Graph) returns (res: int)
    requires Operands(a, b) && 0 <= i < |a| && 0 <= j < |b| && g.Valid()
    modifies g
    ensures g.Valid()
    ensures Built(res, g.nodes) == Run(old(g.nodes), Flatten(TensParts(a, b, i, j)))
  {
    ghost var parts := TensParts(a, b, i, j);
    ghost var goal := Run(g.nodes, Flatten(parts));
    assert parts[0..] == parts;
    var k := 0;
    while k < |a[i].adj|
      invariant 0 <= k <= |a[i].adj| && g.Valid()
      invariant goal == Run(g.nodes, Flatten(parts[k..]))
    {
      FlattenStep(g.nodes, parts, k);
      if a[a[i].adj[k].n].typ == NodeNode {
        res := TensInnerLoop(a, b, i, j, k, g);
        if res != 0 {
          return;
        }
      }
      k := k + 1;
    }
    return 0;
  }

  /** One turn of the lexicographic pass's inner loop: the guard and the attributes come from b's slot k. */
  method LexStep(a: seq<Node>, b: seq<Node>, i: int, j: int, k: int, l: int, g: Graph) returns (res: int)
    requires Operands(a, b) && 0 <= i < |a| && 0 <= j < |b| && 0 <= k < |a[i].adj| && 0 <= l < |b|
    requires g.Valid()
    modifies g
    ensures g.Valid()
    ensures Built(res, g.nodes) == Run(old(g.nodes), LexInnerAsWritten(a, b, i, j, k)[l])
  {
    var t := a[i].adj[k].n;
    var slot := Slot(b[j], k);
    if b[slot.n].typ != NodeNode {
      return 0;
    }
    var ops := [NewEdge(PairName(a[i].name, b[j].name), PairName(a[t].name, b[l].name),
                        slot.attributes)];
    assert LexInnerAsWritten(a, b, i, j, k)[l] == ops;
    res := ApplyAll(g, ops);
  }

  /** The lexicographic pass's inner loop, over every vertex l of b. */
  method LexInnerLoop(a: seq<Node>, b: seq<Node>, i: int, j: int, k: int, g: Graph) returns (res: int)
    requires Operands(a, b) && 0 <= i < |a| && 0 <= j < |b| && 0 <= k < |a[i].adj| && g.Valid()
    modifies g
    ensures g.Valid()
    ensures Built(res, g.nodes) == Run(old(g.nodes), Flatten(LexInnerAsWritten(a, b, i, j, k)))
  {
    ghost var parts := LexInnerAsWritten(a, b, i, j, k);
    ghost var goal := Run(g.nodes, Flatten(parts));
    assert parts[0..] == parts;
    var l := 0;
    while l < |b|
      invariant 0 <= l <= |b| && g.Valid()
      invariant goal == Run(g.nodes, Flatten(parts[l..]))
    {
      FlattenStep(g.nodes, parts, l);
      res := LexStep(a, b, i, j, k, l, g);
      if res != 0 {
        return;
      }
      l := l + 1;
    }
    return 0;
  }

  /** The lexicographic pass's loop over a's neighbours. */
  method LexALoop(a: seq<Node>, b: seq<Node>, i: int, j: int, g: Graph) returns (res: int)
    requires Operands(a, b) && 0 <= i < |a| && 0 <= j < |b| && g.Valid()
    modifies g
    ensures g.Valid()
    ensures Built(res, g.nodes) == Run(old(g.nodes), Flatten(LexAParts(a, b, i, j)))
  {
    ghost var parts := LexAParts(a, b, i, j);
    ghost var goal := Run(g.nodes, Flatten(parts));
    assert parts[0..] == parts;
    var k := 0;
    while k < |a[i].adj|
      invariant 0 <= k <= |a[i].adj| && g.Valid()
      invariant goal == Run(g.nodes, Flatten(parts[k..]))
    {
      FlattenStep(g.nodes, parts, k);
      if a[a[i].adj[k].n].typ == NodeNode {
        res := LexInnerLoop(a, b, i, j, k, g);
        if res != 0 {
          return;
        }
      }
      k := k + 1;
    }
    return 0;
  }

  /** The lexicographic pass's loop over b's neighbours, with no index filter. */
  method LexBLoop(a: seq<Node>, b: seq<Node>, i: int, j: int, g: Graph) returns (res: int)
    requires Operands(a, b) && 0 <= i < |a| && 0 <= j < |b| && g.Valid()
    modifies g
    ensures g.Valid()
    ensures Built(res, g.nodes) == Run(old(g.nodes), Flatten(LexBParts(a, b, i, j)))
  {
    ghost var parts := LexBParts(a, b, i, j);
    ghost var goal := Run(g.nodes, Flatten(parts));
    assert parts[0..] == parts;
    var k := 0;
    while k < |b[j].adj|
      invariant 0 <= k <= |b[j].adj| && g.Valid()
      invariant goal == Run(g.nodes, Flatten(parts[k..]))
    {
      FlattenStep(g.nodes, parts, k);
      var t := b[j].adj[k].n;
      if b[t].typ == NodeNode {
        res := ApplyAll(g, [NewEdge(PairName(a[i].name, b[j].name), PairName(a[i].name, b[t].name),
                                    b[j].adj[k].attributes)]);
        if res != 0 {
          return;
        }
      }
      k := k + 1;
    }
    return 0;
  }

  /** The body of a pass for the entity pair (i, j). */
  method Cell(a: seq<Node>, b: seq<Node>, i: int, j: int, pass: Pass, attrs: bool, g: Graph) returns (res: int)
    requires Operands(a, b) && 0 <= i < |a| && 0 <= j < |b| && g.Valid()
    modifies g
    ensures g.Valid()
    ensures Built(res, g.nodes) == Run(old(g.nodes), CellOps(a, b, i, j, pass, attrs))
  {
    var pair := PairName(a[i].name, b[j].name);
    ghost var ns0 := g.nodes;
    match pass {
      case Vertices =>
        var v := NewVertex(pair, NodeNode, if attrs then PairAttrs(a[i].attributes, b[j].attributes) else None);
        res := Apply(g, v);
        RunOne(ns0, v);
        ghost var ns1 := g.nodes;
        res := GateLoop(a, i, pair, attrs, g);
        ghost var ns2 := g.nodes;
        RunAppend(ns0, [v], Flatten(GateParts(a, i, pair, attrs)));
        if res != 0 {
          RunAppend(ns0, [v] + Flatten(GateParts(a, i, pair, attrs)), Flatten(GateParts(b, j, pair, attrs)));
          return;
        }
        res := GateLoop(b, j, pair, attrs, g);
        RunAppend(ns0, [v] + Flatten(GateParts(a, i, pair, attrs)), Flatten(GateParts(b, j, pair, attrs)));
      case CartEdges =>
        res := CartALoop(a, b, i, j, attrs, g);
        RunAppend(ns0, Flatten(CartAParts(a, b, i, j, attrs)), Flatten(CartBParts(a, b, i, j, attrs)));
        if res != 0 {
          return;
        }
        res := CartBLoop(a, b, i, j, attrs, g);
      case TensEdges =>
        res := TensLoop(a, b, i, j, g);
      case LexEdges =>
        res := LexALoop(a, b, i, j, g);
        RunAppend(ns0, Flatten(LexAParts(a, b, i, j)), Flatten(LexBParts(a, b, i, j)));
        if res != 0 {
          return;
        }
        res := LexBLoop(a, b, i, j, g);
    }
  }

  /** The loop over b's entities for a's entity i. */
  method Row(a: seq<Node>, b: seq<Node>, i: int, pass: Pass, attrs: bool, g: Graph) returns (res: int)
    requires Operands(a, b) && 0 <= i < |a| && g.Valid()
    modifies g
    ensures g.Valid()
    ensures Built(res, g.nodes) == Run(old(g.nodes), Flatten(Cols(a, b, i, pass, attrs)))
  {
    ghost var parts := Cols(a, b, i, pass, attrs);
    ghost var goal := Run(g.nodes, Flatten(parts));
    assert parts[0..] == parts;
    var j := 0;
    while j < |b|
      invariant 0 <= j <= |b| && g.Valid()
      invariant goal == Run(g.nodes, Flatten(parts[j..]))
    {
      FlattenStep(g.nodes, parts, j);
      res := Column(a, b, i, j, pass, attrs, g);
      if res != 0 {
        return;
      }
      j := j + 1;
    }
    return 0;
  }

  /** Column j of row i: the calls of the pair (i, j) when b's vertex j is an entity, else none. */
  method Column(a: seq<Node>, b: seq<Node>, i: int, j: int, pass: Pass, attrs: bool, g: Graph) returns (res: int)
    requires Operands(a, b) && 0 <= i < |a| && 0 <= j < |b| && g.Valid()
    modifies g
    ensures g.Valid()
    ensures Built(res, g.nodes) == Run(old(g.nodes), Cols(a, b, i, pass, attrs)[j])
  {
    if b[j].typ == NodeNode {
      res := Cell(a, b, i, j, pass, attrs, g);
    } else {
      res := 0;
    }
  }

  /** Turn i of the loop over a: row i when a's vertex i is an entity, else no calls. */
  method RowTurn(a: seq<Node>, b: seq<Node>, i: int, pass: Pass, attrs: bool, g: Graph) returns (res: int)
    requires Operands(a, b) && 0 <= i < |a| && g.Valid()
    modifies g
    ensures g.Valid()
    ensures Built(res, g.nodes) == Run(old(g.nodes), Rows(a, b, pass, attrs)[i])
  {
    if a[i].typ == NodeNode {
      res := Row(a, b, i, pass, attrs, g);
    } else {
      res := 0;
    }
  }

  /** One pass over all entity pairs, A-major. */
  method RunPass(a: seq<Node>, b: seq<Node>, pass: Pass, attrs: bool, g: Graph) returns (res: int)
    requires Operands(a, b) && g.Valid()
    modifies g
    ensures g.Valid()
    ensures Built(res, g.nodes) == Run(old(g.nodes), PassOps(a, b, pass, attrs))
  {
    ghost var parts := Rows(a, b, pass, attrs);
    ghost var goal := Run(g.nodes, Flatten(parts));
    assert parts[0..] == parts;
    var i := 0;
    while i < |a|
      invariant 0 <= i <= |a| && g.Valid()
      invariant goal == Run(g.nodes, Flatten(parts[i..]))
    {
      FlattenStep(g.nodes, parts, i);
      res := RowTurn(a, b, i, pass, attrs, g);
      if res != 0 {
        return;
      }
      i := i + 1;
    }
    return 0;
  }

  datatype Kind = Cartesian | Tensor | Lexicographic | Strong

  /**
   * A product of a and b built into the store p: the vertex pass, whose
   * status is not looked at, then the edge passes of the kind.  The strong
   * product makes the tensor calls and, if they all succeed, the
   * Cartesian ones.
   */
  function Product(a: seq<Node>, b: seq<Node>, p: seq<Node>, kind: Kind): Built
    requires Operands(a, b) && Store(p)
  {
    var v := Run(p, PassOps(a, b, Vertices, true));
    match kind
    case Cartesian => Run(v.ns, PassOps(a, b, CartEdges, true))
    case Tensor => Run(v.ns, PassOps(a, b, TensEdges, true))
    case Lexicographic => Run(v.ns, PassOps(a, b, LexEdges, true))
    case Strong =>
      var t := Run(v.ns, PassOps(a, b, TensEdges, true));
      if t.code != 0 then t else Run(t.ns, PassOps(a, b, CartEdges, true))
  }

  /** graphs_cart_product_nodes: the vertex pass into prod. */
  method CartProductNodes(ga: Graph, gb: Graph, prod: Graph) returns (res: int)
    requires ga.Valid() && gb.Valid() && prod.Valid() && prod != ga && prod != gb
    modifies prod
    ensures prod.Valid()
    ensures Built(res, prod.nodes) == Run(old(prod.nodes), PassOps(ga.nodes, gb.nodes, Vertices, true))
  {
    res := RunPass(ga.nodes, gb.nodes, Vertices, true, prod);
  }

  /** graphs_cart_product. */
  method CartProduct(ga: Graph, gb: Graph, prod: Graph) returns (res: int)
    requires ga.Valid() && gb.Valid() && prod.Valid() && prod != ga && prod != gb
    modifies prod
    ensures prod.Valid()
    ensures Built(res, prod.nodes) == Product(ga.nodes, gb.nodes, old(prod.nodes), Cartesian)
  {
    var ignored := CartProductNodes(ga, gb, prod);
    res := RunPass(ga.nodes, gb.nodes, CartEdges, true, prod);
  }

  /** graphs_tens_product. */
  method TensProduct(ga: Graph, gb: Graph, prod: Graph) returns (res: int)
    requires ga.Valid() && gb.Valid() && prod.Valid() && prod != ga && prod != gb
    modifies prod
    ensures prod.Valid()
    ensures Built(res, prod.nodes) == Product(ga.nodes, gb.nodes, old(prod.nodes), Tensor)
  {
    var ignored := CartProductNodes(ga, gb, prod);
    res := RunPass(ga.nodes, gb.nodes, TensEdges, true, prod);
  }

  /** graphs_lex_product. */
  method LexProduct(ga: Graph, gb: Graph, prod: Graph) returns (res: int)
    requires ga.Valid() && gb.Valid() && prod.Valid() && prod != ga && prod != gb
    modifies prod
    ensures prod.Valid()
    ensures Built(res, prod.nodes) == Product(ga.nodes, gb.nodes, old(prod.nodes), Lexicographic)
  {
    var ignored := CartProductNodes(ga, gb, prod);
    res := RunPass(ga.nodes, gb.nodes, LexEdges, true, prod);
  }

  /** graphs_strong_product. */
  method StrongProduct(ga: Graph, gb: Graph, prod: Graph) returns (res: int)
    requires ga.Valid() && gb.Valid() && prod.Valid() && prod != ga && prod != gb
    modifies prod
    ensures prod.Valid()
    ensures Built(res, prod.nodes) == Product(ga.nodes, gb.nodes, old(prod.nodes), Strong)
  {
    var ignored := CartProductNodes(ga, gb, prod);
    res := RunPass(ga.nodes, gb.nodes, TensEdges, true, prod);
    if res != 0 {
      return;
    }
    res := RunPass(ga.nodes, gb.nodes, CartEdges, true, prod);
  }
}
