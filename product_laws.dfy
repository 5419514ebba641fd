/**
 * What the product passes of src/products.c request, stated edge by
 * edge, and what follows for the store they build: the vertex pass
 * always succeeds and adds one entity per pair of entities, A-major; the
 * Cartesian pass names only such pairs, so a Cartesian product of
 * well-formed graphs never fails.  The tensor and lexicographic passes,
 * whose inner loops test b's k-th slot, can ask for a pair with a gate
 * and then fail.
 */
module ProductLaws {
  import opened Basics
  import opened Errors
  import opened GraphStore
  import opened GraphOps
  import opened Products

  /** x is an element of one of the parts exactly when it is an element of their concatenation. */
  lemma {:induction false} InFlatten<T>(parts: seq<seq<T>>, x: T)
    ensures x in Flatten(parts) <==> exists m :: 0 <= m < |parts| && x in parts[m]
    decreases |parts|
  {
    if |parts| > 0 {
      InFlatten(parts[1..], x);
      if exists m :: 0 <= m < |parts| && x in parts[m] {
        var m :| 0 <= m < |parts| && x in parts[m];
        if m > 0 {
          assert parts[1..][m - 1] == parts[m];
        }
      }
      if x in Flatten(parts[1..]) {
        var m :| 0 <= m < |parts[1..]| && x in parts[1..][m];
        assert parts[m + 1] == parts[1..][m];
      }
    }
  }

  /** The pair (i, j) of entities is visited by a pass and makes the call op. */
  ghost predicate InCell(a: seq<Node>, b: seq<Node>, pass: Pass, attrs: bool, i: int, j: int, op: Op)
    requires Operands(a, b)
  {
    0 <= i < |a| && 0 <= j < |b| && a[i].typ == NodeNode && b[j].typ == NodeNode &&
    op in CellOps(a, b, i, j, pass, attrs)
  }

  /** Every call of a pass is a call of one of its entity pairs. */
  lemma PassHasCell(a: seq<Node>, b: seq<Node>, pass: Pass, attrs: bool, op: Op) returns (i: int, j: int)
    requires Operands(a, b) && op in PassOps(a, b, pass, attrs)
    ensures InCell(a, b, pass, attrs, i, j, op)
  {
    var rows := Rows(a, b, pass, attrs);
    InFlatten(rows, op);
    i :| 0 <= i < |rows| && op in rows[i];
    var cols := Cols(a, b, i, pass, attrs);
    assert a[i].typ == NodeNode && rows[i] == Flatten(cols);
    InFlatten(cols, op);
    j :| 0 <= j < |cols| && op in cols[j];
    assert b[j].typ == NodeNode;
  }

  /** Every call of an entity pair is a call of the pass. */
  lemma CellInPass(a: seq<Node>, b: seq<Node>, pass: Pass, attrs: bool, i: int, j: int, op: Op)
    requires Operands(a, b) && InCell(a, b, pass, attrs, i, j, op)
    ensures op in PassOps(a, b, pass, attrs)
  {
    var rows := Rows(a, b, pass, attrs);
    var cols := Cols(a, b, i, pass, attrs);
    assert op in cols[j];
    InFlatten(cols, op);
    assert op in rows[i];
    InFlatten(rows, op);
  }

  // ----- the vertex pass -----

  /** A gate copy names the pair's vertex, which exists, and the copy it adds. */
  lemma GatePartsResolvable(src: seq<Node>, x: int, pair: string, attrs: bool)
    requires WellFormed(src) && 0 <= x < |src|
    ensures Resolvable([pair], Flatten(GateParts(src, x, pair, attrs)))
  {
    var parts := GateParts(src, x, pair, attrs);
    forall m | 0 <= m < |parts|
      ensures Resolvable([pair], parts[m])
    {
      if parts[m] != [] {
        var gate := parts[m][0].name;
        assert parts[m][1..][1..] == [];
        assert Resolvable([pair] + [gate], parts[m][1..]);
      }
    }
    FlattenResolvable([pair], parts);
  }

  /** Parts each resolvable against the same names are so one after the other. */
  lemma {:induction false} FlattenResolvable(names: seq<string>, parts: seq<seq<Op>>)
    requires forall m :: 0 <= m < |parts| ==> Resolvable(names, parts[m])
    ensures Resolvable(names, Flatten(parts))
    decreases |parts|
  {
    if |parts| > 0 {
      assert forall m :: 0 <= m < |parts[1..]| ==> parts[1..][m] == parts[m + 1];
      FlattenResolvable(names, parts[1..]);
      ResolvableWider(names, names + AddedNames(parts[0]), Flatten(parts[1..]));
      ResolvableAppend(names, parts[0], Flatten(parts[1..]));
    }
  }

  lemma AddedNamesCons(op: Op, ops: seq<Op>)
    ensures AddedNames([op] + ops) == (if op.NewVertex? then [op.name] else []) + AddedNames(ops)
  {
    assert ([op] + ops)[0] == op && ([op] + ops)[1..] == ops;
  }

  /** The vertex calls of one pair name only the pair's vertex and the copies they add. */
  lemma VertexCellResolvable(a: seq<Node>, b: seq<Node>, i: int, j: int, attrs: bool)
    requires Operands(a, b) && 0 <= i < |a| && 0 <= j < |b|
    ensures Resolvable([], CellOps(a, b, i, j, Vertices, attrs))
  {
    var pair := PairName(a[i].name, b[j].name);
    var v := NewVertex(pair, NodeNode, if attrs then PairAttrs(a[i].attributes, b[j].attributes) else None);
    var fa := Flatten(GateParts(a, i, pair, attrs));
    var fb := Flatten(GateParts(b, j, pair, attrs));
    assert [v][1..] == [];
    assert Resolvable([], [v]);
    assert AddedNames([v]) == [pair];
    assert [] + AddedNames([v]) == [pair];
    GatePartsResolvable(a, i, pair, attrs);
    ResolvableAppend([], [v], fa);
    AddedNamesCons(v, fa);
    GatePartsResolvable(b, j, pair, attrs);
    ResolvableWider([pair], [] + AddedNames([v] + fa), fb);
    ResolvableAppend([], [v] + fa, fb);
  }

  /** graphs_cart_product_nodes never fails: each edge it asks for joins vertices it has added. */
  lemma VerticesNeverFail(a: seq<Node>, b: seq<Node>, p: seq<Node>, attrs: bool)
    requires Operands(a, b) && Store(p)
    ensures Run(p, PassOps(a, b, Vertices, attrs)).code == 0
  {
    var rows := Rows(a, b, Vertices, attrs);
    forall i | 0 <= i < |rows|
      ensures Resolvable([], rows[i])
    {
      if a[i].typ == NodeNode {
        var cols := Cols(a, b, i, Vertices, attrs);
        forall j | 0 <= j < |cols|
          ensures Resolvable([], cols[j])
        {
          if b[j].typ == NodeNode {
            VertexCellResolvable(a, b, i, j, attrs);
          }
        }
        FlattenResolvable([], cols);
      }
    }
    FlattenResolvable([], rows);
    ResolvableWider([], NamesOf(p), PassOps(a, b, Vertices, attrs));
    ResolvableRuns(p, PassOps(a, b, Vertices, attrs));
  }

  // ----- entity names -----

  /** The names of the entities among labels, in order. */
  function EntityNames(ls: seq<(string, NodeType)>): seq<string>
  {
    if |ls| == 0 then []
    else (if ls[0].1 == NodeNode then [ls[0].0] else []) + EntityNames(ls[1..])
  }

  /** The entities a call sequence adds. */
  function VertexEntities(ops: seq<Op>): seq<string>
  {
    EntityNames(AddedLabels(ops))
  }

  /** The entity pairs of a and b, A-major: the names graphs_cart_product_nodes gives its entities. */
  function PairNames(a: seq<Node>, b: seq<Node>): seq<string>
  {
    Flatten(seq(|a|, i requires 0 <= i < |a| => if a[i].typ == NodeNode then RowNames(a, b, i) else []))
  }

  function RowNames(a: seq<Node>, b: seq<Node>, i: int): seq<string>
    requires 0 <= i < |a|
  {
    Flatten(seq(|b|, j requires 0 <= j < |b| =>
      if b[j].typ == NodeNode then [PairName(a[i].name, b[j].name)] else []))
  }

  lemma {:induction false} EntityNamesAppend(x: seq<(string, NodeType)>, y: seq<(string, NodeType)>)
    ensures EntityNames(x + y) == EntityNames(x) + EntityNames(y)
    decreases |x|
  {
    if |x| == 0 {
      assert x + y == y;
    } else {
      assert (x + y)[0] == x[0] && (x + y)[1..] == x[1..] + y;
      EntityNamesAppend(x[1..], y);
    }
  }

  lemma {:induction false} AddedLabelsAppend(o1: seq<Op>, o2: seq<Op>)
    ensures AddedLabels(o1 + o2) == AddedLabels(o1) + AddedLabels(o2)
    decreases |o1|
  {
    if |o1| == 0 {
      assert o1 + o2 == o2;
    } else {
      assert (o1 + o2)[0] == o1[0] && (o1 + o2)[1..] == o1[1..] + o2;
      AddedLabelsAppend(o1[1..], o2);
    }
  }

  lemma VertexEntitiesAppend(o1: seq<Op>, o2: seq<Op>)
    ensures VertexEntities(o1 + o2) == VertexEntities(o1) + VertexEntities(o2)
  {
    AddedLabelsAppend(o1, o2);
    EntityNamesAppend(AddedLabels(o1), AddedLabels(o2));
  }

  /** The entities of parts one after the other are theirs one after the other. */
  lemma {:induction false} VertexEntitiesFlatten(parts: seq<seq<Op>>)
    ensures VertexEntities(Flatten(parts)) ==
      Flatten(seq(|parts|, m requires 0 <= m < |parts| => VertexEntities(parts[m])))
    decreases |parts|
  {
    var mapped := seq(|parts|, m requires 0 <= m < |parts| => VertexEntities(parts[m]));
    if |parts| > 0 {
      VertexEntitiesAppend(parts[0], Flatten(parts[1..]));
      VertexEntitiesFlatten(parts[1..]);
      assert mapped[1..] == seq(|parts[1..]|, m requires 0 <= m < |parts[1..]| => VertexEntities(parts[1..][m]));
    }
  }

  /** Concatenating empty parts gives nothing. */
  lemma {:induction false} FlattenEmpty<T>(parts: seq<seq<T>>)
    requires forall m :: 0 <= m < |parts| ==> parts[m] == []
    ensures Flatten(parts) == []
    decreases |parts|
  {
    if |parts| > 0 {
      assert forall m :: 0 <= m < |parts[1..]| ==> parts[1..][m] == parts[m + 1];
      FlattenEmpty(parts[1..]);
    }
  }

  /** A gate copy adds no entity. */
  lemma GatePartNoEntity(src: seq<Node>, x: int, pair: string, attrs: bool, m: int)
    requires WellFormed(src) && 0 <= x < |src| && 0 <= m < |src[x].adj|
    ensures VertexEntities(GateParts(src, x, pair, attrs)[m]) == []
  {
    var part := GateParts(src, x, pair, attrs)[m];
    if part != [] {
      var t := src[x].adj[m].n;
      var gate := GateName(pair, src[t].name);
      var e := NewEdge(pair, gate, Attr(attrs, src[x].adj[m].attributes));
      assert part == [NewVertex(gate, NodeGate, None), e];
      assert part[1..] == [e] && [e][1..] == [];
      assert AddedLabels([e]) == [];
      assert AddedLabels(part) == [(gate, NodeGate)];
      assert [(gate, NodeGate)][1..] == [];
      assert EntityNames([(gate, NodeGate)]) == [] + EntityNames([]);
    }
  }

  /** Gate copies are no entities. */
  lemma GatePartsNoEntity(src: seq<Node>, x: int, pair: string, attrs: bool)
    requires WellFormed(src) && 0 <= x < |src|
    ensures VertexEntities(Flatten(GateParts(src, x, pair, attrs))) == []
  {
    var parts := GateParts(src, x, pair, attrs);
    var mapped := seq(|parts|, m requires 0 <= m < |parts| => VertexEntities(parts[m]));
    forall m | 0 <= m < |parts|
      ensures mapped[m] == []
    {
      GatePartNoEntity(src, x, pair, attrs, m);
    }
    VertexEntitiesFlatten(parts);
    FlattenEmpty(mapped);
  }

  /** The vertex calls of a pair add exactly one entity, the pair. */
  lemma VertexCellEntities(a: seq<Node>, b: seq<Node>, i: int, j: int, attrs: bool)
    requires Operands(a, b) && 0 <= i < |a| && 0 <= j < |b|
    ensures VertexEntities(CellOps(a, b, i, j, Vertices, attrs)) == [PairName(a[i].name, b[j].name)]
  {
    var pair := PairName(a[i].name, b[j].name);
    var v := NewVertex(pair, NodeNode, if attrs then PairAttrs(a[i].attributes, b[j].attributes) else None);
    var fa := Flatten(GateParts(a, i, pair, attrs));
    var fb := Flatten(GateParts(b, j, pair, attrs));
    assert [v][1..] == [];
    assert AddedLabels([v]) == [(pair, NodeNode)];
    assert [(pair, NodeNode)][1..] == [];
    assert EntityNames([(pair, NodeNode)]) == [pair] + EntityNames([]);
    assert VertexEntities([v]) == [pair];
    GatePartsNoEntity(a, i, pair, attrs);
    GatePartsNoEntity(b, j, pair, attrs);
    VertexEntitiesAppend([v], fa);
    VertexEntitiesAppend([v] + fa, fb);
  }

  /** The vertex pass adds the entity pairs, A-major, and no other entity. */
  lemma VertexPassEntities(a: seq<Node>, b: seq<Node>, attrs: bool)
    requires Operands(a, b)
    ensures VertexEntities(PassOps(a, b, Vertices, attrs)) == PairNames(a, b)
  {
    var rows := Rows(a, b, Vertices, attrs);
    var rowNames := seq(|a|, i requires 0 <= i < |a| => if a[i].typ == NodeNode then RowNames(a, b, i) else []);
    forall i | 0 <= i < |a|
      ensures VertexEntities(rows[i]) == rowNames[i]
    {
      if a[i].typ == NodeNode {
        var cols := Cols(a, b, i, Vertices, attrs);
        var cellNames := seq(|b|, j requires 0 <= j < |b| =>
          if b[j].typ == NodeNode then [PairName(a[i].name, b[j].name)] else []);
        forall j | 0 <= j < |b|
          ensures VertexEntities(cols[j]) == cellNames[j]
        {
          if b[j].typ == NodeNode {
            VertexCellEntities(a, b, i, j, attrs);
          }
        }
        VertexEntitiesFlatten(cols);
        assert seq(|cols|, m requires 0 <= m < |cols| => VertexEntities(cols[m])) == cellNames;
      }
    }
    VertexEntitiesFlatten(rows);
    assert seq(|rows|, m requires 0 <= m < |rows| => VertexEntities(rows[m])) == rowNames;
  }

  /** Every name among the entity pairs is that of a pair of entities. */
  lemma PairNameOf(a: seq<Node>, b: seq<Node>, x: string) returns (i: int, j: int)
    requires x in PairNames(a, b)
    ensures 0 <= i < |a| && 0 <= j < |b| && a[i].typ == NodeNode && b[j].typ == NodeNode
    ensures x == PairName(a[i].name, b[j].name)
  {
    var rowNames := seq(|a|, i requires 0 <= i < |a| => if a[i].typ == NodeNode then RowNames(a, b, i) else []);
    InFlatten(rowNames, x);
    i :| 0 <= i < |a| && x in rowNames[i];
    assert a[i].typ == NodeNode && rowNames[i] == RowNames(a, b, i);
    var cellNames := seq(|b|, j requires 0 <= j < |b| =>
      if b[j].typ == NodeNode then [PairName(a[i].name, b[j].name)] else []);
    InFlatten(cellNames, x);
    j :| 0 <= j < |b| && x in cellNames[j];
  }

  /**
   * After graphs_cart_product_nodes, the store's entities are the old
   * ones followed by one per pair of entities, A-major, and every earlier
   * vertex keeps its name, type and attributes.
   */
  lemma ProductVertices(a: seq<Node>, b: seq<Node>, p: seq<Node>, attrs: bool)
    requires Operands(a, b) && Store(p)
    ensures Run(p, PassOps(a, b, Vertices, attrs)).code == 0
    ensures EntityNames(Labels(Run(p, PassOps(a, b, Vertices, attrs)).ns)) == EntityNames(Labels(p)) + PairNames(a, b)
    ensures Extends(p, Run(p, PassOps(a, b, Vertices, attrs)).ns)
  {
    var ops := PassOps(a, b, Vertices, attrs);
    VerticesNeverFail(a, b, p, attrs);
    RunLabels(p, ops);
    RunExtends(p, ops);
    EntityNamesAppend(Labels(p), AddedLabels(ops));
    VertexPassEntities(a, b, attrs);
  }

  /** An entity's name is the name of a vertex. */
  lemma {:induction false} EntityIsNamed(ns: seq<Node>, x: string)
    requires x in EntityNames(Labels(ns))
    ensures x in NamesOf(ns)
  {
    var m := EntityAt(Labels(ns), x);
    assert NamesOf(ns)[m] == x;
  }

  lemma {:induction false} EntityAt(ls: seq<(string, NodeType)>, x: string) returns (m: int)
    requires x in EntityNames(ls)
    ensures 0 <= m < |ls| && ls[m] == (x, NodeNode)
    decreases |ls|
  {
    if ls[0].1 == NodeNode && x == ls[0].0 {
      m := 0;
    } else {
      m := EntityAt(ls[1..], x);
      m := m + 1;
    }
  }

  // ----- the edge passes, edge by edge -----

  /** op is the Cartesian edge from (a_i, b_j) along a's k-th edge, to an entity of index at least i. */
  ghost predicate AlongA(a: seq<Node>, b: seq<Node>, attrs: bool, i: int, j: int, k: int, op: Op)
    requires Operands(a, b)
  {
    0 <= i < |a| && 0 <= j < |b| && a[i].typ == NodeNode && b[j].typ == NodeNode &&
    0 <= k < |a[i].adj| && a[a[i].adj[k].n].typ == NodeNode && a[i].adj[k].n >= i &&
    op == NewEdge(PairName(a[i].name, b[j].name), PairName(a[a[i].adj[k].n].name, b[j].name),
                  Attr(attrs, a[i].adj[k].attributes))
  }

  /** op is the Cartesian edge from (a_i, b_j) along b's k-th edge, to an entity of index at least j. */
  ghost predicate AlongB(a: seq<Node>, b: seq<Node>, attrs: bool, i: int, j: int, k: int, op: Op)
    requires Operands(a, b)
  {
    0 <= i < |a| && 0 <= j < |b| && a[i].typ == NodeNode && b[j].typ == NodeNode &&
    0 <= k < |b[j].adj| && b[b[j].adj[k].n].typ == NodeNode && b[j].adj[k].n >= j &&
    op == NewEdge(PairName(a[i].name, b[j].name), PairName(a[i].name, b[b[j].adj[k].n].name),
                  Attr(attrs, b[j].adj[k].attributes))
  }

  ghost predicate CartEdge(a: seq<Node>, b: seq<Node>, attrs: bool, op: Op)
    requires Operands(a, b)
  {
    exists i, j, k :: AlongA(a, b, attrs, i, j, k, op) || AlongB(a, b, attrs, i, j, k, op)
  }

  lemma CartCellSound(a: seq<Node>, b: seq<Node>, attrs: bool, i: int, j: int, op: Op) returns (k: int)
    requires Operands(a, b) && InCell(a, b, CartEdges, attrs, i, j, op)
    ensures AlongA(a, b, attrs, i, j, k, op) || AlongB(a, b, attrs, i, j, k, op)
  {
    var pa := CartAParts(a, b, i, j, attrs);
    var pb := CartBParts(a, b, i, j, attrs);
    assert op in Flatten(pa) + Flatten(pb);
    if op in Flatten(pa) {
      k := CartASound(a, b, attrs, i, j, op);
    } else {
      k := CartBSound(a, b, attrs, i, j, op);
    }
  }

  lemma CartASound(a: seq<Node>, b: seq<Node>, attrs: bool, i: int, j: int, op: Op) returns (k: int)
    requires Operands(a, b) && 0 <= i < |a| && 0 <= j < |b| && a[i].typ == NodeNode && b[j].typ == NodeNode
    requires op in Flatten(CartAParts(a, b, i, j, attrs))
    ensures AlongA(a, b, attrs, i, j, k, op)
  {
    var pa := CartAParts(a, b, i, j, attrs);
    InFlatten(pa, op);
    k :| 0 <= k < |pa| && op in pa[k];
  }

  lemma CartBSound(a: seq<Node>, b: seq<Node>, attrs: bool, i: int, j: int, op: Op) returns (k: int)
    requires Operands(a, b) && 0 <= i < |a| && 0 <= j < |b| && a[i].typ == NodeNode && b[j].typ == NodeNode
    requires op in Flatten(CartBParts(a, b, i, j, attrs))
    ensures AlongB(a, b, attrs, i, j, k, op)
  {
    var pb := CartBParts(a, b, i, j, attrs);
    InFlatten(pb, op);
    k :| 0 <= k < |pb| && op in pb[k];
  }

  lemma CartCellComplete(a: seq<Node>, b: seq<Node>, attrs: bool, i: int, j: int, k: int, op: Op)
    requires Operands(a, b) && (AlongA(a, b, attrs, i, j, k, op) || AlongB(a, b, attrs, i, j, k, op))
    ensures InCell(a, b, CartEdges, attrs, i, j, op)
  {
    var pa := CartAParts(a, b, i, j, attrs);
    var pb := CartBParts(a, b, i, j, attrs);
    InFlatten(pa, op);
    InFlatten(pb, op);
    if AlongA(a, b, attrs, i, j, k, op) {
      assert op in pa[k];
    } else {
      assert op in pb[k];
    }
  }

  /**
   * graphs_cart_product asks for exactly the edges (a,b)-(a',b) with a'
   * an entity neighbour of a of index at least a's, and (a,b)-(a,b')
   * likewise, each with its source edge's attributes.
   */
  lemma CartEdgesExact(a: seq<Node>, b: seq<Node>, attrs: bool, op: Op)
    requires Operands(a, b)
    ensures op in PassOps(a, b, CartEdges, attrs) <==> CartEdge(a, b, attrs, op)
  {
    if op in PassOps(a, b, CartEdges, attrs) {
      var i, j := PassHasCell(a, b, CartEdges, attrs, op);
      var k := CartCellSound(a, b, attrs, i, j, op);
    }
    if CartEdge(a, b, attrs, op) {
      var i, j, k :| AlongA(a, b, attrs, i, j, k, op) || AlongB(a, b, attrs, i, j, k, op);
      CartCellComplete(a, b, attrs, i, j, k, op);
      CellInPass(a, b, CartEdges, attrs, i, j, op);
    }
  }

  /**
   * op is the tensor edge asked for from (a_i, b_j) for a's k-th edge i-t
   * to an entity and b's slot l: to (a_t, b_u) with u b's l-th neighbour,
   * whatever its type, made when b's slot k points at an entity and
   * labelled with that slot's attributes.
   */
  ghost predicate TensEdge(a: seq<Node>, b: seq<Node>, i: int, j: int, k: int, l: int, op: Op)
    requires Operands(a, b)
  {
    0 <= i < |a| && 0 <= j < |b| && a[i].typ == NodeNode && b[j].typ == NodeNode &&
    0 <= k < |a[i].adj| && a[a[i].adj[k].n].typ == NodeNode &&
    0 <= l < |b[j].adj| && b[Slot(b[j], k).n].typ == NodeNode &&
    op == NewEdge(PairName(a[i].name, b[j].name), PairName(a[a[i].adj[k].n].name, b[b[j].adj[l].n].name),
                  Slot(b[j], k).attributes)
  }

  lemma TensCellSound(a: seq<Node>, b: seq<Node>, i: int, j: int, op: Op) returns (k: int, l: int)
    requires Operands(a, b) && InCell(a, b, TensEdges, true, i, j, op)
    ensures TensEdge(a, b, i, j, k, l, op)
  {
    var parts := TensParts(a, b, i, j);
    assert op in Flatten(parts);
    InFlatten(parts, op);
    k :| 0 <= k < |parts| && op in parts[k];
    l := TensInnerSound(a, b, i, j, k, op);
  }

  lemma TensInnerSound(a: seq<Node>, b: seq<Node>, i: int, j: int, k: int, op: Op) returns (l: int)
    requires Operands(a, b) && 0 <= i < |a| && 0 <= j < |b| && a[i].typ == NodeNode && b[j].typ == NodeNode
    requires 0 <= k < |a[i].adj| && op in TensParts(a, b, i, j)[k]
    ensures TensEdge(a, b, i, j, k, l, op)
  {
    var inner := TensInnerAsWritten(a, b, i, j, k);
    assert op in Flatten(inner);
    InFlatten(inner, op);
    l :| 0 <= l < |inner| && op in inner[l];
  }

  lemma TensCellComplete(a: seq<Node>, b: seq<Node>, i: int, j: int, k: int, l: int, op: Op)
    requires Operands(a, b) && TensEdge(a, b, i, j, k, l, op)
    ensures InCell(a, b, TensEdges, true, i, j, op)
  {
    var parts := TensParts(a, b, i, j);
    var inner := TensInnerAsWritten(a, b, i, j, k);
    assert op in inner[l];
    InFlatten(inner, op);
    assert op in parts[k];
    InFlatten(parts, op);
  }

  /**
   * graphs_tens_product asks for exactly the edges (a,b)-(a',b') with a'
   * an entity neighbour of a and b' any neighbour of b, for each k whose
   * slot of b points at an entity.
   */
  lemma TensEdgesExact(a: seq<Node>, b: seq<Node>, attrs: bool, op: Op)
    requires Operands(a, b)
    ensures op in PassOps(a, b, TensEdges, attrs) <==>
      exists i, j, k, l :: TensEdge(a, b, i, j, k, l, op)
  {
    if op in PassOps(a, b, TensEdges, attrs) {
      var i, j := PassHasCell(a, b, TensEdges, attrs, op);
      assert CellOps(a, b, i, j, TensEdges, attrs) == CellOps(a, b, i, j, TensEdges, true);
      var k, l := TensCellSound(a, b, i, j, op);
    }
    if exists i, j, k, l :: TensEdge(a, b, i, j, k, l, op) {
      var i, j, k, l :| TensEdge(a, b, i, j, k, l, op);
      TensCellComplete(a, b, i, j, k, l, op);
      assert CellOps(a, b, i, j, TensEdges, attrs) == CellOps(a, b, i, j, TensEdges, true);
      CellInPass(a, b, TensEdges, attrs, i, j, op);
    }
  }

  /**
   * op is the lexicographic edge asked for from (a_i, b_j) for a's k-th
   * edge i-t to an entity: to (a_t, b_l) for every vertex b_l of b, made
   * when b's slot k points at an entity and labelled with that slot's
   * attributes.
   */
  ghost predicate LexAlongA(a: seq<Node>, b: seq<Node>, i: int, j: int, k: int, l: int, op: Op)
    requires Operands(a, b)
  {
    0 <= i < |a| && 0 <= j < |b| && a[i].typ == NodeNode && b[j].typ == NodeNode &&
    0 <= k < |a[i].adj| && a[a[i].adj[k].n].typ == NodeNode &&
    0 <= l < |b| && b[Slot(b[j], k).n].typ == NodeNode &&
    op == NewEdge(PairName(a[i].name, b[j].name), PairName(a[a[i].adj[k].n].name, b[l].name),
                  Slot(b[j], k).attributes)
  }

  /** op is the lexicographic edge from (a_i, b_j) to (a_i, b_u) for b's k-th edge j-u, whatever u's index. */
  ghost predicate LexAlongB(a: seq<Node>, b: seq<Node>, i: int, j: int, k: int, op: Op)
    requires Operands(a, b)
  {
    0 <= i < |a| && 0 <= j < |b| && a[i].typ == NodeNode && b[j].typ == NodeNode &&
    0 <= k < |b[j].adj| && b[b[j].adj[k].n].typ == NodeNode &&
    op == NewEdge(PairName(a[i].name, b[j].name), PairName(a[i].name, b[b[j].adj[k].n].name),
                  b[j].adj[k].attributes)
  }

  ghost predicate LexEdge(a: seq<Node>, b: seq<Node>, op: Op)
    requires Operands(a, b)
  {
    (exists i, j, k, l :: LexAlongA(a, b, i, j, k, l, op)) || (exists i, j, k :: LexAlongB(a, b, i, j, k, op))
  }

  lemma LexASound(a: seq<Node>, b: seq<Node>, i: int, j: int, op: Op) returns (k: int, l: int)
    requires Operands(a, b) && 0 <= i < |a| && 0 <= j < |b| && a[i].typ == NodeNode && b[j].typ == NodeNode
    requires op in Flatten(LexAParts(a, b, i, j))
    ensures LexAlongA(a, b, i, j, k, l, op)
  {
    var pa := LexAParts(a, b, i, j);
    InFlatten(pa, op);
    k :| 0 <= k < |pa| && op in pa[k];
    l := LexInnerSound(a, b, i, j, k, op);
  }

  lemma LexInnerSound(a: seq<Node>, b: seq<Node>, i: int, j: int, k: int, op: Op) returns (l: int)
    requires Operands(a, b) && 0 <= i < |a| && 0 <= j < |b| && a[i].typ == NodeNode && b[j].typ == NodeNode
    requires 0 <= k < |a[i].adj| && op in LexAParts(a, b, i, j)[k]
    ensures LexAlongA(a, b, i, j, k, l, op)
  {
    var inner := LexInnerAsWritten(a, b, i, j, k);
    assert op in Flatten(inner);
    InFlatten(inner, op);
    l :| 0 <= l < |inner| && op in inner[l];
  }

  lemma LexCellSound(a: seq<Node>, b: seq<Node>, i: int, j: int, op: Op)
    requires Operands(a, b) && InCell(a, b, LexEdges, true, i, j, op)
    ensures LexEdge(a, b, op)
  {
    var pa := LexAParts(a, b, i, j);
    var pb := LexBParts(a, b, i, j);
    assert op in Flatten(pa) + Flatten(pb);
    if op in Flatten(pa) {
      var k, l := LexASound(a, b, i, j, op);
    } else {
      InFlatten(pb, op);
      var k :| 0 <= k < |pb| && op in pb[k];
      assert LexAlongB(a, b, i, j, k, op);
    }
  }

  lemma LexCellCompleteA(a: seq<Node>, b: seq<Node>, i: int, j: int, k: int, l: int, op: Op)
    requires Operands(a, b) && LexAlongA(a, b, i, j, k, l, op)
    ensures InCell(a, b, LexEdges, true, i, j, op)
  {
    var pa := LexAParts(a, b, i, j);
    var inner := LexInnerAsWritten(a, b, i, j, k);
    assert op in inner[l];
    InFlatten(inner, op);
    assert op in pa[k];
    InFlatten(pa, op);
  }

  lemma LexCellCompleteB(a: seq<Node>, b: seq<Node>, i: int, j: int, k: int, op: Op)
    requires Operands(a, b) && LexAlongB(a, b, i, j, k, op)
    ensures InCell(a, b, LexEdges, true, i, j, op)
  {
    var pb := LexBParts(a, b, i, j);
    assert op in pb[k];
    InFlatten(pb, op);
  }

  /**
   * graphs_lex_product asks for exactly the edges (a,b)-(a',b'') with a'
   * an entity neighbour of a and b'' any vertex of b, for each k whose
   * slot of b points at an entity, and (a,b)-(a,b') with b' an entity
   * neighbour of b.
   */
  lemma LexEdgesExact(a: seq<Node>, b: seq<Node>, attrs: bool, op: Op)
    requires Operands(a, b)
    ensures op in PassOps(a, b, LexEdges, attrs) <==> LexEdge(a, b, op)
  {
    if op in PassOps(a, b, LexEdges, attrs) {
      var i, j := PassHasCell(a, b, LexEdges, attrs, op);
      assert CellOps(a, b, i, j, LexEdges, attrs) == CellOps(a, b, i, j, LexEdges, true);
      LexCellSound(a, b, i, j, op);
    }
    if exists i, j, k, l :: LexAlongA(a, b, i, j, k, l, op) {
      var i, j, k, l :| LexAlongA(a, b, i, j, k, l, op);
      LexCellCompleteA(a, b, i, j, k, l, op);
      assert CellOps(a, b, i, j, LexEdges, attrs) == CellOps(a, b, i, j, LexEdges, true);
      CellInPass(a, b, LexEdges, attrs, i, j, op);
    } else if exists i, j, k :: LexAlongB(a, b, i, j, k, op) {
      var i, j, k :| LexAlongB(a, b, i, j, k, op);
      LexCellCompleteB(a, b, i, j, k, op);
      assert CellOps(a, b, i, j, LexEdges, attrs) == CellOps(a, b, i, j, LexEdges, true);
      CellInPass(a, b, LexEdges, attrs, i, j, op);
    }
  }

  /**
   * The lexicographic pass along b has no lower-index filter: when b
   * records its edges at both ends, an edge b_j-b_u between entities is
   * asked for from (a,b_j) and again from (a,b_u).
   */
  lemma LexBothWays(a: seq<Node>, b: seq<Node>, i: int, j: int, k: int)
    requires Operands(a, b) && Reciprocal(b)
    requires 0 <= i < |a| && a[i].typ == NodeNode && 0 <= j < |b| && b[j].typ == NodeNode
    requires 0 <= k < |b[j].adj| && b[b[j].adj[k].n].typ == NodeNode
    ensures NewEdge(PairName(a[i].name, b[j].name), PairName(a[i].name, b[b[j].adj[k].n].name),
                    b[j].adj[k].attributes) in PassOps(a, b, LexEdges, true)
    ensures exists back :: NewEdge(PairName(a[i].name, b[b[j].adj[k].n].name), PairName(a[i].name, b[j].name),
                                   back) in PassOps(a, b, LexEdges, true)
  {
    var u := b[j].adj[k].n;
    var fwd := NewEdge(PairName(a[i].name, b[j].name), PairName(a[i].name, b[u].name), b[j].adj[k].attributes);
    assert LexAlongB(a, b, i, j, k, fwd);
    LexEdgesExact(a, b, true, fwd);
    assert j in Targets(b[u].adj);
    var k' :| 0 <= k' < |b[u].adj| && Targets(b[u].adj)[k'] == j;
    assert b[u].adj[k'].n == j;
    var bwd := NewEdge(PairName(a[i].name, b[u].name), PairName(a[i].name, b[j].name), b[u].adj[k'].attributes);
    assert LexAlongB(a, b, i, u, k', bwd);
    LexEdgesExact(a, b, true, bwd);
  }

  // ----- products never fail -----

  /** Calls that only ask for edges between listed names all resolve. */
  lemma {:induction false} EdgesResolvable(names: seq<string>, ops: seq<Op>)
    requires forall op :: op in ops ==> op.NewEdge? && op.from in names && op.to in names
    ensures Resolvable(names, ops)
    decreases |ops|
  {
    if |ops| > 0 {
      assert ops[0] in ops;
      assert forall op :: op in ops[1..] ==> op in ops;
      EdgesResolvable(names, ops[1..]);
    }
  }

  /** The name of every pair of entities is among the entity pairs. */
  lemma PairNamed(a: seq<Node>, b: seq<Node>, i: int, j: int)
    requires 0 <= i < |a| && 0 <= j < |b| && a[i].typ == NodeNode && b[j].typ == NodeNode
    ensures PairName(a[i].name, b[j].name) in PairNames(a, b)
  {
    var x := PairName(a[i].name, b[j].name);
    var rowNames := seq(|a|, i requires 0 <= i < |a| => if a[i].typ == NodeNode then RowNames(a, b, i) else []);
    var cellNames := seq(|b|, j requires 0 <= j < |b| =>
      if b[j].typ == NodeNode then [PairName(a[i].name, b[j].name)] else []);
    assert x in cellNames[j];
    InFlatten(cellNames, x);
    assert x in rowNames[i];
    InFlatten(rowNames, x);
  }

  /** Every edge the Cartesian pass asks for joins two entity pairs. */
  lemma EdgeEndsArePairs(a: seq<Node>, b: seq<Node>, attrs: bool, op: Op)
    requires Operands(a, b) && op in PassOps(a, b, CartEdges, attrs)
    ensures op.NewEdge? && op.from in PairNames(a, b) && op.to in PairNames(a, b)
  {
    CartEdgesExact(a, b, attrs, op);
    var i, j, k :| AlongA(a, b, attrs, i, j, k, op) || AlongB(a, b, attrs, i, j, k, op);
    PairNamed(a, b, i, j);
    if AlongA(a, b, attrs, i, j, k, op) {
      PairNamed(a, b, a[i].adj[k].n, j);
    } else {
      PairNamed(a, b, i, b[j].adj[k].n);
    }
  }

  /** The edge calls of a product kind after its vertex pass. */
  function EdgeOps(a: seq<Node>, b: seq<Node>, kind: Kind): seq<Op>
    requires Operands(a, b)
  {
    match kind
    case Cartesian => PassOps(a, b, CartEdges, true)
    case Tensor => PassOps(a, b, TensEdges, true)
    case Lexicographic => PassOps(a, b, LexEdges, true)
    case Strong => PassOps(a, b, TensEdges, true) + PassOps(a, b, CartEdges, true)
  }

  /**
   * Edge calls that all join entity pairs, made after the vertex pass,
   * succeed: the vertex pass has added every pair.
   */
  lemma PairedRunSucceeds(a: seq<Node>, b: seq<Node>, p: seq<Node>, ops: seq<Op>)
    requires Operands(a, b) && Store(p)
    requires forall op :: op in ops ==> op.NewEdge? && op.from in PairNames(a, b) && op.to in PairNames(a, b)
    ensures Run(Run(p, PassOps(a, b, Vertices, true)).ns, ops).code == 0
  {
    var v := Run(p, PassOps(a, b, Vertices, true));
    ProductVertices(a, b, p, true);
    var names := NamesOf(v.ns);
    forall x | x in PairNames(a, b)
      ensures x in names
    {
      assert x in EntityNames(Labels(p)) + PairNames(a, b);
      EntityIsNamed(v.ns, x);
    }
    EdgesResolvable(names, ops);
    ResolvableRuns(v.ns, ops);
  }

  /**
   * A product whose edge calls all join entity pairs succeeds: the vertex
   * pass has added every pair.
   */
  lemma ProductSucceedsWhenPaired(a: seq<Node>, b: seq<Node>, p: seq<Node>, kind: Kind)
    requires Operands(a, b) && Store(p)
    requires forall op :: op in EdgeOps(a, b, kind) ==> op.NewEdge? && op.from in PairNames(a, b) && op.to in PairNames(a, b)
    ensures Product(a, b, p, kind).code == 0
  {
    var v := Run(p, PassOps(a, b, Vertices, true));
    PairedRunSucceeds(a, b, p, EdgeOps(a, b, kind));
    if kind == Strong {
      RunAppend(v.ns, PassOps(a, b, TensEdges, true), PassOps(a, b, CartEdges, true));
    }
  }

  /** graphs_cart_product on two well-formed graphs never fails. */
  lemma ProductNeverFails(a: seq<Node>, b: seq<Node>, p: seq<Node>)
    requires Operands(a, b) && Store(p)
    ensures Product(a, b, p, Cartesian).code == 0
  {
    forall op | op in EdgeOps(a, b, Cartesian)
      ensures op.NewEdge? && op.from in PairNames(a, b) && op.to in PairNames(a, b)
    {
      EdgeEndsArePairs(a, b, true, op);
    }
    ProductSucceedsWhenPaired(a, b, p, Cartesian);
  }

  /** Every edge pass asks only for edges. */
  lemma EdgeOpsAreEdges(a: seq<Node>, b: seq<Node>, kind: Kind, op: Op)
    requires Operands(a, b) && op in EdgeOps(a, b, kind)
    ensures op.NewEdge?
  {
    if op in PassOps(a, b, CartEdges, true) {
      CartEdgesExact(a, b, true, op);
    } else if op in PassOps(a, b, TensEdges, true) {
      TensEdgesExact(a, b, true, op);
    } else {
      LexEdgesExact(a, b, true, op);
    }
  }

  /**
   * A product one of whose edge calls names a vertex the vertex pass did
   * not add stops with TOP_E_CONN.
   */
  lemma ProductFailsWhenUnnamed(a: seq<Node>, b: seq<Node>, p: seq<Node>, kind: Kind, m: int)
    requires Operands(a, b) && Store(p)
    requires 0 <= m < |EdgeOps(a, b, kind)|
    requires var op := EdgeOps(a, b, kind)[m]; var names := NamesOf(Run(p, PassOps(a, b, Vertices, true)).ns);
      op.NewEdge? && (op.from !in names || op.to !in names)
    ensures Product(a, b, p, kind).code == TOP_E_CONN
  {
    var v := Run(p, PassOps(a, b, Vertices, true));
    var ops := EdgeOps(a, b, kind);
    forall op | op in ops
      ensures op.NewEdge?
    {
      EdgeOpsAreEdges(a, b, kind, op);
    }
    EdgeRunFails(v.ns, ops, m);
    if kind == Strong {
      RunAppend(v.ns, PassOps(a, b, TensEdges, true), PassOps(a, b, CartEdges, true));
    }
  }

  /** A label a run adds comes from a vertex call of the run. */
  lemma {:induction false} AddedLabelOp(ops: seq<Op>, m: int) returns (n: int)
    requires 0 <= m < |AddedLabels(ops)|
    ensures 0 <= n < |ops| && ops[n].NewVertex? && (ops[n].name, ops[n].typ) == AddedLabels(ops)[m]
    decreases |ops|
  {
    if ops[0].NewVertex? && m == 0 {
      n := 0;
    } else {
      var m' := if ops[0].NewVertex? then m - 1 else m;
      n := AddedLabelOp(ops[1..], m');
      n := n + 1;
    }
  }

  /** A vertex call among the gate copies of src[x] adds a copy `<pair>.<gate>`. */
  lemma GateCopyNamed(src: seq<Node>, x: int, pair: string, attrs: bool, op: Op) returns (g: string)
    requires WellFormed(src) && 0 <= x < |src| && op in Flatten(GateParts(src, x, pair, attrs)) && op.NewVertex?
    ensures op.name == GateName(pair, g)
  {
    var parts := GateParts(src, x, pair, attrs);
    InFlatten(parts, op);
    var m :| 0 <= m < |parts| && op in parts[m];
    g := src[src[x].adj[m].n].name;
  }

  /** Every vertex the vertex pass adds is an entity pair or a gate copy `<pair>.<gate>`. */
  lemma VertexCallNamed(a: seq<Node>, b: seq<Node>, attrs: bool, op: Op) returns (i: int, j: int, g: string)
    requires Operands(a, b) && op in PassOps(a, b, Vertices, attrs) && op.NewVertex?
    ensures InCell(a, b, Vertices, attrs, i, j, op)
    ensures op.name == PairName(a[i].name, b[j].name) || op.name == GateName(PairName(a[i].name, b[j].name), g)
  {
    i, j := PassHasCell(a, b, Vertices, attrs, op);
    var pair := PairName(a[i].name, b[j].name);
    var fa := Flatten(GateParts(a, i, pair, attrs));
    var fb := Flatten(GateParts(b, j, pair, attrs));
    var v := NewVertex(pair, NodeNode, if attrs then PairAttrs(a[i].attributes, b[j].attributes) else None);
    assert op in [v] + fa + fb;
    if op in fa {
      g := GateCopyNamed(a, i, pair, attrs, op);
    } else if op in fb {
      g := GateCopyNamed(b, j, pair, attrs, op);
    } else {
      g := "";
    }
  }

  /**
   * A name the vertex pass leaves in the store is an old one, an entity
   * pair's, or a gate copy's `<pair>.<gate>`.
   */
  lemma VertexPassNames(a: seq<Node>, b: seq<Node>, p: seq<Node>, x: string) returns (i: int, j: int, g: string)
    requires Operands(a, b) && Store(p)
    requires x in NamesOf(Run(p, PassOps(a, b, Vertices, true)).ns) && x !in NamesOf(p)
    ensures 0 <= i < |a| && 0 <= j < |b| && a[i].typ == NodeNode && b[j].typ == NodeNode
    ensures x == PairName(a[i].name, b[j].name) || x == GateName(PairName(a[i].name, b[j].name), g)
  {
    var ops := PassOps(a, b, Vertices, true);
    VerticesNeverFail(a, b, p, true);
    var o := NewNameCall(p, ops, x);
    assert ops[o] in ops;
    i, j, g := VertexCallNamed(a, b, true, ops[o]);
  }

  /** A name a successful run adds comes from one of its vertex calls. */
  lemma NewNameCall(p: seq<Node>, ops: seq<Op>, x: string) returns (o: int)
    requires Store(p) && Run(p, ops).code == 0
    requires x in NamesOf(Run(p, ops).ns) && x !in NamesOf(p)
    ensures 0 <= o < |ops| && ops[o].NewVertex? && ops[o].name == x
  {
    RunLabels(p, ops);
    var m := NewLabel(p, AddedLabels(ops), Run(p, ops).ns, x);
    o := AddedLabelOp(ops, m);
  }

  /** A name of a store that extends p's labels by `added`, and that p lacks, is among `added`. */
  lemma NewLabel(p: seq<Node>, added: seq<(string, NodeType)>, ns: seq<Node>, x: string) returns (m: int)
    requires Labels(ns) == Labels(p) + added && x in NamesOf(ns) && x !in NamesOf(p)
    ensures 0 <= m < |added| && added[m].0 == x
  {
    var n :| 0 <= n < |ns| && NamesOf(ns)[n] == x;
    if n < |p| {
      assert false;
    }
    m := n - |p|;
    assert Labels(ns)[n] == added[m];
  }

  // ----- the inner-loop slot, as written -----

  /** a: two entities p-q. */
  function SlipA(): seq<Node>
  {
    [Node("p", 0, [Edge(1, None)], ADJ_BLK_SIZE, NodeNode, None),
     Node("q", 1, [Edge(0, None)], ADJ_BLK_SIZE, NodeNode, None)]
  }

  /** b: two entities x-y, and a gate z of x. */
  function SlipB(): seq<Node>
  {
    [Node("x", 0, [Edge(1, None), Edge(2, None)], ADJ_BLK_SIZE, NodeNode, None),
     Node("y", 1, [Edge(0, None)], ADJ_BLK_SIZE, NodeNode, None),
     Node("z", 2, [Edge(0, None)], ADJ_BLK_SIZE, NodeGate, None)]
  }

  lemma SlipOperands()
    ensures Operands(SlipA(), SlipB()) && Reciprocal(SlipB())
  {
    var a, b := SlipA(), SlipB();
    assert NodeOk(a[0], 0, 2) && NodeOk(a[1], 1, 2);
    assert NodeOk(b[0], 0, 3) && NodeOk(b[1], 1, 3) && NodeOk(b[2], 2, 3);
    assert Targets(b[0].adj) == [1, 2];
    assert Targets(b[1].adj) == [0] && Targets(b[2].adj) == [0];
  }

  /** (q,z) is not the name of a pair of entities of the example. */
  lemma SlipNotAPair()
    ensures PairName("q", "z") !in PairNames(SlipA(), SlipB())
  {
    var a, b := SlipA(), SlipB();
    forall i, j | 0 <= i < |a| && 0 <= j < |b| && b[j].typ == NodeNode
      ensures PairName(a[i].name, b[j].name) != PairName("q", "z")
    {
      assert b[j].name[0] != 'z';
      assert PairName(a[i].name, b[j].name)[3] == b[j].name[0];
    }
    if PairName("q", "z") in PairNames(a, b) {
      var i, j := PairNameOf(a, b, PairName("q", "z"));
      assert false;
    }
  }

  /**
   * As written, the tensor inner loop tests b's k-th neighbour (y, an
   * entity) for every l, so for the pair (p,x) it also asks for an edge
   * to (q,z), z being a gate: no vertex of the product has that name
   * (SlipNotAPair), and the product stops with TOP_E_CONN.
   */
  lemma TensSlipAsWritten()
    ensures Operands(SlipA(), SlipB())
    ensures TensInnerAsWritten(SlipA(), SlipB(), 0, 0, 0)[1] == [NewEdge(PairName("p", "x"), PairName("q", "z"), None)]
  {
    SlipOperands();
    var a, b := SlipA(), SlipB();
    assert Slot(b[0], 0) == Edge(1, None);
  }

  /** After the vertex pass of the example, no vertex is named (q,z). */
  lemma SlipPairMissing(a: seq<Node>, b: seq<Node>)
    requires a == SlipA() && b == SlipB()
    ensures Operands(a, b) && Store([])
    ensures PairName("q", "z") !in NamesOf(Run([], PassOps(a, b, Vertices, true)).ns)
  {
    SlipOperands();
    var x := PairName("q", "z");
    if x in NamesOf(Run([], PassOps(a, b, Vertices, true)).ns) {
      var i, j, g := VertexPassNames(a, b, [], x);
      SlipNamesDiffer(a, b, i, j, g);
    }
  }

  /** No entity pair of the example, and no gate copy of one, is named (q,z). */
  lemma SlipNamesDiffer(a: seq<Node>, b: seq<Node>, i: int, j: int, g: string)
    requires a == SlipA() && b == SlipB()
    requires 0 <= i < |a| && 0 <= j < |b| && b[j].typ == NodeNode
    ensures PairName(a[i].name, b[j].name) != PairName("q", "z")
    ensures GateName(PairName(a[i].name, b[j].name), g) != PairName("q", "z")
  {
    var pair := PairName(a[i].name, b[j].name);
    assert |a[i].name| == 1 && |b[j].name| == 1 && b[j].name[0] != 'z';
    assert pair[3] == b[j].name[0];
    assert |GateName(pair, g)| >= 6;
  }

  /** The tensor pass of the example asks for an edge (p,x)-(q,z). */
  lemma SlipTensCall(a: seq<Node>, b: seq<Node>)
    requires a == SlipA() && b == SlipB()
    ensures Operands(a, b)
    ensures NewEdge(PairName("p", "x"), PairName("q", "z"), None) in PassOps(a, b, TensEdges, true)
  {
    SlipOperands();
    var op := NewEdge(PairName("p", "x"), PairName("q", "z"), None);
    assert TensEdge(a, b, 0, 0, 0, 1, op) by {
      assert Slot(b[0], 0) == Edge(1, None);
    }
    TensEdgesExact(a, b, true, op);
  }

  /** So the tensor product of the example stops with TOP_E_CONN. */
  lemma TensSlipFails(a: seq<Node>, b: seq<Node>)
    requires a == SlipA() && b == SlipB()
    ensures Operands(a, b) && Store([])
    ensures Product(a, b, [], Tensor).code == TOP_E_CONN
  {
    SlipPairMissing(a, b);
    SlipTensCall(a, b);
    var op := NewEdge(PairName("p", "x"), PairName("q", "z"), None);
    var m :| 0 <= m < |PassOps(a, b, TensEdges, true)| && PassOps(a, b, TensEdges, true)[m] == op;
    assert EdgeOps(a, b, Tensor)[m] == op;
    ProductFailsWhenUnnamed(a, b, [], Tensor, m);
  }

  /** The strong product, which begins with the tensor pass, stops with TOP_E_CONN too. */
  lemma StrongSlipFails(a: seq<Node>, b: seq<Node>)
    requires a == SlipA() && b == SlipB()
    ensures Operands(a, b) && Store([])
    ensures Product(a, b, [], Strong).code == TOP_E_CONN
  {
    SlipPairMissing(a, b);
    SlipTensCall(a, b);
    var op := NewEdge(PairName("p", "x"), PairName("q", "z"), None);
    var m :| 0 <= m < |PassOps(a, b, TensEdges, true)| && PassOps(a, b, TensEdges, true)[m] == op;
    assert EdgeOps(a, b, Strong)[m] == op;
    ProductFailsWhenUnnamed(a, b, [], Strong, m);
  }

  /** The lexicographic product of the example stops with TOP_E_CONN too. */
  lemma LexSlipFails(a: seq<Node>, b: seq<Node>)
    requires a == SlipA() && b == SlipB()
    ensures Operands(a, b) && Store([])
    ensures Product(a, b, [], Lexicographic).code == TOP_E_CONN
  {
    SlipPairMissing(a, b);
    var op := NewEdge(PairName("p", "x"), PairName("q", "z"), None);
    assert LexAlongA(a, b, 0, 0, 0, 2, op) by {
      assert Slot(b[0], 0) == Edge(1, None);
    }
    LexEdgesExact(a, b, true, op);
    var m :| 0 <= m < |EdgeOps(a, b, Lexicographic)| && EdgeOps(a, b, Lexicographic)[m] == op;
    ProductFailsWhenUnnamed(a, b, [], Lexicographic, m);
  }

  /**
   * The tensor inner loop as written and as intended agree at slot l
   * exactly when b's k-th and l-th neighbours are both entities or both
   * not, and, when they are, the two slots carry the same attributes.
   */
  lemma TensSlotAgreesIff(a: seq<Node>, b: seq<Node>, i: int, j: int, k: int, l: int)
    requires Operands(a, b) && 0 <= i < |a| && 0 <= j < |b| && 0 <= k < |a[i].adj| && 0 <= l < |b[j].adj|
    ensures TensInnerAsWritten(a, b, i, j, k)[l] == TensInner(a, b, i, j, k)[l] <==>
      (b[Slot(b[j], k).n].typ == NodeNode <==> b[b[j].adj[l].n].typ == NodeNode) &&
      (b[b[j].adj[l].n].typ == NodeNode ==> Slot(b[j], k).attributes == b[j].adj[l].attributes)
  {
  }

  /**
   * The lexicographic inner loop as written and as intended agree at
   * vertex l exactly when b's k-th neighbour and b_l are both entities or
   * both not, and, when they are, b's k-th slot carries a's edge's
   * attributes.
   */
  lemma LexSlotAgreesIff(a: seq<Node>, b: seq<Node>, i: int, j: int, k: int, l: int)
    requires Operands(a, b) && 0 <= i < |a| && 0 <= j < |b| && 0 <= k < |a[i].adj| && 0 <= l < |b|
    ensures LexInnerAsWritten(a, b, i, j, k)[l] == LexInner(a, b, i, j, k)[l] <==>
      (b[Slot(b[j], k).n].typ == NodeNode <==> b[l].typ == NodeNode) &&
      (b[l].typ == NodeNode ==> Slot(b[j], k).attributes == a[i].adj[k].attributes)
  {
  }

  /** Read with the l-th slot, the tensor inner loop asks for no edge to (q,z). */
  lemma TensSlipCorrected()
    ensures Operands(SlipA(), SlipB())
    ensures TensInner(SlipA(), SlipB(), 0, 0, 0)[1] == []
  {
    SlipOperands();
  }

  /** The same slip in the lexicographic inner loop, whose l runs over all of b. */
  lemma LexSlipAsWritten()
    ensures Operands(SlipA(), SlipB())
    ensures LexInnerAsWritten(SlipA(), SlipB(), 0, 0, 0)[2] == [NewEdge(PairName("p", "x"), PairName("q", "z"), None)]
  {
    SlipOperands();
    var a, b := SlipA(), SlipB();
    assert Slot(b[0], 0) == Edge(1, None);
  }

  /** Read with the l-th vertex, the lexicographic inner loop asks for no edge to (q,z). */
  lemma LexSlipCorrected()
    ensures Operands(SlipA(), SlipB())
    ensures LexInner(SlipA(), SlipB(), 0, 0, 0)[2] == []
  {
    SlipOperands();
  }

  // ----- the tensor and lexicographic passes as intended -----

  /** The tensor calls of the pair (i, j), with the inner loop read as intended (TensInner). */
  function IntendedTensParts(a: seq<Node>, b: seq<Node>, i: int, j: int): seq<seq<Op>>
    requires Operands(a, b) && 0 <= i < |a| && 0 <= j < |b|
  {
    seq(|a[i].adj|, k requires 0 <= k < |a[i].adj| =>
      if a[a[i].adj[k].n].typ == NodeNode then Flatten(TensInner(a, b, i, j, k)) else [])
  }

  /** The lexicographic calls along a of the pair (i, j), with the inner loop read as intended (LexInner). */
  function IntendedLexAParts(a: seq<Node>, b: seq<Node>, i: int, j: int): seq<seq<Op>>
    requires Operands(a, b) && 0 <= i < |a| && 0 <= j < |b|
  {
    seq(|a[i].adj|, k requires 0 <= k < |a[i].adj| =>
      if a[a[i].adj[k].n].typ == NodeNode then Flatten(LexInner(a, b, i, j, k)) else [])
  }

  /** The calls of the pair (i, j) in a pass whose inner loops are read as intended; the other passes are unchanged. */
  function IntendedCellOps(a: seq<Node>, b: seq<Node>, i: int, j: int, pass: Pass): seq<Op>
    requires Operands(a, b) && 0 <= i < |a| && 0 <= j < |b|
  {
    match pass
    case TensEdges => Flatten(IntendedTensParts(a, b, i, j))
    case LexEdges => Flatten(IntendedLexAParts(a, b, i, j)) + Flatten(LexBParts(a, b, i, j))
    case _ => CellOps(a, b, i, j, pass, true)
  }

  /** Row i of an intended pass: the entities of b, in order. */
  function IntendedCols(a: seq<Node>, b: seq<Node>, i: int, pass: Pass): seq<seq<Op>>
    requires Operands(a, b) && 0 <= i < |a|
  {
    seq(|b|, j requires 0 <= j < |b| => if b[j].typ == NodeNode then IntendedCellOps(a, b, i, j, pass) else [])
  }

  /** Every call of an intended pass, A-major, as PassOps. */
  function IntendedPassOps(a: seq<Node>, b: seq<Node>, pass: Pass): seq<Op>
    requires Operands(a, b)
  {
    Flatten(seq(|a|, i requires 0 <= i < |a| => if a[i].typ == NodeNode then Flatten(IntendedCols(a, b, i, pass)) else []))
  }

  /** Product with the inner loops of the tensor and lexicographic passes read as intended. */
  function IntendedProduct(a: seq<Node>, b: seq<Node>, p: seq<Node>, kind: Kind): Built
    requires Operands(a, b) && Store(p)
  {
    var v := Run(p, PassOps(a, b, Vertices, true));
    match kind
    case Cartesian => Run(v.ns, IntendedPassOps(a, b, CartEdges))
    case Tensor => Run(v.ns, IntendedPassOps(a, b, TensEdges))
    case Lexicographic => Run(v.ns, IntendedPassOps(a, b, LexEdges))
    case Strong =>
      var t := Run(v.ns, IntendedPassOps(a, b, TensEdges));
      if t.code != 0 then t else Run(t.ns, IntendedPassOps(a, b, CartEdges))
  }

  /**
   * Read as intended, the tensor inner loop of an entity pair (i, j) and
   * an entity neighbour a' of a_i only asks for edges between entity
   * pairs, whatever the operands.
   */
  lemma {:induction false} TensInnerPaired(a: seq<Node>, b: seq<Node>, i: int, j: int, k: int, op: Op)
    requires Operands(a, b) && 0 <= i < |a| && 0 <= j < |b| && 0 <= k < |a[i].adj|
    requires a[i].typ == NodeNode && b[j].typ == NodeNode && a[a[i].adj[k].n].typ == NodeNode
    requires op in Flatten(TensInner(a, b, i, j, k))
    ensures op.NewEdge? && op.from in PairNames(a, b) && op.to in PairNames(a, b)
  {
    var parts := TensInner(a, b, i, j, k);
    InFlatten(parts, op);
    var l :| 0 <= l < |parts| && op in parts[l];
    assert NodeOk(a[i], i, |a|) && NodeOk(b[j], j, |b|);
    PairNamed(a, b, i, j);
    PairNamed(a, b, a[i].adj[k].n, b[j].adj[l].n);
  }

  /**
   * Read as intended, the lexicographic inner loop of an entity pair
   * (i, j) and an entity neighbour a' of a_i only asks for edges between
   * entity pairs, whatever the operands.
   */
  lemma {:induction false} LexInnerPaired(a: seq<Node>, b: seq<Node>, i: int, j: int, k: int, op: Op)
    requires Operands(a, b) && 0 <= i < |a| && 0 <= j < |b| && 0 <= k < |a[i].adj|
    requires a[i].typ == NodeNode && b[j].typ == NodeNode && a[a[i].adj[k].n].typ == NodeNode
    requires op in Flatten(LexInner(a, b, i, j, k))
    ensures op.NewEdge? && op.from in PairNames(a, b) && op.to in PairNames(a, b)
  {
    var parts := LexInner(a, b, i, j, k);
    InFlatten(parts, op);
    var l :| 0 <= l < |parts| && op in parts[l];
    assert NodeOk(a[i], i, |a|);
    PairNamed(a, b, i, j);
    PairNamed(a, b, a[i].adj[k].n, l);
  }

  /** Every edge call of an entity pair in an intended edge pass joins two entity pairs. */
  lemma {:induction false} IntendedCellPaired(a: seq<Node>, b: seq<Node>, i: int, j: int, pass: Pass, op: Op)
    requires Operands(a, b) && 0 <= i < |a| && 0 <= j < |b| && a[i].typ == NodeNode && b[j].typ == NodeNode
    requires pass != Vertices && op in IntendedCellOps(a, b, i, j, pass)
    ensures op.NewEdge? && op.from in PairNames(a, b) && op.to in PairNames(a, b)
  {
    match pass
    case CartEdges =>
      CellInPass(a, b, CartEdges, true, i, j, op);
      EdgeEndsArePairs(a, b, true, op);
    case TensEdges =>
      var parts := IntendedTensParts(a, b, i, j);
      InFlatten(parts, op);
      var k :| 0 <= k < |parts| && op in parts[k];
      TensInnerPaired(a, b, i, j, k, op);
    case LexEdges =>
      var aparts := IntendedLexAParts(a, b, i, j);
      var bparts := LexBParts(a, b, i, j);
      if op in Flatten(aparts) {
        InFlatten(aparts, op);
        var k :| 0 <= k < |aparts| && op in aparts[k];
        LexInnerPaired(a, b, i, j, k, op);
      } else {
        InFlatten(bparts, op);
        var k :| 0 <= k < |bparts| && op in bparts[k];
        assert NodeOk(b[j], j, |b|);
        PairNamed(a, b, i, j);
        PairNamed(a, b, i, b[j].adj[k].n);
      }
  }

  /** Every call of an intended edge pass joins two entity pairs. */
  lemma {:induction false} IntendedPassPaired(a: seq<Node>, b: seq<Node>, pass: Pass, op: Op)
    requires Operands(a, b) && pass != Vertices && op in IntendedPassOps(a, b, pass)
    ensures op.NewEdge? && op.from in PairNames(a, b) && op.to in PairNames(a, b)
  {
    var rows := seq(|a|, i requires 0 <= i < |a| => if a[i].typ == NodeNode then Flatten(IntendedCols(a, b, i, pass)) else []);
    InFlatten(rows, op);
    var i :| 0 <= i < |rows| && op in rows[i];
    var cols := IntendedCols(a, b, i, pass);
    InFlatten(cols, op);
    var j :| 0 <= j < |cols| && op in cols[j];
    IntendedCellPaired(a, b, i, j, pass, op);
  }

  /**
   * With the inner loops read as intended, no product of two well-formed
   * graphs fails: every edge call joins two entity pairs, which the vertex
   * pass has added.
   */
  lemma {:induction false} IntendedProductNeverFails(a: seq<Node>, b: seq<Node>, p: seq<Node>, kind: Kind)
    requires Operands(a, b) && Store(p)
    ensures IntendedProduct(a, b, p, kind).code == 0
  {
    var v := Run(p, PassOps(a, b, Vertices, true));
    var tens := IntendedPassOps(a, b, TensEdges);
    var cart := IntendedPassOps(a, b, CartEdges);
    var ops := match kind
      case Cartesian => cart
      case Tensor => tens
      case Lexicographic => IntendedPassOps(a, b, LexEdges)
      case Strong => tens + cart;
    forall op | op in ops
      ensures op.NewEdge? && op.from in PairNames(a, b) && op.to in PairNames(a, b)
    {
      if kind == Strong {
        if op in tens {
          IntendedPassPaired(a, b, TensEdges, op);
        } else {
          IntendedPassPaired(a, b, CartEdges, op);
        }
      } else {
        IntendedPassPaired(a, b, match kind case Cartesian => CartEdges case Tensor => TensEdges case _ => LexEdges, op);
      }
    }
    PairedRunSucceeds(a, b, p, ops);
    if kind == Strong {
      RunAppend(v.ns, tens, cart);
    }
  }
}
