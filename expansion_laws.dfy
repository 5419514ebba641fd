/**
 * What the expansion of src/topologies.c promises, proved about the
 * functions of module Expansion: how a connection fails, the freshness of
 * an auto gate, the vertices a gate and a product insertion add, and the
 * order in which loop turns run.
 */
module ExpansionLaws {
  import opened Basics
  import opened Errors
  import opened GraphStore
  import opened GraphOps
  import opened NameStack
  import opened ParamStack
  import opened Defs
  import opened Expansion
  import Products
  import ProductLaws

  // ----- module lookup -----

  /**
   * find_module's loop, when it reads no NULL name, finds the first
   * module with the name and reports a missing one exactly when no module
   * has it.
   */
  lemma LookupAgrees(ms: seq<Module>, name: string)
    requires !ModuleLookup(ms, name, 0).Unnamed?
    ensures ModuleLookup(ms, name, 0) == if FindModule(ms, name) >= 0 then Found(FindModule(ms, name)) else Missing
  {
    var r := FindModule(ms, name);
    match ModuleLookup(ms, name, 0)
    case Found(k) =>
      assert r >= 0 by {
        assert ms[k].name == Some(name);
      }
      assert r == k;
    case Missing =>
  }

  // ----- connections -----

  /** graph_eval_and_add_edge fails with TOP_E_CONN exactly when an endpoint name is not in the graph. */
  lemma ConnectFailsIffMissing(ns: seq<Node>, names: seq<string>, nameA: string, nameB: string)
    requires Store(ns) && |names| >= 1
    ensures Connect(ns, names, nameA, nameB).Fail? <==>
      IndexOf(ns, FullName(names, nameA, -1)) < 0 || IndexOf(ns, FullName(names, nameB, -1)) < 0
  {
    var a := IndexOf(ns, FullName(names, nameA, -1));
    var b := IndexOf(ns, FullName(names, nameB, -1));
    if a >= 0 && b >= 0 {
      var (ns1, x) := Endpoint(ns, names, a, nameA);
      var (ns2, y) := Endpoint(ns1, names, b, nameB);
      assert x < |ns1| <= |ns2|;
      assert EdgeIdsValid(|ns2|, x, y);
    }
  }

  /**
   * The outcome of one plain connection: TOP_E_EVAL exactly when an
   * endpoint name does not evaluate, TOP_E_CONN exactly when both evaluate
   * and one of them names no vertex of the scope, and success otherwise;
   * a NULL endpoint is read when it is `from`, or when it is `to` and
   * `from` evaluates.
   */
  lemma AddConnectionOutcome(ns: seq<Node>, names: seq<string>, ps: seq<Param>, from: Option<string>, to: Option<string>, ev: Evaluator)
    requires Store(ns) && |names| >= 1
    ensures var r := AddConnection(ns, names, ps, from, to, ev);
      (from.None? ==> r == NullRead) &&
      (from.Some? && to.None? ==> (r == NullRead <==> ConnName(ps, from.value, ev).Some?) && (r.NullRead? || r == Fail(TOP_E_EVAL)))
    ensures from.Some? && to.Some? ==>
      var r := AddConnection(ns, names, ps, from, to, ev);
      var nameA := ConnName(ps, from.value, ev);
      var nameB := ConnName(ps, to.value, ev);
      (r == Fail(TOP_E_EVAL) <==> nameA.None? || nameB.None?) &&
      (r == Fail(TOP_E_CONN) <==>
        (nameA.Some? && nameB.Some? &&
         (IndexOf(ns, FullName(names, nameA.value, -1)) < 0 || IndexOf(ns, FullName(names, nameB.value, -1)) < 0))) &&
      (r.Ok? || r == Fail(TOP_E_EVAL) || r == Fail(TOP_E_CONN))
  {
    if from.Some? && to.Some? {
      var nameA := ConnName(ps, from.value, ev);
      var nameB := ConnName(ps, to.value, ev);
      if nameA.Some? && nameB.Some? {
        ConnectFailsIffMissing(ns, names, nameA.value, nameB.value);
      }
    }
  }

  /** Two gate endpoints are joined directly: one edge, nothing else added. */
  lemma ConnectGatesDirectly(ns: seq<Node>, names: seq<string>, nameA: string, nameB: string)
    requires Store(ns) && |names| >= 1
    requires var a := IndexOf(ns, FullName(names, nameA, -1));
      var b := IndexOf(ns, FullName(names, nameB, -1));
      a >= 0 && b >= 0 && ns[a].typ != NodeNode && ns[b].typ != NodeNode
    ensures Connect(ns, names, nameA, nameB) ==
      Ok(WithEdge(ns, IndexOf(ns, FullName(names, nameA, -1)), IndexOf(ns, FullName(names, nameB, -1)), None))
  {
  }

  /** A connection adds one auto gate per entity endpoint and no other vertex. */
  lemma ConnectAddsAutoGates(ns: seq<Node>, names: seq<string>, nameA: string, nameB: string)
    requires Store(ns) && |names| >= 1
    ensures var r := Connect(ns, names, nameA, nameB);
      var a := IndexOf(ns, FullName(names, nameA, -1));
      var b := IndexOf(ns, FullName(names, nameB, -1));
      r.Ok? ==> |r.ns| == |ns| + (if ns[a].typ == NodeNode then 1 else 0) + (if ns[b].typ == NodeNode then 1 else 0)
  {
    var a := IndexOf(ns, FullName(names, nameA, -1));
    var b := IndexOf(ns, FullName(names, nameB, -1));
    if a >= 0 && b >= 0 {
      var (ns1, x) := Endpoint(ns, names, a, nameA);
      EndpointSize(ns, names, a, nameA);
      assert ns1[b].typ == ns[b].typ;
      var (ns2, y) := Endpoint(ns1, names, b, nameB);
      EndpointSize(ns1, names, b, nameB);
      if EdgeIdsValid(|ns2|, x, y) {
        WithEdgeShape(ns2, x, y, None);
      }
    }
  }

  /** An endpoint adds a vertex exactly when it is an entity. */
  lemma EndpointSize(ns: seq<Node>, names: seq<string>, n: int, name: string)
    requires Store(ns) && |names| >= 1 && 0 <= n < |ns|
    ensures |Endpoint(ns, names, n, name).0| == |ns| + (if ns[n].typ == NodeNode then 1 else 0)
  {
  }

  // ----- auto gates -----

  /** The full name of auto-gate candidate k in the scope es. */
  function AutoFull(es: seq<string>, k: int): string
    requires |es| >= 1
  {
    FullName(es, AutoName(k), -1)
  }

  /**
   * add_auto_gate's search stops at the least free candidate: every
   * candidate before it is a neighbour's name, and it is itself free
   * unless every candidate from j below INT_MAX is taken.
   */
  lemma {:induction false} AutoIndexLeast(taken: seq<string>, es: seq<string>, j: int)
    requires |es| >= 1 && 0 <= j <= INT_MAX
    ensures var r := AutoIndex(taken, es, j);
      (forall k :: j <= k < r ==> AutoFull(es, k) in taken) &&
      (AutoFull(es, r) !in taken || forall k :: j <= k < INT_MAX ==> AutoFull(es, k) in taken)
    decreases INT_MAX - j
  {
    if j < INT_MAX && AutoFull(es, j) in taken && j + 1 < INT_MAX {
      AutoIndexLeast(taken, es, j + 1);
    }
  }

  /** Distinct candidates have distinct full names. */
  lemma AutoFullInjective(es: seq<string>, i: int, j: int)
    requires |es| >= 1 && AutoFull(es, i) == AutoFull(es, j)
    ensures i == j
  {
    var p := Join(es) + "." + "_auto[";
    AutoFullShape(es, i, p);
    AutoFullShape(es, j, p);
    AffixCancel(p, "]", Decimal(i), Decimal(j));
    DecimalInjective(i, j);
  }

  lemma AutoFullShape(es: seq<string>, i: int, p: string)
    requires |es| >= 1 && p == Join(es) + "." + "_auto["
    ensures AutoFull(es, i) == p + Decimal(i) + "]"
  {
    Regroup(Join(es), ".", "_auto[", Decimal(i), "]");
  }

  lemma Regroup(a: string, b: string, c: string, d: string, e: string)
    ensures a + b + (c + d + e) + [] == a + b + c + d + e
  {
  }

  /** Strings with the same prefix and suffix are equal exactly when their middles are. */
  lemma AffixCancel(p: string, q: string, m1: string, m2: string)
    requires p + m1 + q == p + m2 + q
    ensures m1 == m2
  {
    assert |m1| == |m2|;
    assert m1 == (p + m1 + q)[|p|..|p| + |m1|];
    assert m2 == (p + m2 + q)[|p|..|p| + |m2|];
  }

  /** The full names of candidates 0..n-1 are n distinct strings. */
  lemma {:induction false} AutoFullCount(es: seq<string>, n: nat)
    requires |es| >= 1
    ensures |set k | 0 <= k < n :: AutoFull(es, k)| == n
    decreases n
  {
    if n > 0 {
      AutoFullCount(es, n - 1);
      var s := set k | 0 <= k < n - 1 :: AutoFull(es, k);
      assert (set k | 0 <= k < n :: AutoFull(es, k)) == s + {AutoFull(es, n - 1)};
      if AutoFull(es, n - 1) in s {
        var k :| 0 <= k < n - 1 && AutoFull(es, k) == AutoFull(es, n - 1);
        AutoFullInjective(es, k, n - 1);
      }
    }
  }

  /** A sequence has at most as many distinct elements as entries. */
  lemma {:induction false} DistinctAtMost(xs: seq<string>)
    ensures |set x | x in xs| <= |xs|
    decreases |xs|
  {
    if |xs| > 0 {
      var init := xs[..|xs| - 1];
      DistinctAtMost(init);
      assert (set x | x in xs) == (set x | x in init) + {xs[|xs| - 1]};
    }
  }

  /** A subset is no larger than its superset. */
  lemma SubsetSmaller(a: set<string>, b: set<string>)
    requires a <= b
    ensures |a| <= |b|
  {
    assert b == a + (b - a);
  }

  /**
   * With fewer than INT_MAX neighbours, some candidate is free, so
   * add_auto_gate's gate name is carried by no neighbour.
   */
  lemma AutoIndexFree(taken: seq<string>, es: seq<string>)
    requires |es| >= 1 && |taken| < INT_MAX
    ensures AutoFull(es, AutoIndex(taken, es, 0)) !in taken
  {
    AutoIndexLeast(taken, es, 0);
    if AutoFull(es, AutoIndex(taken, es, 0)) in taken {
      var all := set k | 0 <= k < INT_MAX :: AutoFull(es, k);
      AutoFullCount(es, INT_MAX);
      SubsetSmaller(all, set x | x in taken);
      DistinctAtMost(taken);
    }
  }

  /**
   * add_auto_gate adds a gate vertex named `<scope>.<name>._auto[j]`
   * whose name no neighbour of n carries (when n has fewer than INT_MAX
   * neighbours); when that name is new to the graph, the gate is the new
   * last vertex, joined to n and to nothing else, and it is the endpoint
   * returned.
   */
  lemma AutoGateJoins(ns: seq<Node>, names: seq<string>, n: int, name: string)
    requires Store(ns) && |names| >= 1 && 0 <= n < |ns|
    ensures var es := names + [Segment(name, -1)];
      var full := AutoFull(es, AutoIndex(NeighbourNames(ns, n), es, 0));
      var (ms, m) := AutoGate(ns, names, n, name);
      ms[|ns|].name == full && ms[|ns|].typ == NodeGate &&
      (|ns[n].adj| < INT_MAX ==> full !in NeighbourNames(ns, n)) &&
      (full !in NamesOf(ns) ==>
        m == |ns| && ms[n].adj == ns[n].adj + [Edge(|ns|, None)] && ms[|ns|].adj == [Edge(n, None)])
  {
    var es := names + [Segment(name, -1)];
    var full := AutoFull(es, AutoIndex(NeighbourNames(ns, n), es, 0));
    if |ns[n].adj| < INT_MAX {
      AutoIndexFree(NeighbourNames(ns, n), es);
    }
    var ns1 := Step(ns, NewVertex(full, NodeGate, None)).ns;
    assert ns1[|ns|].name == full;
    var m := IndexOf(ns1, full);
    WithEdgeShape(ns1, n, m, None);
    if full !in NamesOf(ns) {
      assert forall k :: 0 <= k < |ns| ==> ns1[k].name != full by {
        forall k | 0 <= k < |ns|
          ensures ns1[k].name != full
        {
          assert NamesOf(ns)[k] == ns[k].name;
        }
      }
      IndexOfFirst(ns1, full, |ns|);
    }
  }

  // ----- gates -----

  /** The integers j..n-1 in order. */
  function Range(j: int, n: int): (r: seq<int>)
    ensures |r| == if j < n then n - j else 0
    ensures forall k :: 0 <= k < |r| ==> r[k] == j + k
    decreases n - j
  {
    if j >= n then [] else [j] + Range(j + 1, n)
  }

  /** The indices add_gate gives the copies of a gate of evaluated size: -1 (unindexed) for 0, else 0..size-1. */
  function CopyIndices(size: int): seq<int>
  {
    if size == 0 then [-1] else Range(0, size)
  }

  /** The gate vertices `<scope>.<gate>` (with `[j]` for j >= 0) for the given indices. */
  function GateLabels(names: seq<string>, gate: string, idx: seq<int>): (r: seq<(string, NodeType)>)
    requires |names| >= 1
    ensures |r| == |idx|
    ensures forall k :: 0 <= k < |idx| ==> r[k] == (FullName(names, gate, idx[k]), NodeGate)
  {
    seq(|idx|, k requires 0 <= k < |idx| => (FullName(names, gate, idx[k]), NodeGate))
  }

  lemma {:induction false} AddedLabelsAppend(o1: seq<Op>, o2: seq<Op>)
    ensures AddedLabels(o1 + o2) == AddedLabels(o1) + AddedLabels(o2)
    decreases |o1|
  {
    if |o1| == 0 {
      assert o1 + o2 == o2;
    } else {
      assert (o1 + o2)[0] == o1[0] && (o1 + o2)[1..] == o1[1..] + o2;
      AddedLabelsAppend(o1[1..], o2);
    }
  }

  /** One copy adds one gate vertex. */
  lemma GateOpsLabels(names: seq<string>, owner: Option<string>, gate: string, j: int)
    requires |names| >= 1
    ensures AddedLabels(GateOps(names, owner, gate, j)) == [(FullName(names, gate, j), NodeGate)]
  {
    var ops := GateOps(names, owner, gate, j);
    assert ops[0].NewVertex?;
    if owner.Some? {
      assert ops[1..][1..] == [];
      assert AddedLabels(ops[1..]) == [] + AddedLabels(ops[1..][1..]);
    } else {
      assert ops[1..] == [];
    }
  }

  lemma {:induction false} CopiesFromLabels(names: seq<string>, owner: Option<string>, gate: string, j: int, size: int)
    requires |names| >= 1
    ensures AddedLabels(CopiesFrom(names, owner, gate, j, size)) == GateLabels(names, gate, Range(j, size))
    decreases size - j
  {
    if j < size {
      CopiesFromLabels(names, owner, gate, j + 1, size);
      GateOpsLabels(names, owner, gate, j);
      AddedLabelsAppend(GateOps(names, owner, gate, j), CopiesFrom(names, owner, gate, j + 1, size));
    }
  }

  /**
   * A gate of evaluated size 0 adds the one vertex `<scope>.<gate>`; of
   * size n > 0 the vertices `<scope>.<gate>[0]` .. `<scope>.<gate>[n-1]`;
   * of negative size none.
   */
  lemma GateCopiesLabels(names: seq<string>, owner: Option<string>, gate: string, size: int)
    requires |names| >= 1
    ensures AddedLabels(GateCopies(names, owner, gate, size)) == GateLabels(names, gate, CopyIndices(size))
  {
    if size == 0 {
      GateOpsLabels(names, owner, gate, -1);
    } else {
      CopiesFromLabels(names, owner, gate, 0, size);
    }
  }

  /** Copies j..size-1 resolve when the owner's vertex exists: each edge joins the copy just added to it. */
  lemma {:induction false} CopiesFromResolvable(known: seq<string>, names: seq<string>, owner: Option<string>, gate: string, j: int, size: int)
    requires |names| >= 1 && (owner.Some? ==> owner.value in known)
    ensures Resolvable(known, CopiesFrom(names, owner, gate, j, size))
    decreases size - j
  {
    if j < size {
      GateOpsResolvable(known, names, owner, gate, j);
      CopiesFromResolvable(known + AddedNames(GateOps(names, owner, gate, j)), names, owner, gate, j + 1, size);
      ResolvableAppend(known, GateOps(names, owner, gate, j), CopiesFrom(names, owner, gate, j + 1, size));
    }
  }

  lemma GateOpsResolvable(known: seq<string>, names: seq<string>, owner: Option<string>, gate: string, j: int)
    requires |names| >= 1 && (owner.Some? ==> owner.value in known)
    ensures Resolvable(known, GateOps(names, owner, gate, j))
  {
    var ops := GateOps(names, owner, gate, j);
    var x := FullName(names, gate, j);
    if owner.Some? {
      assert ops[1..][1..] == [];
      assert Resolvable(known + [x], ops[1..]);
    } else {
      assert ops[1..] == [];
    }
  }

  /**
   * add_gate's edge calls cannot fail: a simple module's gates join the
   * module's own vertex, which exists, and a compound module's gates make
   * no edge call; so the gates of a module fail only on a size that does
   * not evaluate.
   */
  lemma {:induction false} GatesFailOnlyOnEval(gates: seq<Gate>, i: nat, ns: seq<Node>, names: seq<string>,
                                               owner: Option<string>, ps: seq<Param>, ev: Evaluator)
    requires i <= |gates| && Store(ns) && |names| >= 1
    requires owner.Some? ==> owner.value in NamesOf(ns)
    ensures GatesFrom(gates, i, ns, names, owner, ps, ev).Fail? ==> GatesFrom(gates, i, ns, names, owner, ps, ev).code == TOP_E_EVAL
    decreases |gates| - i
  {
    if i < |gates| && gates[i].size.Some? {
      var size := EvalInt(ps, gates[i].size.value, ev);
      if size.Some? && (gates[i].name.Some? || size.value < 0) {
        var ops := GateCopies(names, owner, GateName(gates[i]), size.value);
        if size.value == 0 {
          GateOpsResolvable(NamesOf(ns), names, owner, GateName(gates[i]), -1);
        } else {
          CopiesFromResolvable(NamesOf(ns), names, owner, GateName(gates[i]), 0, size.value);
        }
        ResolvableRuns(ns, ops);
        var b := Run(ns, ops);
        RunExtends(ns, ops);
        if owner.Some? {
          var k :| 0 <= k < |ns| && NamesOf(ns)[k] == owner.value;
          assert NamesOf(b.ns)[k] == owner.value;
        }
        GatesFailOnlyOnEval(gates, i + 1, b.ns, names, owner, ps, ev);
      }
    }
  }

  /** A simple module fails only on a gate size that does not evaluate. */
  lemma SimpleModuleFailsOnlyOnEval(m: Module, ns: seq<Node>, names: seq<string>, ps: seq<Param>, ev: Evaluator)
    requires m.typ == Simple && Store(ns) && |names| >= 1
    ensures SimpleModule(m, ns, names, ps, ev).Fail? ==> SimpleModule(m, ns, names, ps, ev).code == TOP_E_EVAL
  {
    if m.attributes.Some? {
      var self := Join(names);
      var ns1 := Step(ns, NewVertex(self, NodeNode, None)).ns;
      assert ns1[|ns|].name == self;
      var ns2 := SetAttributes(ns1, IndexOf(ns1, self), m.attributes);
      SetAttributesKeeps(ns1, IndexOf(ns1, self), m.attributes);
      assert NamesOf(ns2)[|ns|] == self;
      GatesFailOnlyOnEval(Gates(m), 0, ns2, names, Some(self), ps, ev);
    }
  }

  // ----- products -----

  /**
   * graphs_product of two well-formed graphs never fails: the Cartesian
   * edge calls name only entity pairs, which the vertex pass has added.
   */
  lemma GraphsProductNeverFails(a: seq<Node>, b: seq<Node>)
    requires Products.Operands(a, b)
    ensures GraphsProduct(a, b).code == 0
    ensures ProductLaws.EntityNames(Labels(GraphsProduct(a, b).ns)) == ProductLaws.PairNames(a, b)
  {
    var v := Run([], Products.PassOps(a, b, Products.Vertices, false));
    ProductLaws.ProductVertices(a, b, [], false);
    assert ProductLaws.EntityNames(Labels([])) == [];
    var names := NamesOf(v.ns);
    forall x | x in ProductLaws.PairNames(a, b)
      ensures x in names
    {
      ProductLaws.EntityIsNamed(v.ns, x);
    }
    var ops := Products.PassOps(a, b, Products.CartEdges, false);
    forall op | op in ops
      ensures op.NewEdge? && op.from in names && op.to in names
    {
      ProductLaws.EdgeEndsArePairs(a, b, false, op);
    }
    ProductLaws.EdgesResolvable(names, ops);
    ResolvableRuns(v.ns, ops);
    RunLabels(v.ns, ops);
    EdgesAddNoLabels(ops);
    assert Labels(GraphsProduct(a, b).ns) == Labels(v.ns);
  }

  /** Edge calls add no vertex. */
  lemma {:induction false} EdgesAddNoLabels(ops: seq<Op>)
    requires forall op :: op in ops ==> op.NewEdge?
    ensures AddedLabels(ops) == []
    decreases |ops|
  {
    if |ops| > 0 {
      assert ops[0] in ops;
      assert forall op :: op in ops[1..] ==> op in ops;
      EdgesAddNoLabels(ops[1..]);
    }
  }

  /** The edge call graph_insert makes for adjacency entry k of product vertex i, which points at or below i. */
  predicate InsertedEdge(prod: seq<Node>, scope: string, i: int, k: int, op: Op)
  {
    0 <= i < |prod| && 0 <= k < |prod[i].adj| && 0 <= prod[i].adj[k].n <= i &&
    op == NewEdge(Scoped(scope, prod[i].name), Scoped(scope, prod[prod[i].adj[k].n].name), None)
  }

  /**
   * graph_insert's edge loop makes exactly the calls for the adjacency
   * entries that point at or below their own vertex: each edge of the
   * product is asked for once, from its higher end.
   */
  lemma InsertEdgeExact(prod: seq<Node>, scope: string, op: Op)
    requires WellFormed(prod)
    ensures op in InsertEdgeOps(prod, scope) <==> exists i, k :: InsertedEdge(prod, scope, i, k, op)
  {
    if op in InsertEdgeOps(prod, scope) {
      var i, k := InsertEdgeSound(prod, scope, op);
    }
    if exists i, k :: InsertedEdge(prod, scope, i, k, op) {
      var i, k :| InsertedEdge(prod, scope, i, k, op);
      InsertEdgeComplete(prod, scope, i, k, op);
    }
  }

  function InsertRows(prod: seq<Node>, scope: string): (r: seq<seq<Op>>)
    requires WellFormed(prod)
    ensures |r| == |prod| && Products.Flatten(r) == InsertEdgeOps(prod, scope)
    ensures forall i :: 0 <= i < |prod| ==> r[i] == Products.Flatten(InsertRowOps(prod, scope, i))
  {
    seq(|prod|, i requires 0 <= i < |prod| => Products.Flatten(InsertRowOps(prod, scope, i)))
  }

  lemma InsertEdgeSound(prod: seq<Node>, scope: string, op: Op) returns (i: int, k: int)
    requires WellFormed(prod) && op in InsertEdgeOps(prod, scope)
    ensures InsertedEdge(prod, scope, i, k, op)
  {
    var rows := InsertRows(prod, scope);
    ProductLaws.InFlatten(rows, op);
    i :| 0 <= i < |rows| && op in rows[i];
    var cells := InsertRowOps(prod, scope, i);
    ProductLaws.InFlatten(cells, op);
    k :| 0 <= k < |cells| && op in cells[k];
    assert NodeOk(prod[i], i, |prod|);
  }

  lemma InsertEdgeComplete(prod: seq<Node>, scope: string, i: int, k: int, op: Op)
    requires WellFormed(prod) && InsertedEdge(prod, scope, i, k, op)
    ensures op in InsertEdgeOps(prod, scope)
  {
    var rows := InsertRows(prod, scope);
    var cells := InsertRowOps(prod, scope, i);
    assert op in cells[k];
    ProductLaws.InFlatten(cells, op);
    assert op in rows[i];
    ProductLaws.InFlatten(rows, op);
  }

  /** Vertex calls resolve against any names, and add their names in order. */
  lemma {:induction false} VerticesResolvable(known: seq<string>, ops: seq<Op>)
    requires forall k :: 0 <= k < |ops| ==> ops[k].NewVertex?
    ensures Resolvable(known, ops)
    ensures AddedNames(ops) == seq(|ops|, k requires 0 <= k < |ops| => ops[k].name)
    decreases |ops|
  {
    if |ops| > 0 {
      assert forall k :: 0 <= k < |ops[1..]| ==> ops[1..][k] == ops[k + 1];
      VerticesResolvable(known + [ops[0].name], ops[1..]);
    }
  }

  /** The vertices graph_insert adds: every product vertex as `<scope>.<name>`, with its type. */
  function ScopedLabels(prod: seq<Node>, scope: string): (r: seq<(string, NodeType)>)
    ensures |r| == |prod|
    ensures forall i :: 0 <= i < |prod| ==> r[i] == (Scoped(scope, prod[i].name), prod[i].typ)
  {
    seq(|prod|, i requires 0 <= i < |prod| => (Scoped(scope, prod[i].name), prod[i].typ))
  }

  /**
   * graph_insert never fails on a well-formed product: every edge call
   * names two product vertices it has just copied.  It appends exactly
   * the copies `<scope>.<name>` of the product's vertices, with their
   * types, in order.
   */
  lemma InsertNeverFails(ns: seq<Node>, prod: seq<Node>, scope: string)
    requires Store(ns) && WellFormed(prod)
    ensures Run(ns, InsertOps(prod, scope)).code == 0
    ensures Labels(Run(ns, InsertOps(prod, scope)).ns) == Labels(ns) + ScopedLabels(prod, scope)
  {
    var vops := InsertVertexOps(prod, scope);
    var eops := InsertEdgeOps(prod, scope);
    VerticesResolvable(NamesOf(ns), vops);
    var names := NamesOf(ns) + AddedNames(vops);
    forall op | op in eops
      ensures op.NewEdge? && op.from in names && op.to in names
    {
      InsertEdgeExact(prod, scope, op);
      var i, k :| InsertedEdge(prod, scope, i, k, op);
      var t := prod[i].adj[k].n;
      assert names[|ns| + i] == Scoped(scope, prod[i].name);
      assert names[|ns| + t] == Scoped(scope, prod[t].name);
    }
    ProductLaws.EdgesResolvable(names, eops);
    ResolvableAppend(NamesOf(ns), vops, eops);
    ResolvableRuns(ns, vops + eops);
    RunLabels(ns, vops + eops);
    AddedLabelsAppend(vops, eops);
    forall op | op in eops
      ensures op.NewEdge?
    {
      InsertEdgeExact(prod, scope, op);
    }
    EdgesAddNoLabels(eops);
    VertexLabels(vops);
    assert AddedLabels(vops) == ScopedLabels(prod, scope);
  }

  /** The labels vertex calls add. */
  lemma {:induction false} VertexLabels(ops: seq<Op>)
    requires forall k :: 0 <= k < |ops| ==> ops[k].NewVertex?
    ensures AddedLabels(ops) == seq(|ops|, k requires 0 <= k < |ops| => (ops[k].name, ops[k].typ))
    decreases |ops|
  {
    if |ops| > 0 {
      assert forall k :: 0 <= k < |ops[1..]| ==> ops[1..][k] == ops[k + 1];
      VertexLabels(ops[1..]);
    }
  }

  /**
   * A product of two compacted operands, inserted under the current
   * scope, always succeeds and adds `<scope>.<v>` for every vertex v of
   * graphs_product's result.
   */
  lemma ProductIntoSucceeds(ns: seq<Node>, names: seq<string>, a: seq<Node>, b: seq<Node>)
    requires Store(ns) && |names| >= 1 && Store(a) && Store(b)
    ensures ProductInto(ns, names, a, b).Ok?
    ensures Labels(ProductInto(ns, names, a, b).ns) == Labels(ns) + ScopedLabels(GraphsProduct(a, b).ns, Join(names))
  {
    GraphsProductNeverFails(a, b);
    InsertNeverFails(ns, GraphsProduct(a, b).ns, Join(names));
  }

  /** A product submodule fails exactly when one of its operands fails to expand. */
  lemma ProductFailsOnlyInOperands(d: Definition, sm: Submodule, ns: seq<Node>, names: seq<string>, ps: seq<Param>, ev: Evaluator, fuel: nat)
    requires sm.Product? && Store(ns) && |names| >= 1
    ensures AddSubmodule(d, sm, ns, names, ps, ev, fuel).Ok? <==>
      Operand(d, sm.a, ps, ev, fuel).Ok? && Operand(d, sm.b, ps, ev, fuel).Ok?
  {
    var ca := Operand(d, sm.a, ps, ev, fuel);
    var cb := Operand(d, sm.b, ps, ev, fuel);
    if ca.Ok? && cb.Ok? {
      ProductIntoSucceeds(ns, names, ca.ns, cb.ns);
    }
  }

  // ----- loops and conditionals -----

  /**
   * A connection loop whose bounds are present and evaluate fails with
   * TOP_E_LOOP when start > end, adds nothing when start == end, and
   * otherwise runs its turns from start on.
   */
  lemma LoopBounds(c: Connection, ns: seq<Node>, names: seq<string>, ps: seq<Param>, ev: Evaluator)
    requires c.Loop? && c.start.Some? && c.end.Some? && Store(ns) && |names| >= 1
    requires EvalInt(ps, c.start.value, ev).Some? && EvalInt(ps, c.end.value, ev).Some?
    ensures var s := EvalInt(ps, c.start.value, ev).value;
      var e := EvalInt(ps, c.end.value, ev).value;
      var r := Traverse(c, ns, names, ps, ev);
      (s > e ==> r == Fail(TOP_E_LOOP)) &&
      (s == e ==> r == Ok(ns)) &&
      (s < e ==> r == LoopFrom(c, s, e, ns, names, ps, ev))
  {
  }

  /** The turns j..end-1 are the turns j..k-1 followed by the turns k..end-1. */
  lemma {:induction false} LoopSplit(c: Connection, j: int, k: int, end: int, ns: seq<Node>, names: seq<string>, ps: seq<Param>, ev: Evaluator)
    requires c.Loop? && Store(ns) && |names| >= 1 && j <= k <= end
    ensures LoopFrom(c, j, end, ns, names, ps, ev) ==
      (var r := LoopFrom(c, j, k, ns, names, ps, ev);
       if r.Ok? then LoopFrom(c, k, end, r.ns, names, ps, ev) else r)
    decreases k - j
  {
    if j < k {
      var r := Turn(c, j, ns, names, ps, ev);
      if r.Ok? {
        LoopSplit(c, j + 1, k, end, r.ns, names, ps, ev);
      }
    }
  }

  /**
   * The body runs once per j from start up to end - 1, in order: the turns
   * up to end are those up to end - 1 followed by one turn with the loop
   * variable (present, as the body is) bound to end - 1.
   */
  lemma LoopLastTurn(c: Connection, j: int, end: int, ns: seq<Node>, names: seq<string>, ps: seq<Param>, ev: Evaluator)
    requires c.Loop? && c.loopVar.Some? && c.body.Some? && Store(ns) && |names| >= 1 && j < end
    ensures LoopFrom(c, j, end, ns, names, ps, ev) ==
      (var r := LoopFrom(c, j, end - 1, ns, names, ps, ev);
       if r.Ok? then Traverse(c.body.value, r.ns, names, ps + [Param(c.loopVar.value, Some((end - 1) as real))], ev) else r)
  {
    LoopSplit(c, j, end - 1, end, ns, names, ps, ev);
    var r := LoopFrom(c, j, end - 1, ns, names, ps, ev);
    if r.Ok? {
      var t := Turn(c, end - 1, r.ns, names, ps, ev);
      assert LoopFrom(c, end - 1, end, r.ns, names, ps, ev) == t by {
        if t.Ok? {
          assert LoopFrom(c, end, end, t.ns, names, ps, ev) == Ok(t.ns);
        }
      }
    }
  }

  /**
   * A conditional connection takes its then-branch exactly when the
   * condition evaluates to a nonzero value, its else-branch when it is
   * zero and there is one, and adds nothing otherwise; a condition that
   * does not evaluate fails with TOP_E_EVAL.  The condition and a taken
   * then-branch are read without a NULL test.
   */
  lemma ConnectionCondBranch(c: Connection, ns: seq<Node>, names: seq<string>, ps: seq<Param>, ev: Evaluator)
    requires c.ConnectionCond? && Store(ns) && |names| >= 1
    ensures c.condition.None? ==> Traverse(c, ns, names, ps, ev) == NullRead
    ensures c.condition.Some? ==>
      var v := EvalInt(ps, c.condition.value, ev);
      var r := Traverse(c, ns, names, ps, ev);
      (v.None? ==> r == Fail(TOP_E_EVAL)) &&
      (v.Some? && v.value != 0 && c.connThen.None? ==> r == NullRead) &&
      (v.Some? && v.value != 0 && c.connThen.Some? ==> r == Traverse(c.connThen.value, ns, names, ps, ev)) &&
      (v.Some? && v.value == 0 && c.connElse.Some? ==> r == Traverse(c.connElse.value, ns, names, ps, ev)) &&
      (v.Some? && v.value == 0 && c.connElse.None? ==> r == Ok(ns))
  {
  }

  // ----- instances -----

  /** The instances j..count-1 are the instances j..k-1 followed by the instances k..count-1. */
  lemma {:induction false} InstancesSplit(d: Definition, sm: Submodule, j: int, k: int, count: int, ns: seq<Node>,
                                          names: seq<string>, ps: seq<Param>, ev: Evaluator, fuel: nat)
    requires sm.Instance? && Store(ns) && |names| >= 1 && j <= k <= count
    ensures InstancesFrom(d, sm, j, count, ns, names, ps, ev, fuel) ==
      (var r := InstancesFrom(d, sm, j, k, ns, names, ps, ev, fuel);
       if r.Ok? then InstancesFrom(d, sm, k, count, r.ns, names, ps, ev, fuel) else r)
    decreases k - j
  {
    if j < k {
      var r := EnterAndExpand(d, sm, j, ns, names, ps, ev, fuel);
      if r.Ok? {
        InstancesSplit(d, sm, j + 1, k, count, r.ns, names, ps, ev, fuel);
      }
    }
  }

  /**
   * A submodule of size n > 0 expands instances `name[0]` .. `name[n-1]`
   * in order, the last one in the scope `name[n-1]`; a size that is not
   * positive expands one unindexed instance in the scope `name`.
   */
  lemma CopiesInOrder(d: Definition, sm: Submodule, count: int, ns: seq<Node>, names: seq<string>, ps: seq<Param>, ev: Evaluator, fuel: nat)
    requires sm.Instance? && Store(ns) && |names| >= 1
    ensures var r := Copies(d, sm, count, ns, names, ps, ev, fuel);
      (count <= 0 ==> r == EnterAndExpand(d, sm, -1, ns, names, ps, ev, fuel)) &&
      (count > 0 ==>
        r == (var p := InstancesFrom(d, sm, 0, count - 1, ns, names, ps, ev, fuel);
              if p.Ok? then EnterAndExpand(d, sm, count - 1, p.ns, names, ps, ev, fuel) else p))
  {
    if count > 0 {
      InstancesSplit(d, sm, 0, count - 1, count, ns, names, ps, ev, fuel);
      var p := InstancesFrom(d, sm, 0, count - 1, ns, names, ps, ev, fuel);
      if p.Ok? {
        var t := EnterAndExpand(d, sm, count - 1, p.ns, names, ps, ev, fuel);
        if t.Ok? {
          assert InstancesFrom(d, sm, count, count, t.ns, names, ps, ev, fuel) == Ok(t.ns);
        }
      }
    }
  }

  // ----- every vertex is named inside its scope -----

  /** x is the scope's own name or a name below it: `<scope>` or `<scope>.<...>`. */
  predicate InScope(scope: string, x: string)
  {
    x == scope || (|scope| < |x| && x[..|scope| + 1] == scope + ".")
  }

  /** Every vertex past the first |ns| of ms is named inside the scope. */
  ghost predicate AddedIn(ns: seq<Node>, ms: seq<Node>, scope: string)
  {
    forall i :: |ns| <= i < |ms| ==> InScope(scope, ms[i].name)
  }

  lemma BelowScope(scope: string, rest: string)
    ensures InScope(scope, scope + "." + rest)
  {
    assert (scope + "." + rest)[..|scope| + 1] == scope + ".";
  }

  /** A name inside a scope nested in another is inside the outer one. */
  lemma InScopeTrans(a: string, b: string, x: string)
    requires InScope(a, b) && InScope(b, x)
    ensures InScope(a, x)
  {
    if x != b && b != a {
      assert x[..|a| + 1] == x[..|b| + 1][..|a| + 1];
      assert (b + ".")[..|a| + 1] == b[..|a| + 1];
    }
  }

  /** A name inside an inner scope is inside the enclosing one. */
  lemma InnerScope(names: seq<string>, seg: string, x: string)
    requires |names| >= 1 && InScope(Join(names + [seg]), x)
    ensures InScope(Join(names), x)
  {
    JoinSnoc(names, seg);
    BelowScope(Join(names), seg);
    InScopeTrans(Join(names), Join(names + [seg]), x);
  }

  /** What lands in a child scope lands in its parent scope too. */
  lemma AddedInWidens(ns: seq<Node>, ms: seq<Node>, names: seq<string>, seg: string)
    requires |names| >= 1 && AddedIn(ns, ms, Join(names + [seg]))
    ensures AddedIn(ns, ms, Join(names))
  {
    forall x | |ns| <= x < |ms|
      ensures InScope(Join(names), ms[x].name)
    {
      InnerScope(names, seg, ms[x].name);
    }
  }

  lemma FullNameInScope(names: seq<string>, name: string, index: int)
    requires |names| >= 1
    ensures InScope(Join(names), FullName(names, name, index))
  {
    BelowScope(Join(names), name + (if index != -1 then "[" + Decimal(index) + "]" else ""));
    assert FullName(names, name, index) == Join(names) + "." + (name + (if index != -1 then "[" + Decimal(index) + "]" else ""));
  }

  lemma AddedTrans(ns: seq<Node>, ms: seq<Node>, ls: seq<Node>, scope: string)
    requires AddedIn(ns, ms, scope) && AddedIn(ms, ls, scope) && Grows(ms, ls) && |ns| <= |ms|
    ensures AddedIn(ns, ls, scope)
  {
  }

  lemma AddedFromExtends(ns: seq<Node>, ms: seq<Node>, ls: seq<Node>, scope: string)
    requires AddedIn(ns, ms, scope) && AddedIn(ms, ls, scope) && Extends(ms, ls) && |ns| <= |ms|
    ensures AddedIn(ns, ls, scope)
  {
  }

  /** add_auto_gate names its gate `<scope>.<name>._auto[j]`, inside the scope. */
  lemma AutoGateScoped(ns: seq<Node>, names: seq<string>, n: int, name: string)
    requires Store(ns) && |names| >= 1 && 0 <= n < |ns|
    ensures AddedIn(ns, AutoGate(ns, names, n, name).0, Join(names))
  {
    var es := names + [Segment(name, -1)];
    var k := AutoIndex(NeighbourNames(ns, n), es, 0);
    var ms := AutoGate(ns, names, n, name).0;
    AutoGateJoins(ns, names, n, name);
    assert |ms| == |ns| + 1 && ms[|ns|].name == AutoFull(es, k);
    FullNameInScope(es, AutoName(k), -1);
    InnerScope(names, Segment(name, -1), AutoFull(es, k));
    AddedOne(ns, ms, Join(names));
  }

  lemma AddedOne(ns: seq<Node>, ms: seq<Node>, scope: string)
    requires |ms| == |ns| + 1 && InScope(scope, ms[|ns|].name)
    ensures AddedIn(ns, ms, scope)
  {
  }

  lemma EndpointScoped(ns: seq<Node>, names: seq<string>, n: int, name: string)
    requires Store(ns) && |names| >= 1 && 0 <= n < |ns|
    ensures AddedIn(ns, Endpoint(ns, names, n, name).0, Join(names))
  {
    if ns[n].typ == NodeNode {
      AutoGateScoped(ns, names, n, name);
    }
  }

  lemma ConnectScoped(ns: seq<Node>, names: seq<string>, nameA: string, nameB: string)
    requires Store(ns) && |names| >= 1
    ensures var r := Connect(ns, names, nameA, nameB); r.Ok? ==> AddedIn(ns, r.ns, Join(names))
  {
    var a := IndexOf(ns, FullName(names, nameA, -1));
    var b := IndexOf(ns, FullName(names, nameB, -1));
    if a >= 0 && b >= 0 {
      var (ns1, x) := Endpoint(ns, names, a, nameA);
      EndpointScoped(ns, names, a, nameA);
      var (ns2, y) := Endpoint(ns1, names, b, nameB);
      EndpointScoped(ns1, names, b, nameB);
      AddedFromExtends(ns, ns1, ns2, Join(names));
      if EdgeIdsValid(|ns2|, x, y) {
        WithEdgeShape(ns2, x, y, None);
      }
    }
  }

  /** The vertices a connection adds, through any nesting of loops and conditionals, are auto gates inside the scope. */
  lemma TraverseScoped(c: Connection, ns: seq<Node>, names: seq<string>, ps: seq<Param>, ev: Evaluator)
    requires Store(ns) && |names| >= 1
    ensures var r := Traverse(c, ns, names, ps, ev); r.Ok? ==> AddedIn(ns, r.ns, Join(names))
    decreases c, 2, 0
  {
    match c
    case Loop(loopVar, start, end, body) =>
      if start.Some? && end.Some? {
        var s := EvalInt(ps, start.value, ev);
        var e := EvalInt(ps, end.value, ev);
        if s.Some? && e.Some? && s.value <= e.value {
          LoopFromScoped(c, s.value, e.value, ns, names, ps, ev);
        }
      }
    case ConnectionCond(condition, connThen, connElse) =>
      if condition.Some? {
        var v := EvalInt(ps, condition.value, ev);
        if v.Some? && v.value != 0 && connThen.Some? {
          TraverseScoped(connThen.value, ns, names, ps, ev);
        } else if v.Some? && v.value == 0 && connElse.Some? {
          TraverseScoped(connElse.value, ns, names, ps, ev);
        }
      }
    case _ =>
      var (from, to) := Ends(c);
      if from.Some? && to.Some? {
        var nameA := ConnName(ps, from.value, ev);
        var nameB := ConnName(ps, to.value, ev);
        if nameA.Some? && nameB.Some? {
          ConnectScoped(ns, names, nameA.value, nameB.value);
        }
      }
  }

  lemma LoopFromScoped(c: Connection, j: int, end: int, ns: seq<Node>, names: seq<string>, ps: seq<Param>, ev: Evaluator)
    requires c.Loop? && Store(ns) && |names| >= 1
    ensures var r := LoopFrom(c, j, end, ns, names, ps, ev); r.Ok? ==> AddedIn(ns, r.ns, Join(names))
    decreases c, 1, end - j
  {
    if j < end {
      var r := Turn(c, j, ns, names, ps, ev);
      if r.Ok? {
        TurnScoped(c, j, ns, names, ps, ev);
        LoopFromScoped(c, j + 1, end, r.ns, names, ps, ev);
        var rest := LoopFrom(c, j + 1, end, r.ns, names, ps, ev);
        if rest.Ok? {
          AddedFromExtends(ns, r.ns, rest.ns, Join(names));
        }
      }
    }
  }

  lemma TurnScoped(c: Connection, j: int, ns: seq<Node>, names: seq<string>, ps: seq<Param>, ev: Evaluator)
    requires c.Loop? && Store(ns) && |names| >= 1
    ensures var r := Turn(c, j, ns, names, ps, ev); r.Ok? ==> AddedIn(ns, r.ns, Join(names))
    decreases c, 0, 0
  {
    if c.loopVar.Some? && c.body.Some? {
      TraverseScoped(c.body.value, ns, names, ps + [Param(c.loopVar.value, Some(j as real))], ev);
    }
  }

  lemma {:induction false} ConnectionsFromScoped(conns: seq<Option<Connection>>, i: nat, ns: seq<Node>, names: seq<string>, ps: seq<Param>, ev: Evaluator)
    requires i <= |conns| && Store(ns) && |names| >= 1
    ensures var r := ConnectionsFrom(conns, i, ns, names, ps, ev); r.Ok? ==> AddedIn(ns, r.ns, Join(names))
    decreases |conns| - i
  {
    if i < |conns| && conns[i].Some? {
      var r := Traverse(conns[i].value, ns, names, ps, ev);
      if r.Ok? {
        TraverseScoped(conns[i].value, ns, names, ps, ev);
        ConnectionsFromScoped(conns, i + 1, r.ns, names, ps, ev);
        var rest := ConnectionsFrom(conns, i + 1, r.ns, names, ps, ev);
        if rest.Ok? {
          AddedFromExtends(ns, r.ns, rest.ns, Join(names));
        }
      }
    }
  }

  /** The copies of one gate are all named in the module's scope. */
  lemma GateCopiesScoped(ns: seq<Node>, names: seq<string>, owner: Option<string>, gate: string, size: int)
    requires Store(ns) && |names| >= 1
    ensures var b := Run(ns, GateCopies(names, owner, gate, size)); b.code == 0 ==> AddedIn(ns, b.ns, Join(names))
  {
    var ops := GateCopies(names, owner, gate, size);
    var b := Run(ns, ops);
    if b.code == 0 {
      RunLabels(ns, ops);
      GateCopiesLabels(names, owner, gate, size);
      var idx := CopyIndices(size);
      forall x | |ns| <= x < |b.ns|
        ensures InScope(Join(names), b.ns[x].name)
      {
        assert Labels(b.ns)[x] == GateLabels(names, gate, idx)[x - |ns|];
        FullNameInScope(names, gate, idx[x - |ns|]);
      }
    }
  }

  lemma {:induction false} GatesFromScoped(gates: seq<Gate>, i: nat, ns: seq<Node>, names: seq<string>,
                                           owner: Option<string>, ps: seq<Param>, ev: Evaluator)
    requires i <= |gates| && Store(ns) && |names| >= 1
    ensures var r := GatesFrom(gates, i, ns, names, owner, ps, ev); r.Ok? ==> AddedIn(ns, r.ns, Join(names))
    decreases |gates| - i
  {
    if i < |gates| && gates[i].size.Some? {
      var size := EvalInt(ps, gates[i].size.value, ev);
      if size.Some? && (gates[i].name.Some? || size.value < 0) {
        var ops := GateCopies(names, owner, GateName(gates[i]), size.value);
        var b := Run(ns, ops);
        if b.code == 0 {
          GateCopiesScoped(ns, names, owner, GateName(gates[i]), size.value);
          RunExtends(ns, ops);
          GatesFromScoped(gates, i + 1, b.ns, names, owner, ps, ev);
          var rest := GatesFrom(gates, i + 1, b.ns, names, owner, ps, ev);
          if rest.Ok? {
            AddedFromExtends(ns, b.ns, rest.ns, Join(names));
          }
        }
      }
    }
  }

  /** graph_insert names every vertex it adds `<scope>.<name>`. */
  lemma InsertScoped(ns: seq<Node>, prod: seq<Node>, scope: string)
    requires Store(ns) && WellFormed(prod)
    ensures AddedIn(ns, Run(ns, InsertOps(prod, scope)).ns, scope)
  {
    InsertNeverFails(ns, prod, scope);
    var r := Run(ns, InsertOps(prod, scope));
    forall x | |ns| <= x < |r.ns|
      ensures InScope(scope, r.ns[x].name)
    {
      assert Labels(r.ns)[x] == ScopedLabels(prod, scope)[x - |ns|];
      BelowScope(scope, prod[x - |ns|].name);
    }
  }

  lemma ProductIntoScoped(ns: seq<Node>, names: seq<string>, a: seq<Node>, b: seq<Node>)
    requires Store(ns) && |names| >= 1 && Store(a) && Store(b)
    ensures var r := ProductInto(ns, names, a, b); r.Ok? ==> AddedIn(ns, r.ns, Join(names))
  {
    var prod := GraphsProduct(a, b);
    if prod.code == 0 {
      InsertScoped(ns, prod.ns, Join(names));
    }
  }

  lemma SimpleModuleScoped(m: Module, ns: seq<Node>, names: seq<string>, ps: seq<Param>, ev: Evaluator)
    requires m.typ == Simple && Store(ns) && |names| >= 1
    ensures var r := SimpleModule(m, ns, names, ps, ev); r.Ok? ==> AddedIn(ns, r.ns, Join(names))
  {
    if m.attributes.Some? {
      var self := Join(names);
      var ns1 := Step(ns, NewVertex(self, NodeNode, None)).ns;
      assert ns1[|ns|].name == self;
      var ns2 := SetAttributes(ns1, IndexOf(ns1, self), m.attributes);
      SetAttributesKeeps(ns1, IndexOf(ns1, self), m.attributes);
      assert AddedIn(ns, ns2, self);
      GatesFromScoped(Gates(m), 0, ns2, names, Some(self), ps, ev);
    }
  }

  /**
   * Every vertex the expansion of a module adds is named inside the
   * module's scope: the scope's own name (a simple module's entity) or a
   * name `<scope>.<...>` (its gates, its submodules' vertices, auto gates
   * and product vertices).
   */
  lemma ExpandModuleScoped(d: Definition, m: Module, ns: seq<Node>, names: seq<string>, ps: seq<Param>, ev: Evaluator, fuel: nat)
    requires Store(ns) && |names| >= 1
    ensures var r := ExpandModule(d, m, ns, names, ps, ev, fuel); r.Ok? ==> AddedIn(ns, r.ns, Join(names))
    decreases fuel, 5, 0, 0, 0
  {
    var pushed := Pushed(ps, Params(m.params), ev);
    if pushed.Some? {
      ModuleBodyScoped(d, m, ns, names, pushed.value, ev, fuel);
    }
  }

  lemma ModuleBodyScoped(d: Definition, m: Module, ns: seq<Node>, names: seq<string>, ps: seq<Param>, ev: Evaluator, fuel: nat)
    requires Store(ns) && |names| >= 1
    ensures var r := ModuleBody(d, m, ns, names, ps, ev, fuel); r.Ok? ==> AddedIn(ns, r.ns, Join(names))
    decreases fuel, 4, 0, 0, 0
  {
    if m.typ == Simple {
      SimpleModuleScoped(m, ns, names, ps, ev);
    } else {
      CompoundModuleScoped(d, m, ns, names, ps, ev, fuel);
    }
  }

  lemma CompoundModuleScoped(d: Definition, m: Module, ns: seq<Node>, names: seq<string>, ps: seq<Param>, ev: Evaluator, fuel: nat)
    requires Store(ns) && |names| >= 1
    ensures var r := CompoundModule(d, m, ns, names, ps, ev, fuel); r.Ok? ==> AddedIn(ns, r.ns, Join(names))
    decreases fuel, 3, 0, 0, 0
  {
    var g := GatesFrom(Gates(m), 0, ns, names, None, ps, ev);
    if g.Ok? {
      GatesFromScoped(Gates(m), 0, ns, names, None, ps, ev);
      var s := SubmodulesFrom(d, Subs(m), 0, g.ns, names, ps, ev, fuel);
      if s.Ok? {
        SubmodulesFromScoped(d, Subs(m), 0, g.ns, names, ps, ev, fuel);
        AddedTrans(ns, g.ns, s.ns, Join(names));
        var c := ConnectionsFrom(Conns(m), 0, s.ns, names, ps, ev);
        if c.Ok? {
          ConnectionsFromScoped(Conns(m), 0, s.ns, names, ps, ev);
          AddedFromExtends(ns, s.ns, c.ns, Join(names));
        }
      }
    }
  }

  lemma SubmodulesFromScoped(d: Definition, subs: seq<Option<Submodule>>, i: nat, ns: seq<Node>, names: seq<string>, ps: seq<Param>, ev: Evaluator, fuel: nat)
    requires i <= |subs| && Store(ns) && |names| >= 1
    ensures var r := SubmodulesFrom(d, subs, i, ns, names, ps, ev, fuel); r.Ok? ==> AddedIn(ns, r.ns, Join(names))
    decreases fuel, 2, |subs| - i, 0, 0
  {
    if i < |subs| && subs[i].Some? {
      var r := AddSubmodule(d, subs[i].value, ns, names, ps, ev, fuel);
      if r.Ok? {
        AddSubmoduleScoped(d, subs[i].value, ns, names, ps, ev, fuel);
        SubmodulesFromScoped(d, subs, i + 1, r.ns, names, ps, ev, fuel);
        var rest := SubmodulesFrom(d, subs, i + 1, r.ns, names, ps, ev, fuel);
        if rest.Ok? {
          AddedTrans(ns, r.ns, rest.ns, Join(names));
        }
      }
    }
  }

  lemma AddSubmoduleScoped(d: Definition, sm: Submodule, ns: seq<Node>, names: seq<string>, ps: seq<Param>, ev: Evaluator, fuel: nat)
    requires Store(ns) && |names| >= 1
    ensures var r := AddSubmodule(d, sm, ns, names, ps, ev, fuel); r.Ok? ==> AddedIn(ns, r.ns, Join(names))
    decreases fuel, 1, SubmoduleSize(sm), 2, 0
  {
    match sm
    case Instance(_, _, size, params) =>
      var pushed := Pushed(ps, Params(params), ev);
      if pushed.Some? {
        var count := if size.None? then Some(0) else EvalInt(pushed.value, size.value, ev);
        if count.Some? {
          CopiesScoped(d, sm, count.value, ns, names, pushed.value, ev, fuel);
        }
      }
    case Product(a, b, _, _) =>
      var ca := Operand(d, a, ps, ev, fuel);
      var cb := Operand(d, b, ps, ev, fuel);
      if ca.Ok? && cb.Ok? {
        ProductIntoScoped(ns, names, ca.ns, cb.ns);
      }
    case SubmoduleCond(condition, subThen, subElse) =>
      if condition.Some? {
        var v := EvalInt(ps, condition.value, ev);
        if v.Some? && v.value != 0 && subThen.Some? {
          AddSubmoduleScoped(d, subThen.value, ns, names, ps, ev, fuel);
        } else if v.Some? && v.value == 0 && subElse.Some? {
          AddSubmoduleScoped(d, subElse.value, ns, names, ps, ev, fuel);
        }
      }
  }

  lemma CopiesScoped(d: Definition, sm: Submodule, count: int, ns: seq<Node>, names: seq<string>, ps: seq<Param>, ev: Evaluator, fuel: nat)
    requires sm.Instance? && Store(ns) && |names| >= 1
    ensures var r := Copies(d, sm, count, ns, names, ps, ev, fuel); r.Ok? ==> AddedIn(ns, r.ns, Join(names))
    decreases fuel, 1, SubmoduleSize(sm), 1, 0
  {
    if count > 0 {
      InstancesFromScoped(d, sm, 0, count, ns, names, ps, ev, fuel);
    } else {
      EnterAndExpandScoped(d, sm, -1, ns, names, ps, ev, fuel);
    }
  }

  lemma InstancesFromScoped(d: Definition, sm: Submodule, j: int, count: int, ns: seq<Node>, names: seq<string>, ps: seq<Param>, ev: Evaluator, fuel: nat)
    requires sm.Instance? && Store(ns) && |names| >= 1
    ensures var r := InstancesFrom(d, sm, j, count, ns, names, ps, ev, fuel); r.Ok? ==> AddedIn(ns, r.ns, Join(names))
    decreases fuel, 1, SubmoduleSize(sm), 0, count - j
  {
    if j < count {
      var r := EnterAndExpand(d, sm, j, ns, names, ps, ev, fuel);
      if r.Ok? {
        EnterAndExpandScoped(d, sm, j, ns, names, ps, ev, fuel);
        InstancesFromScoped(d, sm, j + 1, count, r.ns, names, ps, ev, fuel);
        var rest := InstancesFrom(d, sm, j + 1, count, r.ns, names, ps, ev, fuel);
        if rest.Ok? {
          AddedTrans(ns, r.ns, rest.ns, Join(names));
        }
      }
    }
  }

  lemma EnterAndExpandScoped(d: Definition, sm: Submodule, j: int, ns: seq<Node>, names: seq<string>, ps: seq<Param>, ev: Evaluator, fuel: nat)
    requires sm.Instance? && Store(ns) && |names| >= 1
    ensures var r := EnterAndExpand(d, sm, j, ns, names, ps, ev, fuel); r.Ok? ==> AddedIn(ns, r.ns, Join(names))
    decreases fuel, 0, 0, 0, 0
  {
    if sm.name.Some? && sm.moduleName.Some? && ModuleLookup(d.modules, sm.moduleName.value, 0).Found? && fuel > 0 {
      var k := ModuleLookup(d.modules, sm.moduleName.value, 0).k;
      var inner := names + [Segment(sm.name.value, j)];
      ExpandModuleScoped(d, d.modules[k], ns, inner, ps, ev, fuel - 1);
      var r := ExpandModule(d, d.modules[k], ns, inner, ps, ev, fuel - 1);
      assert EnterAndExpand(d, sm, j, ns, names, ps, ev, fuel) == r;
      if r.Ok? {
        AddedInWidens(ns, r.ns, names, Segment(sm.name.value, j));
      }
    }
  }

  /**
   * topologies_definition_to_graph names every vertex it builds inside
   * the scope "network": `network` itself or `network.<...>`.
   */
  lemma DefinitionToGraphScoped(d: Definition, ev: Evaluator, fuel: nat)
    ensures var r := DefinitionToGraph(d, ev, fuel);
      r.Ok? ==> forall i :: 0 <= i < |r.ns| ==> InScope("network", r.ns[i].name)
  {
    if d.network.Some? && d.network.value.moduleName.Some? && ModuleLookup(d.modules, d.network.value.moduleName.value, 0).Found? {
      var k := ModuleLookup(d.modules, d.network.value.moduleName.value, 0).k;
      var pushed := Pushed([], Params(d.network.value.params), ev);
      if pushed.Some? {
        ExpandModuleScoped(d, d.modules[k], [], ["network"], pushed.value, ev, fuel);
      }
    }
  }
}
