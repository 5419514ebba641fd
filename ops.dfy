/**
 * The graph-building passes of src/topologies.c and src/products.c issue
 * nothing but graph_add_node and graph_add_edge_name calls, with names
 * they print from the vertices they visit.  Such a pass is specified here
 * as the sequence of calls it makes: Run applies them in order and stops
 * at the first edge call that fails, with the store as it is at that point.
 */
module GraphOps {
  import opened Basics
  import opened Errors
  import opened GraphStore

  /** One call: graph_add_node(name, typ, attrs) or graph_add_edge_name(from, to, attr). */
  datatype Op =
    | NewVertex(name: string, typ: NodeType, attrs: Option<string>)
    | NewEdge(from: string, to: string, attr: Option<string>)

  /** The status a pass returns and the store it leaves behind. */
  datatype Built = Built(code: int, ns: seq<Node>)

  ghost predicate Store(ns: seq<Node>)
  {
    WellFormed(ns) && Reciprocal(ns)
  }

  /** One call on the store: a new vertex always fits; an edge fails with TOP_E_CONN on an unknown name. */
  function Step(ns: seq<Node>, op: Op): (r: Built)
    requires Store(ns)
    ensures Store(r.ns)
    ensures r.code == 0 || r.code == TOP_E_CONN
  {
    match op
    case NewVertex(name, typ, attrs) =>
      WithNodeFacts(ns, name, typ, attrs);
      Built(0, ns + [NewNode(|ns|, name, typ, attrs)])
    case NewEdge(x, y, attr) =>
      var a := IndexOf(ns, x);
      var b := IndexOf(ns, y);
      if a < 0 || b < 0 then Built(TOP_E_CONN, ns)
      else
        WithEdgeFacts(ns, a, b, attr);
        Built(0, WithEdge(ns, a, b, attr))
  }

  /** The calls in order, up to and including the first that fails. */
  function Run(ns: seq<Node>, ops: seq<Op>): (r: Built)
    requires Store(ns)
    ensures Store(r.ns)
    ensures r.code == 0 || r.code == TOP_E_CONN
    decreases |ops|
  {
    if |ops| == 0 then Built(0, ns)
    else
      var s := Step(ns, ops[0]);
      if s.code != 0 then s else Run(s.ns, ops[1..])
  }

  /** Running two call sequences one after the other is running their concatenation. */
  lemma {:induction false} RunAppend(ns: seq<Node>, o1: seq<Op>, o2: seq<Op>)
    requires Store(ns)
    ensures Run(ns, o1 + o2) == (var r := Run(ns, o1); if r.code != 0 then r else Run(r.ns, o2))
    decreases |o1|
  {
    if |o1| == 0 {
      assert o1 + o2 == o2;
    } else {
      assert (o1 + o2)[0] == o1[0];
      assert (o1 + o2)[1..] == o1[1..] + o2;
      var s := Step(ns, o1[0]);
      if s.code == 0 {
        RunAppend(s.ns, o1[1..], o2);
      }
    }
  }

  /** A single call is a one-element run. */
  lemma RunOne(ns: seq<Node>, op: Op)
    requires Store(ns)
    ensures Run(ns, [op]) == Step(ns, op)
  {
    assert [op][1..] == [];
  }

  /** The vertex names of a store, by index. */
  function NamesOf(ns: seq<Node>): (r: seq<string>)
    ensures |r| == |ns| && forall i :: 0 <= i < |ns| ==> r[i] == ns[i].name
  {
    seq(|ns|, i requires 0 <= i < |ns| => ns[i].name)
  }

  /** The name and type of each vertex of a store, by index. */
  function Labels(ns: seq<Node>): (r: seq<(string, NodeType)>)
    ensures |r| == |ns| && forall i :: 0 <= i < |ns| ==> r[i] == (ns[i].name, ns[i].typ)
  {
    seq(|ns|, i requires 0 <= i < |ns| => (ns[i].name, ns[i].typ))
  }

  /** The name and type of each vertex a call sequence adds, in order. */
  function AddedLabels(ops: seq<Op>): seq<(string, NodeType)>
  {
    if |ops| == 0 then []
    else (if ops[0].NewVertex? then [(ops[0].name, ops[0].typ)] else []) + AddedLabels(ops[1..])
  }

  /**
   * Every edge call names vertices that exist by the time it is made:
   * among `names` or added by an earlier call.
   */
  predicate Resolvable(names: seq<string>, ops: seq<Op>)
    decreases |ops|
  {
    |ops| == 0 ||
    match ops[0]
    case NewVertex(n, _, _) => Resolvable(names + [n], ops[1..])
    case NewEdge(x, y, _) => x in names && y in names && Resolvable(names, ops[1..])
  }

  /** The old vertices keep their names, types and attributes, and their edges as a prefix. */
  ghost predicate Extends(ns: seq<Node>, ms: seq<Node>)
  {
    |ns| <= |ms| &&
    forall i :: 0 <= i < |ns| ==>
      ms[i].name == ns[i].name && ms[i].typ == ns[i].typ && ms[i].attributes == ns[i].attributes &&
      ns[i].adj <= ms[i].adj
  }

  /** A step only appends vertices and edges. */
  lemma StepExtends(ns: seq<Node>, op: Op)
    requires Store(ns)
    ensures Extends(ns, Step(ns, op).ns)
  {
    if op.NewEdge? {
      var a := IndexOf(ns, op.from);
      var b := IndexOf(ns, op.to);
      if a >= 0 && b >= 0 {
        WithEdgeShape(ns, a, b, op.attr);
      }
    }
  }

  lemma ExtendsTrans(ns: seq<Node>, ms: seq<Node>, ls: seq<Node>)
    requires Extends(ns, ms) && Extends(ms, ls)
    ensures Extends(ns, ls)
  {
    forall i | 0 <= i < |ns|
      ensures ns[i].adj <= ls[i].adj
    {
      assert ns[i].adj <= ms[i].adj && ms[i].adj <= ls[i].adj;
    }
  }

  /** A run, successful or not, only appends: the old vertices keep their names, types, attributes and edges. */
  lemma {:induction false} RunExtends(ns: seq<Node>, ops: seq<Op>)
    requires Store(ns)
    ensures Extends(ns, Run(ns, ops).ns)
    decreases |ops|
  {
    if |ops| > 0 {
      var s := Step(ns, ops[0]);
      StepExtends(ns, ops[0]);
      if s.code == 0 {
        RunExtends(s.ns, ops[1..]);
        ExtendsTrans(ns, s.ns, Run(s.ns, ops[1..]).ns);
      }
    }
  }

  /** A successful run appends exactly the vertices of its vertex calls, in call order. */
  lemma {:induction false} RunLabels(ns: seq<Node>, ops: seq<Op>)
    requires Store(ns)
    ensures Run(ns, ops).code == 0 ==> Labels(Run(ns, ops).ns) == Labels(ns) + AddedLabels(ops)
    decreases |ops|
  {
    if |ops| == 0 {
      assert Labels(ns) + [] == Labels(ns);
    } else {
      var s := Step(ns, ops[0]);
      if s.code == 0 {
        assert Run(ns, ops) == Run(s.ns, ops[1..]);
        RunLabels(s.ns, ops[1..]);
        StepExtends(ns, ops[0]);
        var x := if ops[0].NewVertex? then [(ops[0].name, ops[0].typ)] else [];
        assert Labels(s.ns) == Labels(ns) + x;
        assert AddedLabels(ops) == x + AddedLabels(ops[1..]);
        AppendAssoc(Labels(ns), x, AddedLabels(ops[1..]));
      }
    }
  }

  lemma AppendAssoc<T>(a: seq<T>, b: seq<T>, c: seq<T>)
    ensures a + (b + c) == (a + b) + c
  {
  }

  /** A step adds the name of a new vertex and keeps every name. */
  lemma StepNames(ns: seq<Node>, op: Op)
    requires Store(ns)
    ensures NamesOf(Step(ns, op).ns) == NamesOf(ns) + (if op.NewVertex? then [op.name] else [])
  {
    StepExtends(ns, op);
  }

  /** IndexOf finds every listed name. */
  lemma FoundIfListed(ns: seq<Node>, x: string)
    requires x in NamesOf(ns)
    ensures IndexOf(ns, x) >= 0
  {
    var i :| 0 <= i < |ns| && NamesOf(ns)[i] == x;
  }

  /**
   * A run of edge calls one of which names a vertex the store does not
   * have fails with TOP_E_CONN: edge calls add no names.
   */
  lemma {:induction false} EdgeRunFails(ns: seq<Node>, ops: seq<Op>, m: int)
    requires Store(ns) && forall op :: op in ops ==> op.NewEdge?
    requires 0 <= m < |ops| && (ops[m].from !in NamesOf(ns) || ops[m].to !in NamesOf(ns))
    ensures Run(ns, ops).code == TOP_E_CONN
    decreases |ops|
  {
    assert ops[0] in ops;
    var s := Step(ns, ops[0]);
    if s.code == 0 {
      StepNames(ns, ops[0]);
      if m == 0 {
        assert false;
      } else {
        assert forall op :: op in ops[1..] ==> op in ops;
        assert ops[1..][m - 1] == ops[m];
        EdgeRunFails(s.ns, ops[1..], m - 1);
      }
    }
  }

  /** A run whose edge calls all name existing vertices never fails. */
  lemma {:induction false} ResolvableRuns(ns: seq<Node>, ops: seq<Op>)
    requires Store(ns) && Resolvable(NamesOf(ns), ops)
    ensures Run(ns, ops).code == 0
    decreases |ops|
  {
    if |ops| > 0 {
      var s := Step(ns, ops[0]);
      match ops[0]
      case NewVertex(n, t, at) =>
        assert Resolvable(NamesOf(ns) + [n], ops[1..]);
        StepNames(ns, ops[0]);
        ResolvableRuns(s.ns, ops[1..]);
      case NewEdge(x, y, at) =>
        assert x in NamesOf(ns) && y in NamesOf(ns) && Resolvable(NamesOf(ns), ops[1..]);
        FoundIfListed(ns, x);
        FoundIfListed(ns, y);
        StepNames(ns, ops[0]);
        assert NamesOf(s.ns) == NamesOf(ns) + [] == NamesOf(ns);
        ResolvableRuns(s.ns, ops[1..]);
    }
  }

  /** Resolvable only needs the names, not their order or count. */
  lemma {:induction false} ResolvableWider(n1: seq<string>, n2: seq<string>, ops: seq<Op>)
    requires Resolvable(n1, ops) && forall x :: x in n1 ==> x in n2
    ensures Resolvable(n2, ops)
    decreases |ops|
  {
    if |ops| > 0 {
      match ops[0]
      case NewVertex(n, _, _) =>
        ResolvableWider(n1 + [n], n2 + [n], ops[1..]);
      case NewEdge(x, y, _) =>
        ResolvableWider(n1, n2, ops[1..]);
    }
  }

  /** The names a call sequence adds. */
  function AddedNames(ops: seq<Op>): seq<string>
  {
    if |ops| == 0 then []
    else (if ops[0].NewVertex? then [ops[0].name] else []) + AddedNames(ops[1..])
  }

  /** Two resolvable sequences in a row: the second may use the names the first adds. */
  lemma {:induction false} ResolvableAppend(names: seq<string>, o1: seq<Op>, o2: seq<Op>)
    requires Resolvable(names, o1) && Resolvable(names + AddedNames(o1), o2)
    ensures Resolvable(names, o1 + o2)
    decreases |o1|
  {
    if |o1| == 0 {
      assert o1 + o2 == o2;
      assert names + [] == names;
    } else {
      assert (o1 + o2)[0] == o1[0];
      assert (o1 + o2)[1..] == o1[1..] + o2;
      match o1[0]
      case NewVertex(n, _, _) =>
        assert AddedNames(o1) == [n] + AddedNames(o1[1..]);
        assert names + AddedNames(o1) == (names + [n]) + AddedNames(o1[1..]);
        ResolvableAppend(names + [n], o1[1..], o2);
      case NewEdge(x, y, _) =>
        assert AddedNames(o1) == AddedNames(o1[1..]);
        ResolvableAppend(names, o1[1..], o2);
    }
  }

  /** One call on the graph object. */
  method Apply(g: Graph, op: Op) returns (res: int)
    requires g.Valid()
    modifies g
    ensures g.Valid()
    ensures Built(res, g.nodes) == Step(old(g.nodes), op)
  {
    match op
    case NewVertex(name, typ, attrs) =>
      g.AddNode(name, typ, attrs);
      res := 0;
    case NewEdge(x, y, attr) =>
      res := g.AddEdgeName(x, y, attr);
  }

  /** The calls one after the other, returning at the first failure. */
  method ApplyAll(g: Graph, ops: seq<Op>) returns (res: int)
    requires g.Valid()
    modifies g
    ensures g.Valid()
    ensures Built(res, g.nodes) == Run(old(g.nodes), ops)
  {
    ghost var goal := Run(g.nodes, ops);
    var i := 0;
    while i < |ops|
      invariant 0 <= i <= |ops| && g.Valid()
      invariant goal == Run(g.nodes, ops[i..])
    {
      assert ops[i..][0] == ops[i] && ops[i..][1..] == ops[i + 1..];
      res := Apply(g, ops[i]);
      if res != 0 {
        return;
      }
      i := i + 1;
    }
    return 0;
  }
}
