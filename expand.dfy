/**
 * The expansion of src/topologies.c as it runs: methods over the graph
 * object, the name stack and the parameter stack, each proved to do what
 * the matching function of Expansion specifies.  On success a method
 * leaves both stacks as it found them; after a failure the source returns
 * at once, with whatever the graph and the stacks hold at that point, and
 * the methods promise only the error code.
 */
module Topologies {
  import opened Basics
  import opened Errors
  import opened GraphStore
  import opened GraphOps
  import opened NameStack
  import opened ParamStack
  import opened Defs
  import Compaction
  import Products
  import Expansion

  /** A method's status and graph agree with a specified outcome; a NULL read or a run out of fuel agrees with none. */
  predicate Matches(r: Expansion.Out, res: int, ns: seq<Node>)
  {
    (r.Ok? && res == 0 && ns == r.ns) || (r.Fail? && res == r.code)
  }

  /** find_module, over modules whose names it reads up to the match are not NULL. */
  method FindModule(modules: seq<Module>, name: string) returns (k: int)
    requires !Expansion.ModuleLookup(modules, name, 0).Unnamed?
    ensures Expansion.ModuleLookup(modules, name, 0) == if k >= 0 then Expansion.Found(k) else Expansion.Missing
    ensures k == Expansion.FindModule(modules, name)
  {
    k := 0;
    while k < |modules|
      invariant 0 <= k <= |modules|
      invariant Expansion.ModuleLookup(modules, name, 0) == Expansion.ModuleLookup(modules, name, k)
      invariant forall i :: 0 <= i < k ==> modules[i].name != Some(name)
    {
      if modules[k].name.value == name {
        FirstModule(modules, name, k);
        return;
      }
      k := k + 1;
    }
    return -1;
  }

  lemma FirstModule(modules: seq<Module>, name: string, k: int)
    requires 0 <= k < |modules| && modules[k].name == Some(name)
    requires forall i :: 0 <= i < k ==> modules[i].name != Some(name)
    ensures Expansion.FindModule(modules, name) == k
  {
  }

  /** param_stack_eval and lrint: TOP_E_EVAL when the expression does not evaluate. */
  method EvalInt(p: ParamStack.Stack, expr: string, ev: Evaluator) returns (res: int, value: int)
    requires p.Valid()
    ensures res == 0 || res == TOP_E_EVAL
    ensures res == 0 <==> Expansion.EvalInt(p.params, expr, ev).Some?
    ensures res == 0 ==> value == Expansion.EvalInt(p.params, expr, ev).value
  {
    var r, x := p.Eval(expr, ev);
    if r != 0 {
      return TOP_E_EVAL, 0;
    }
    return 0, Lrint(x);
  }

  /** The loops of param_stack_enter calls that open expand_module and add_submodule. */
  method PushParams(p: ParamStack.Stack, rs: seq<RawParam>, ev: Evaluator) returns (res: int)
    requires p.Valid()
    modifies p
    ensures p.Valid()
    ensures res == 0 || res == TOP_E_EVAL
    ensures res == 0 <==> Expansion.Pushed(old(p.params), rs, ev).Some?
    ensures res == 0 ==> p.params == Expansion.Pushed(old(p.params), rs, ev).value
  {
    ghost var goal := Expansion.Pushed(p.params, rs, ev);
    var i := 0;
    while i < |rs|
      invariant 0 <= i <= |rs| && p.Valid()
      invariant goal == Expansion.Pushed(p.params, rs[i..], ev)
    {
      assert rs[i..][0] == rs[i] && rs[i..][1..] == rs[i + 1..];
      var r := p.Enter(rs[i], ev);
      if r != 0 {
        return TOP_E_EVAL;
      }
      i := i + 1;
    }
    return 0;
  }

  /** The loops of param_stack_leave calls that close them: n bindings popped. */
  method PopParams(p: ParamStack.Stack, n: nat)
    requires p.Valid() && n <= |p.params|
    modifies p
    ensures p.Valid() && p.params == old(p.params)[..|old(p.params)| - n]
  {
    var i := 0;
    while i < n
      invariant 0 <= i <= n && p.Valid()
      invariant p.params == old(p.params)[..|old(p.params)| - i]
    {
      p.Leave();
      i := i + 1;
    }
  }

  // ----- connections -----

  /** Whether some neighbour of vertex n is named full (the inner loop of add_auto_gate). */
  method Seen(g: Graph, n: int, full: string) returns (seen: bool)
    requires g.Valid() && 0 <= n < |g.nodes|
    ensures seen <==> full in Expansion.NeighbourNames(g.nodes, n)
  {
    var ns := g.nodes;
    assert NodeOk(ns[n], n, |ns|);
    seen := NamedAmong(ns, ns[n].adj, full);
    ghost var taken := Expansion.NeighbourNames(ns, n);
    if seen {
      var k :| 0 <= k < |ns[n].adj| && ns[ns[n].adj[k].n].name == full;
      assert taken[k] == full;
    }
  }

  /** Whether an edge of the list ends at a vertex named full. */
  method NamedAmong(ns: seq<Node>, adj: seq<Edge>, full: string) returns (seen: bool)
    requires forall k :: 0 <= k < |adj| ==> 0 <= adj[k].n < |ns|
    ensures seen <==> exists k :: 0 <= k < |adj| && ns[adj[k].n].name == full
  {
    seen := false;
    var k := 0;
    while k < |adj|
      invariant 0 <= k <= |adj|
      invariant seen <==> exists t :: 0 <= t < k && ns[adj[t].n].name == full
    {
      if ns[adj[k].n].name == full {
        seen := true;
      }
      k := k + 1;
    }
  }

  /** add_auto_gate: returns the index of the new gate, which the caller joins instead of n. */
  method AddAutoGate(g: Graph, n: int, name: string, s: NameStack.Stack) returns (m: int)
    requires g.Valid() && s.Valid() && 0 <= n < |g.nodes|
    modifies g, s
    ensures g.Valid() && s.Valid() && s.entries == old(s.entries)
    ensures (g.nodes, m) == Expansion.AutoGate(old(g.nodes), old(s.entries), n, name)
  {
    s.Enter(name, -1);
    ghost var es := s.entries;
    ghost var taken := Expansion.NeighbourNames(g.nodes, n);
    ghost var goal := Expansion.AutoIndex(taken, es, 0);
    var autoName := "";
    var j := 0;
    while j < Expansion.INT_MAX
      invariant 0 <= j <= Expansion.INT_MAX && s.entries == es && unchanged(g)
      invariant j < Expansion.INT_MAX ==> Expansion.AutoIndex(taken, es, j) == goal
      invariant j == Expansion.INT_MAX ==> goal == Expansion.INT_MAX - 1 && autoName == Expansion.AutoName(goal)
      decreases Expansion.INT_MAX - j
    {
      autoName := "_auto[" + Decimal(j) + "]";
      var full := s.ChildName(autoName, -1);
      var seen := Seen(g, n, full);
      if !seen {
        assert goal == j;
        assert autoName == Expansion.AutoName(goal);
        break;
      }
      j := j + 1;
    }
    assert autoName == Expansion.AutoName(goal);
    var full := s.ChildName(autoName, -1);
    g.AddNode(full, NodeGate, None);
    m := g.FindNode(full);
    assert g.nodes[|g.nodes| - 1].name == full;
    var ignored := g.AddEdgeId(n, m, None);
    s.Leave();
    LeaveUndoesEnter(old(s.entries), name, -1);
  }

  /** graph_eval_and_add_edge. */
  method EvalAndAddEdge(g: Graph, p: ParamStack.Stack, s: NameStack.Stack, from: Option<string>, to: Option<string>, ev: Evaluator)
    returns (res: int)
    requires g.Valid() && s.Valid() && p.Valid()
    requires Expansion.Defined(Expansion.AddConnection(g.nodes, s.entries, p.params, from, to, ev))
    modifies g, s
    ensures g.Valid() && s.Valid() && s.entries == old(s.entries)
    ensures Matches(Expansion.AddConnection(old(g.nodes), old(s.entries), p.params, from, to, ev), res, g.nodes)
  {
    var nameA := p.EvalConnName(from.value, ev);
    if nameA.None? {
      return TOP_E_EVAL;
    }
    var nameB := p.EvalConnName(to.value, ev);
    if nameB.None? {
      return TOP_E_EVAL;
    }
    res := Connect(g, s, nameA.value, nameB.value);
  }

  /** graph_eval_and_add_edge from the lookup of both full names on. */
  method Connect(g: Graph, s: NameStack.Stack, nameA: string, nameB: string) returns (res: int)
    requires g.Valid() && s.Valid()
    modifies g, s
    ensures g.Valid() && s.Valid() && s.entries == old(s.entries)
    ensures Matches(Expansion.Connect(old(g.nodes), old(s.entries), nameA, nameB), res, g.nodes)
  {
    var fullA := s.ChildName(nameA, -1);
    var fullB := s.ChildName(nameB, -1);
    var a := g.FindNode(fullA);
    var b := g.FindNode(fullB);
    if a < 0 || b < 0 {
      return TOP_E_CONN;
    }
    a := JoinedEnd(g, a, nameA, s);
    b := JoinedEnd(g, b, nameB, s);
    res := g.AddEdgeId(a, b, None);
    if res != 0 {
      return TOP_E_CONN;
    }
  }

  /** The vertex a connection joins at vertex n: n itself, or an auto gate beside an entity. */
  method JoinedEnd(g: Graph, n: int, name: string, s: NameStack.Stack) returns (m: int)
    requires g.Valid() && s.Valid() && 0 <= n < |g.nodes|
    modifies g, s
    ensures g.Valid() && s.Valid() && s.entries == old(s.entries)
    ensures (g.nodes, m) == Expansion.Endpoint(old(g.nodes), old(s.entries), n, name)
  {
    m := n;
    if g.nodes[n].typ == NodeNode {
      m := AddAutoGate(g, n, name, s);
    }
  }

  /** traverse_and_add_conns. */
  method TraverseAndAddConns(c: Connection, g: Graph, p: ParamStack.Stack, s: NameStack.Stack, ev: Evaluator)
    returns (res: int)
    requires g.Valid() && s.Valid() && p.Valid()
    requires Expansion.Defined(Expansion.Traverse(c, g.nodes, s.entries, p.params, ev))
    modifies g, s, p
    ensures g.Valid() && s.Valid() && p.Valid()
    ensures Matches(Expansion.Traverse(c, old(g.nodes), old(s.entries), old(p.params), ev), res, g.nodes)
    ensures res == 0 ==> s.entries == old(s.entries) && p.params == old(p.params)
    decreases c, 2
  {
    match c
    case Loop(loopVar, startExpr, endExpr, body) =>
      var start, end;
      res, start := EvalInt(p, startExpr.value, ev);
      if res != 0 {
        return;
      }
      res, end := EvalInt(p, endExpr.value, ev);
      if res != 0 {
        return;
      }
      if start > end {
        return TOP_E_LOOP;
      }
      res := LoopBody(c, start, end, g, p, s, ev);
    case ConnectionCond(condition, connThen, connElse) =>
      var v;
      res, v := EvalInt(p, condition.value, ev);
      if res != 0 {
        return;
      }
      if v != 0 {
        res := TraverseAndAddConns(connThen.value, g, p, s, ev);
      } else if connElse.Some? {
        res := TraverseAndAddConns(connElse.value, g, p, s, ev);
      }
    case _ =>
      res := EvalAndAddEdge(g, p, s, Expansion.Ends(c).0, Expansion.Ends(c).1, ev);
  }

  /** The `for (j = start; j < end; j++)` loop of a loop connection. */
  method LoopBody(c: Connection, start: int, end: int, g: Graph, p: ParamStack.Stack, s: NameStack.Stack, ev: Evaluator)
    returns (res: int)
    requires c.Loop? && g.Valid() && s.Valid() && p.Valid()
    requires Expansion.Defined(Expansion.LoopFrom(c, start, end, g.nodes, s.entries, p.params, ev))
    modifies g, s, p
    ensures g.Valid() && s.Valid() && p.Valid()
    ensures Matches(Expansion.LoopFrom(c, start, end, old(g.nodes), old(s.entries), old(p.params), ev), res, g.nodes)
    ensures res == 0 ==> s.entries == old(s.entries) && p.params == old(p.params)
    decreases c, 1
  {
    ghost var goal := Expansion.LoopFrom(c, start, end, g.nodes, s.entries, p.params, ev);
    var j := start;
    while j < end
      invariant g.Valid() && s.Valid() && p.Valid()
      invariant s.entries == old(s.entries) && p.params == old(p.params)
      invariant goal == Expansion.LoopFrom(c, j, end, g.nodes, old(s.entries), old(p.params), ev)
      decreases end - j
    {
      res := LoopTurn(goal, c, j, end, g, p, s, ev);
      if res != 0 {
        return;
      }
      j := j + 1;
    }
    return 0;
  }

  /** One turn of that loop: param_stack_enter_val, the body, param_stack_leave. */
  method LoopTurn(ghost goal: Expansion.Out, c: Connection, j: int, end: int, g: Graph, p: ParamStack.Stack, s: NameStack.Stack, ev: Evaluator)
    returns (res: int)
    requires c.Loop? && g.Valid() && s.Valid() && p.Valid() && j < end
    requires goal == Expansion.LoopFrom(c, j, end, g.nodes, s.entries, p.params, ev) && Expansion.Defined(goal)
    modifies g, s, p
    ensures g.Valid() && s.Valid() && p.Valid()
    ensures res != 0 ==> Matches(goal, res, g.nodes)
    ensures res == 0 ==> s.entries == old(s.entries) && p.params == old(p.params)
    ensures res == 0 ==> goal == Expansion.LoopFrom(c, j + 1, end, g.nodes, s.entries, p.params, ev)
    decreases c, 0
  {
    ghost var ns, es, ps := g.nodes, s.entries, p.params;
    p.EnterVal(c.loopVar.value, j);
    res := TraverseAndAddConns(c.body.value, g, p, s, ev);
    LoopStep(goal, c, j, end, ns, es, ps, ev, res, g.nodes);
    if res != 0 {
      return;
    }
    p.Leave();
  }

  /** One iteration of LoopFrom: the body with the loop variable pushed, then the rest. */
  lemma LoopStep(goal: Expansion.Out, c: Connection, j: int, end: int, ns: seq<Node>, names: seq<string>, ps: seq<Param>, ev: Evaluator,
                 res: int, ns2: seq<Node>)
    requires c.Loop? && Store(ns) && |names| >= 1 && j < end
    requires goal == Expansion.LoopFrom(c, j, end, ns, names, ps, ev)
    requires Matches(Expansion.Turn(c, j, ns, names, ps, ev), res, ns2)
    ensures res != 0 ==> Matches(goal, res, ns2)
    ensures res == 0 ==> Store(ns2) && goal == Expansion.LoopFrom(c, j + 1, end, ns2, names, ps, ev)
  {
  }

  /** The connection loop of expand_module. */
  method AddConnections(conns: seq<Option<Connection>>, g: Graph, p: ParamStack.Stack, s: NameStack.Stack, ev: Evaluator)
    returns (res: int)
    requires g.Valid() && s.Valid() && p.Valid()
    requires Expansion.Defined(Expansion.ConnectionsFrom(conns, 0, g.nodes, s.entries, p.params, ev))
    modifies g, s, p
    ensures g.Valid() && s.Valid() && p.Valid()
    ensures Matches(Expansion.ConnectionsFrom(conns, 0, old(g.nodes), old(s.entries), old(p.params), ev), res, g.nodes)
    ensures res == 0 ==> s.entries == old(s.entries) && p.params == old(p.params)
  {
    ghost var goal := Expansion.ConnectionsFrom(conns, 0, g.nodes, s.entries, p.params, ev);
    var i := 0;
    while i < |conns|
      invariant 0 <= i <= |conns| && g.Valid() && s.Valid() && p.Valid()
      invariant s.entries == old(s.entries) && p.params == old(p.params)
      invariant goal == Expansion.ConnectionsFrom(conns, i, g.nodes, s.entries, p.params, ev)
    {
      res := TraverseAndAddConns(conns[i].value, g, p, s, ev);
      if res != 0 {
        return;
      }
      i := i + 1;
    }
    return 0;
  }

  // ----- gates -----

  /** add_gate, or in a compound module (owner None) the bare graph_add_node of the gate. */
  method AddGate(g: Graph, s: NameStack.Stack, owner: Option<string>, gate: string, j: int) returns (res: int)
    requires g.Valid() && s.Valid()
    modifies g
    ensures g.Valid()
    ensures Built(res, g.nodes) == Run(old(g.nodes), Expansion.GateOps(s.entries, owner, gate, j))
  {
    ghost var ops := Expansion.GateOps(s.entries, owner, gate, j);
    var full := s.ChildName(gate, j);
    g.AddNode(full, NodeGate, None);
    ghost var mid := g.nodes;
    res := 0;
    if owner.Some? {
      res := g.AddEdgeName(full, owner.value, None);
      assert ops[1..] == [ops[1]];
      RunOne(mid, ops[1]);
    } else {
      assert ops[1..] == [];
    }
  }

  /** The calls of copies j.. are those of copy j, then those of copies j+1.. */
  lemma CopiesStep(ns: seq<Node>, names: seq<string>, owner: Option<string>, gate: string, j: int, size: int)
    requires Store(ns) && |names| >= 1 && j < size
    ensures Run(ns, Expansion.CopiesFrom(names, owner, gate, j, size)) ==
      (var r := Run(ns, Expansion.GateOps(names, owner, gate, j));
       if r.code != 0 then r else Run(r.ns, Expansion.CopiesFrom(names, owner, gate, j + 1, size)))
  {
    RunAppend(ns, Expansion.GateOps(names, owner, gate, j), Expansion.CopiesFrom(names, owner, gate, j + 1, size));
  }

  /** The copies j.. of one gate. */
  method AddCopies(g: Graph, s: NameStack.Stack, owner: Option<string>, gate: string, size: int) returns (res: int)
    requires g.Valid() && s.Valid()
    modifies g
    ensures g.Valid()
    ensures Built(res, g.nodes) == Run(old(g.nodes), Expansion.CopiesFrom(s.entries, owner, gate, 0, size))
  {
    ghost var goal := Run(g.nodes, Expansion.CopiesFrom(s.entries, owner, gate, 0, size));
    var j := 0;
    while j < size
      invariant 0 <= j && g.Valid()
      invariant goal == Run(g.nodes, Expansion.CopiesFrom(s.entries, owner, gate, j, size))
      decreases size - j
    {
      CopiesStep(g.nodes, s.entries, owner, gate, j, size);
      res := AddGate(g, s, owner, gate, j);
      if res != 0 {
        return;
      }
      j := j + 1;
    }
    return 0;
  }

  /** The gate loop of expand_module: each gate's size evaluated, then its copies. */
  method AddGates(gates: seq<Gate>, owner: Option<string>, g: Graph, p: ParamStack.Stack, s: NameStack.Stack, ev: Evaluator)
    returns (res: int)
    requires g.Valid() && s.Valid() && p.Valid()
    requires Expansion.Defined(Expansion.GatesFrom(gates, 0, g.nodes, s.entries, owner, p.params, ev))
    modifies g
    ensures g.Valid()
    ensures Matches(Expansion.GatesFrom(gates, 0, old(g.nodes), s.entries, owner, p.params, ev), res, g.nodes)
  {
    ghost var goal := Expansion.GatesFrom(gates, 0, g.nodes, s.entries, owner, p.params, ev);
    var i := 0;
    while i < |gates|
      invariant 0 <= i <= |gates| && g.Valid()
      invariant goal == Expansion.GatesFrom(gates, i, g.nodes, s.entries, owner, p.params, ev)
    {
      var size;
      res, size := EvalInt(p, gates[i].size.value, ev);
      if res != 0 {
        return;
      }
      ghost var ns := g.nodes;
      res := AddGateCopies(g, s, owner, Expansion.GateName(gates[i]), size);
      if res != 0 {
        return;
      }
      assert goal == Expansion.GatesFrom(gates, i + 1, Run(ns, Expansion.GateCopies(s.entries, owner, Expansion.GateName(gates[i]), size)).ns,
                                         s.entries, owner, p.params, ev);
      i := i + 1;
    }
    return 0;
  }

  /** One gate of expand_module's gate loop, its size evaluated: one unindexed gate for size 0, else its copies. */
  method AddGateCopies(g: Graph, s: NameStack.Stack, owner: Option<string>, gate: string, size: int) returns (res: int)
    requires g.Valid() && s.Valid()
    modifies g
    ensures g.Valid()
    ensures Built(res, g.nodes) == Run(old(g.nodes), Expansion.GateCopies(s.entries, owner, gate, size))
  {
    if size == 0 {
      res := AddGate(g, s, owner, gate, -1);
    } else {
      res := AddCopies(g, s, owner, gate, size);
    }
  }

  // ----- products -----

  /** graphs_product. */
  method GraphsProduct(ga: Graph, gb: Graph, prod: Graph) returns (res: int)
    requires ga.Valid() && gb.Valid() && prod.Valid() && prod.nodes == [] && prod != ga && prod != gb
    modifies prod
    ensures prod.Valid()
    ensures Built(res, prod.nodes) == Expansion.GraphsProduct(ga.nodes, gb.nodes)
  {
    res := Products.RunPass(ga.nodes, gb.nodes, Products.Vertices, false, prod);
    if res != 0 {
      return;
    }
    res := Products.RunPass(ga.nodes, gb.nodes, Products.CartEdges, false, prod);
  }

  /** graph_insert's vertex loop. */
  method InsertVertices(g: Graph, prod: seq<Node>, scope: string)
    requires g.Valid()
    modifies g
    ensures g.Valid()
    ensures Built(0, g.nodes) == Run(old(g.nodes), Expansion.InsertVertexOps(prod, scope))
  {
    ghost var ops := Expansion.InsertVertexOps(prod, scope);
    ghost var goal := Run(g.nodes, ops);
    var i := 0;
    while i < |prod|
      invariant 0 <= i <= |prod| && g.Valid()
      invariant goal == Run(g.nodes, ops[i..])
    {
      assert ops[i..][0] == ops[i] && ops[i..][1..] == ops[i + 1..];
      g.AddNode(Expansion.Scoped(scope, prod[i].name), prod[i].typ, None);
      i := i + 1;
    }
    assert ops[i..] == [];
  }

  /** One adjacency entry of graph_insert's edge loop. */
  method InsertEdgeAt(g: Graph, prod: seq<Node>, scope: string, i: int, k: int) returns (res: int)
    requires g.Valid() && WellFormed(prod) && 0 <= i < |prod| && 0 <= k < |prod[i].adj|
    modifies g
    ensures g.Valid()
    ensures Built(res, g.nodes) == Run(old(g.nodes), Expansion.InsertRowOps(prod, scope, i)[k])
  {
    assert NodeOk(prod[i], i, |prod|);
    var t := prod[i].adj[k].n;
    if i < t {
      return 0;
    }
    ghost var op := NewEdge(Expansion.Scoped(scope, prod[i].name), Expansion.Scoped(scope, prod[t].name), None);
    RunOne(g.nodes, op);
    res := g.AddEdgeName(Expansion.Scoped(scope, prod[i].name), Expansion.Scoped(scope, prod[t].name), None);
  }

  /** The adjacency entries of product vertex i. */
  method InsertRow(g: Graph, prod: seq<Node>, scope: string, i: int) returns (res: int)
    requires g.Valid() && WellFormed(prod) && 0 <= i < |prod|
    modifies g
    ensures g.Valid()
    ensures Built(res, g.nodes) == Run(old(g.nodes), Products.Flatten(Expansion.InsertRowOps(prod, scope, i)))
  {
    ghost var parts := Expansion.InsertRowOps(prod, scope, i);
    ghost var goal := Run(g.nodes, Products.Flatten(parts));
    assert parts[0..] == parts;
    var k := 0;
    while k < |prod[i].adj|
      invariant 0 <= k <= |prod[i].adj| && g.Valid()
      invariant goal == Run(g.nodes, Products.Flatten(parts[k..]))
    {
      Products.FlattenStep(g.nodes, parts, k);
      res := InsertEdgeAt(g, prod, scope, i, k);
      if res != 0 {
        return;
      }
      k := k + 1;
    }
    return 0;
  }

  /** graph_insert: the product's vertices and edges under the current scope. */
  method GraphInsert(g: Graph, prod: Graph, s: NameStack.Stack) returns (res: int)
    requires g.Valid() && prod.Valid() && s.Valid() && g != prod
    modifies g
    ensures g.Valid()
    ensures Built(res, g.nodes) == Run(old(g.nodes), Expansion.InsertOps(prod.nodes, Join(s.entries)))
  {
    var scope := s.Name();
    var ps := prod.nodes;
    RunAppend(g.nodes, Expansion.InsertVertexOps(ps, scope), Expansion.InsertEdgeOps(ps, scope));
    InsertVertices(g, ps, scope);
    ghost var parts := seq(|ps|, i requires 0 <= i < |ps| => Products.Flatten(Expansion.InsertRowOps(ps, scope, i)));
    ghost var goal := Run(g.nodes, Products.Flatten(parts));
    assert parts[0..] == parts;
    var i := 0;
    while i < |ps|
      invariant 0 <= i <= |ps| && g.Valid()
      invariant goal == Run(g.nodes, Products.Flatten(parts[i..]))
    {
      Products.FlattenStep(g.nodes, parts, i);
      res := InsertRow(g, ps, scope, i);
      if res != 0 {
        return;
      }
      i := i + 1;
    }
    return 0;
  }

  // ----- modules -----
  //
  // The methods below recurse as the modules include each other.  Each is
  // proved for the runs its specification follows to the end with the
  // given fuel (the ghost parameter); the fuel bounds the proof, not the
  // method.

  /** expand_module. */
  method ExpandModule(d: Expansion.Definition, m: Module, g: Graph, s: NameStack.Stack, p: ParamStack.Stack, ev: Evaluator, ghost fuel: nat)
    returns (res: int)
    requires g.Valid() && s.Valid() && p.Valid()
    requires Expansion.Defined(Expansion.ExpandModule(d, m, g.nodes, s.entries, p.params, ev, fuel))
    modifies g, s, p
    ensures g.Valid() && s.Valid() && p.Valid()
    ensures Matches(Expansion.ExpandModule(d, m, old(g.nodes), old(s.entries), old(p.params), ev, fuel), res, g.nodes)
    ensures res == 0 ==> s.entries == old(s.entries) && p.params == old(p.params)
    decreases fuel, 5
  {
    res := PushParams(p, Expansion.Params(m.params), ev);
    if res != 0 {
      return;
    }
    res := ModuleBody(d, m, g, s, p, ev, fuel);
    if res != 0 {
      return;
    }
    PopParams(p, |Expansion.Params(m.params)|);
  }

  /** expand_module between pushing and popping the parameters. */
  method ModuleBody(d: Expansion.Definition, m: Module, g: Graph, s: NameStack.Stack, p: ParamStack.Stack, ev: Evaluator, ghost fuel: nat)
    returns (res: int)
    requires g.Valid() && s.Valid() && p.Valid()
    requires Expansion.Defined(Expansion.ModuleBody(d, m, g.nodes, s.entries, p.params, ev, fuel))
    modifies g, s, p
    ensures g.Valid() && s.Valid() && p.Valid()
    ensures Matches(Expansion.ModuleBody(d, m, old(g.nodes), old(s.entries), old(p.params), ev, fuel), res, g.nodes)
    ensures res == 0 ==> s.entries == old(s.entries) && p.params == old(p.params)
    decreases fuel, 4
  {
    if m.typ == Simple {
      res := SimpleModule(m, g, s, p, ev);
    } else {
      res := CompoundModule(d, m, g, s, p, ev, fuel);
    }
  }

  /** expand_module for a simple module: its vertex, its attributes, its gates joined to it. */
  method SimpleModule(m: Module, g: Graph, s: NameStack.Stack, p: ParamStack.Stack, ev: Evaluator) returns (res: int)
    requires m.typ == Simple && g.Valid() && s.Valid() && p.Valid()
    requires Expansion.Defined(Expansion.SimpleModule(m, g.nodes, s.entries, p.params, ev))
    modifies g
    ensures g.Valid()
    ensures Matches(Expansion.SimpleModule(m, old(g.nodes), s.entries, p.params, ev), res, g.nodes)
  {
    var self := s.Name();
    g.AddNode(self, NodeNode, None);
    var k := g.FindNode(self);
    assert g.nodes[|g.nodes| - 1].name == self;
    Expansion.SetAttributesKeeps(g.nodes, k, m.attributes);
    g.nodes := Expansion.SetAttributes(g.nodes, k, m.attributes);
    res := AddGates(Expansion.Gates(m), Some(self), g, p, s, ev);
  }

  /** expand_module for a compound module: gates, then submodules, then connections. */
  method CompoundModule(d: Expansion.Definition, m: Module, g: Graph, s: NameStack.Stack, p: ParamStack.Stack, ev: Evaluator, ghost fuel: nat)
    returns (res: int)
    requires g.Valid() && s.Valid() && p.Valid()
    requires Expansion.Defined(Expansion.CompoundModule(d, m, g.nodes, s.entries, p.params, ev, fuel))
    modifies g, s, p
    ensures g.Valid() && s.Valid() && p.Valid()
    ensures Matches(Expansion.CompoundModule(d, m, old(g.nodes), old(s.entries), old(p.params), ev, fuel), res, g.nodes)
    ensures res == 0 ==> s.entries == old(s.entries) && p.params == old(p.params)
    decreases fuel, 3
  {
    res := AddGates(Expansion.Gates(m), None, g, p, s, ev);
    if res != 0 {
      return;
    }
    res := AddSubmodules(d, Expansion.Subs(m), g, s, p, ev, fuel);
    if res != 0 {
      return;
    }
    res := AddConnections(Expansion.Conns(m), g, p, s, ev);
  }

  /** The submodule loop of expand_module. */
  method AddSubmodules(d: Expansion.Definition, subs: seq<Option<Submodule>>, g: Graph, s: NameStack.Stack, p: ParamStack.Stack, ev: Evaluator, ghost fuel: nat)
    returns (res: int)
    requires g.Valid() && s.Valid() && p.Valid()
    requires Expansion.Defined(Expansion.SubmodulesFrom(d, subs, 0, g.nodes, s.entries, p.params, ev, fuel))
    modifies g, s, p
    ensures g.Valid() && s.Valid() && p.Valid()
    ensures Matches(Expansion.SubmodulesFrom(d, subs, 0, old(g.nodes), old(s.entries), old(p.params), ev, fuel), res, g.nodes)
    ensures res == 0 ==> s.entries == old(s.entries) && p.params == old(p.params)
    decreases fuel, 2
  {
    ghost var goal := Expansion.SubmodulesFrom(d, subs, 0, g.nodes, s.entries, p.params, ev, fuel);
    var i := 0;
    while i < |subs|
      invariant 0 <= i <= |subs| && g.Valid() && s.Valid() && p.Valid()
      invariant s.entries == old(s.entries) && p.params == old(p.params)
      invariant goal == Expansion.SubmodulesFrom(d, subs, i, g.nodes, old(s.entries), old(p.params), ev, fuel)
    {
      res := AddSubmodule(d, subs[i].value, g, s, p, ev, fuel);
      if res != 0 {
        return;
      }
      i := i + 1;
    }
    return 0;
  }

  /** add_submodule. */
  method AddSubmodule(d: Expansion.Definition, sm: Submodule, g: Graph, s: NameStack.Stack, p: ParamStack.Stack, ev: Evaluator, ghost fuel: nat)
    returns (res: int)
    requires g.Valid() && s.Valid() && p.Valid()
    requires Expansion.Defined(Expansion.AddSubmodule(d, sm, g.nodes, s.entries, p.params, ev, fuel))
    modifies g, s, p
    ensures g.Valid() && s.Valid() && p.Valid()
    ensures Matches(Expansion.AddSubmodule(d, sm, old(g.nodes), old(s.entries), old(p.params), ev, fuel), res, g.nodes)
    ensures res == 0 ==> s.entries == old(s.entries) && p.params == old(p.params)
    decreases fuel, 1, Expansion.SubmoduleSize(sm), 1
  {
    match sm
    case Instance(_, _, _, _) =>
      res := AddInstance(d, sm, g, s, p, ev, fuel);
    case Product(_, _, _, _) =>
      res := AddProduct(d, sm, g, s, p, ev, fuel);
    case SubmoduleCond(condition, subThen, subElse) =>
      var v;
      res, v := EvalInt(p, condition.value, ev);
      if res != 0 {
        return;
      }
      if v != 0 {
        res := AddSubmodule(d, subThen.value, g, s, p, ev, fuel);
      } else if subElse.Some? {
        res := AddSubmodule(d, subElse.value, g, s, p, ev, fuel);
      }
  }

  /** add_submodule for an instance: its parameters pushed, its size evaluated, its copies expanded. */
  method AddInstance(d: Expansion.Definition, sm: Submodule, g: Graph, s: NameStack.Stack, p: ParamStack.Stack, ev: Evaluator, ghost fuel: nat)
    returns (res: int)
    requires sm.Instance? && g.Valid() && s.Valid() && p.Valid()
    requires Expansion.Defined(Expansion.AddSubmodule(d, sm, g.nodes, s.entries, p.params, ev, fuel))
    modifies g, s, p
    ensures g.Valid() && s.Valid() && p.Valid()
    ensures Matches(Expansion.AddSubmodule(d, sm, old(g.nodes), old(s.entries), old(p.params), ev, fuel), res, g.nodes)
    ensures res == 0 ==> s.entries == old(s.entries) && p.params == old(p.params)
    decreases fuel, 1, Expansion.SubmoduleSize(sm), 0
  {
    res := PushParams(p, Expansion.Params(sm.params), ev);
    if res != 0 {
      return;
    }
    var count := 0;
    if sm.size.Some? {
      res, count := EvalInt(p, sm.size.value, ev);
      if res != 0 {
        return;
      }
    }
    res := Copies(d, sm, count, g, s, p, ev, fuel);
    if res != 0 {
      return;
    }
    PopParams(p, |Expansion.Params(sm.params)|);
  }

  /** add_submodule's choice between the indexed copies and the one unindexed copy. */
  method Copies(d: Expansion.Definition, sm: Submodule, count: int, g: Graph, s: NameStack.Stack, p: ParamStack.Stack, ev: Evaluator, ghost fuel: nat)
    returns (res: int)
    requires sm.Instance? && g.Valid() && s.Valid() && p.Valid()
    requires Expansion.Defined(Expansion.Copies(d, sm, count, g.nodes, s.entries, p.params, ev, fuel))
    modifies g, s, p
    ensures g.Valid() && s.Valid() && p.Valid()
    ensures Matches(Expansion.Copies(d, sm, count, old(g.nodes), old(s.entries), old(p.params), ev, fuel), res, g.nodes)
    ensures res == 0 ==> s.entries == old(s.entries) && p.params == old(p.params)
    decreases fuel, 0, 2
  {
    if count > 0 {
      res := Instances(d, sm, count, g, s, p, ev, fuel);
    } else {
      res := EnterAndExpandModule(d, sm, -1, g, s, p, ev, fuel);
    }
  }

  /** The `for (j = 0; j < size; j++)` loop of add_submodule. */
  method Instances(d: Expansion.Definition, sm: Submodule, count: int, g: Graph, s: NameStack.Stack, p: ParamStack.Stack, ev: Evaluator, ghost fuel: nat)
    returns (res: int)
    requires sm.Instance? && g.Valid() && s.Valid() && p.Valid()
    requires Expansion.Defined(Expansion.InstancesFrom(d, sm, 0, count, g.nodes, s.entries, p.params, ev, fuel))
    modifies g, s, p
    ensures g.Valid() && s.Valid() && p.Valid()
    ensures Matches(Expansion.InstancesFrom(d, sm, 0, count, old(g.nodes), old(s.entries), old(p.params), ev, fuel), res, g.nodes)
    ensures res == 0 ==> s.entries == old(s.entries) && p.params == old(p.params)
    decreases fuel, 0, 1
  {
    ghost var goal := Expansion.InstancesFrom(d, sm, 0, count, g.nodes, s.entries, p.params, ev, fuel);
    var j := 0;
    while j < count
      invariant 0 <= j && g.Valid() && s.Valid() && p.Valid()
      invariant s.entries == old(s.entries) && p.params == old(p.params)
      invariant goal == Expansion.InstancesFrom(d, sm, j, count, g.nodes, old(s.entries), old(p.params), ev, fuel)
      decreases count - j
    {
      res := EnterAndExpandModule(d, sm, j, g, s, p, ev, fuel);
      if res != 0 {
        return;
      }
      j := j + 1;
    }
    return 0;
  }

  /** enter_and_expand_module. */
  method EnterAndExpandModule(d: Expansion.Definition, sm: Submodule, j: int, g: Graph, s: NameStack.Stack, p: ParamStack.Stack, ev: Evaluator, ghost fuel: nat)
    returns (res: int)
    requires sm.Instance? && g.Valid() && s.Valid() && p.Valid()
    requires Expansion.Defined(Expansion.EnterAndExpand(d, sm, j, g.nodes, s.entries, p.params, ev, fuel))
    modifies g, s, p
    ensures g.Valid() && s.Valid() && p.Valid()
    ensures Matches(Expansion.EnterAndExpand(d, sm, j, old(g.nodes), old(s.entries), old(p.params), ev, fuel), res, g.nodes)
    ensures res == 0 ==> s.entries == old(s.entries) && p.params == old(p.params)
    decreases fuel, 0, 0
  {
    s.Enter(sm.name.value, j);
    var k := FindModule(d.modules, sm.moduleName.value);
    if k < 0 {
      s.Leave();
      return TOP_E_NOMOD;
    }
    res := ExpandModule(d, d.modules[k], g, s, p, ev, fuel - 1);
    s.Leave();
    LeaveUndoesEnter(old(s.entries), sm.name.value, j);
  }

  /**
   * add_submodule for a product: both operands expanded into fresh graphs
   * under a fresh scope "", each compacted (its status ignored), their
   * graphs_product built and inserted under the current scope.
   */
  method AddProduct(d: Expansion.Definition, sm: Submodule, g: Graph, s: NameStack.Stack, p: ParamStack.Stack, ev: Evaluator, ghost fuel: nat)
    returns (res: int)
    requires sm.Product? && g.Valid() && s.Valid() && p.Valid()
    requires Expansion.Defined(Expansion.AddSubmodule(d, sm, g.nodes, s.entries, p.params, ev, fuel))
    modifies g, p
    ensures g.Valid() && p.Valid()
    ensures Matches(Expansion.AddSubmodule(d, sm, old(g.nodes), s.entries, old(p.params), ev, fuel), res, g.nodes)
    ensures res == 0 ==> p.params == old(p.params)
    decreases fuel, 1, Expansion.SubmoduleSize(sm), 0
  {
    var scratch := new NameStack.Stack("");
    var ca;
    res, ca := Operand(d, sm.a, scratch, p, ev, fuel);
    if res != 0 {
      return;
    }
    var cb;
    res, cb := Operand(d, sm.b, scratch, p, ev, fuel);
    if res != 0 {
      return;
    }
    res := InsertProduct(g, s, ca, cb);
  }

  /** The tail of add_submodule for a product: graphs_product into a fresh graph, then graph_insert. */
  method InsertProduct(g: Graph, s: NameStack.Stack, ca: Graph, cb: Graph) returns (res: int)
    requires g.Valid() && s.Valid() && ca.Valid() && cb.Valid() && g != ca && g != cb
    modifies g
    ensures g.Valid()
    ensures Matches(Expansion.ProductInto(old(g.nodes), s.entries, ca.nodes, cb.nodes), res, g.nodes)
  {
    var prod := new Graph();
    res := GraphsProduct(ca, cb, prod);
    if res != 0 {
      return;
    }
    res := GraphInsert(g, prod, s);
  }

  /** One operand of a product: a fresh graph, the operand expanded into it, then compacted. */
  method Operand(d: Expansion.Definition, sm: Submodule, scratch: NameStack.Stack, p: ParamStack.Stack, ev: Evaluator, ghost fuel: nat)
    returns (res: int, c: Graph)
    requires scratch.Valid() && scratch.entries == [""] && p.Valid()
    requires Expansion.Defined(Expansion.Operand(d, sm, p.params, ev, fuel))
    modifies scratch, p
    ensures fresh(c) && c.Valid() && scratch.Valid() && p.Valid()
    ensures Matches(Expansion.Operand(d, sm, old(p.params), ev, fuel), res, c.nodes)
    ensures res == 0 ==> scratch.entries == [""] && p.params == old(p.params)
    decreases fuel, 1, Expansion.SubmoduleSize(sm), 2
  {
    var g := new Graph();
    res := AddSubmodule(d, sm, g, scratch, p, ev, fuel);
    if res != 0 {
      return res, g;
    }
    var ignored;
    ignored, c := Compaction.CompactGraph(g);
  }

  /**
   * topologies_definition_to_graph: the graph of the network block, or
   * an error code and no graph.
   */
  method DefinitionToGraph(d: Expansion.Definition, ev: Evaluator, ghost fuel: nat) returns (res: int, g: Graph?)
    requires Expansion.Defined(Expansion.DefinitionToGraph(d, ev, fuel))
    ensures res == 0 <==> Expansion.DefinitionToGraph(d, ev, fuel).Ok?
    ensures res == 0 ==> g != null && fresh(g) && g.Valid() && g.nodes == Expansion.DefinitionToGraph(d, ev, fuel).ns
    ensures res != 0 ==> g == null && res == Expansion.DefinitionToGraph(d, ev, fuel).code
  {
    if d.network.None? {
      return TOP_E_NONET, null;
    }
    var k := FindModule(d.modules, d.network.value.moduleName.value);
    if k < 0 {
      return TOP_E_NOMOD, null;
    }
    var graph := new Graph();
    var s := new NameStack.Stack("network");
    var p := new ParamStack.Stack();
    res := PushParams(p, Expansion.Params(d.network.value.params), ev);
    if res != 0 {
      return res, null;
    }
    res := ExpandModule(d, d.modules[k], graph, s, p, ev, fuel);
    if res != 0 {
      return res, null;
    }
    PopParams(p, |Expansion.Params(d.network.value.params)|);
    return 0, graph;
  }
}
