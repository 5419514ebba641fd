/**
 * Expansion of a network description into a graph
 * (topologies_definition_to_graph and the functions it calls in
 * src/topologies.c), as functions from the store before a step to the
 * store after it.
 *
 * The scope is the list of name-stack entries `names` (NameStack) and the
 * bindings `ps` (ParamStack); expression evaluation is the parameter `ev`.
 * A module is expanded inside a scope: a simple module becomes an entity
 * vertex `<scope>` with its gate vertices `<scope>.<gate>[j]`, a compound
 * module becomes its gate vertices, then its submodules in their own
 * scopes, then its connections.  Modules may include each other without
 * end, so the expansion carries fuel: OutOfFuel is a run the model does
 * not follow to the end, never a result of the source.
 *
 * The definition's strings and arrays are Options: None is a NULL
 * pointer.  Where the source reads through a pointer without testing it,
 * a None gives the outcome NullRead, whose behaviour the source leaves
 * undefined; where it tests the pointer first, the model takes the same
 * branch.
 */
module Expansion {
  import opened Basics
  import opened Errors
  import opened GraphStore
  import opened GraphOps
  import opened NameStack
  import opened ParamStack
  import opened Defs
  import Compaction
  import Products

  const INT_MAX := 0x7fff_ffff

  /** The modules expand_module can find (net->modules[0..n_modules)) and the network block. */
  datatype Definition = Definition(modules: seq<Module>, network: Option<Network>)

  /**
   * The outcome of an expansion step: the new store, an error code, a
   * read through a NULL pointer (undefined behaviour in the source), or a
   * run deeper than the fuel.
   */
  datatype Out = Ok(ns: seq<Node>) | Fail(code: int) | NullRead | OutOfFuel

  /** An outcome the source defines: a store or an error code. */
  predicate Defined(r: Out)
  {
    r.Ok? || r.Fail?
  }

  /** The codes an expansion step can fail with. */
  predicate ExpansionError(code: int)
  {
    code == TOP_E_EVAL || code == TOP_E_CONN || code == TOP_E_NOMOD || code == TOP_E_LOOP
  }

  /** A measure of a submodule tree: the count of its nodes. */
  function SubmoduleSize(sm: Submodule): nat
  {
    match sm
    case Instance(_, _, _, _) => 1
    case Product(a, b, _, _) => 1 + SubmoduleSize(a) + SubmoduleSize(b)
    case SubmoduleCond(_, subThen, subElse) =>
      1 + (if subThen.Some? then SubmoduleSize(subThen.value) else 0) +
      (if subElse.Some? then SubmoduleSize(subElse.value) else 0)
  }

  /** The counted arrays of a module; a NULL array has count 0. */
  function Params(ps: Option<seq<RawParam>>): seq<RawParam> { if ps.Some? then ps.value else [] }
  function Gates(m: Module): seq<Gate> { if m.gates.Some? then m.gates.value else [] }
  function Subs(m: Module): seq<Option<Submodule>> { if m.submodules.Some? then m.submodules.value else [] }
  function Conns(m: Module): seq<Option<Connection>> { if m.connections.Some? then m.connections.value else [] }

  // ----- lookups and evaluation -----

  /** find_module: the index of the first module with the name, or -1. */
  function FindModule(ms: seq<Module>, name: string): (r: int)
    ensures -1 <= r < |ms|
    ensures r >= 0 ==> ms[r].name == Some(name) && forall k :: 0 <= k < r ==> ms[k].name != Some(name)
    ensures r == -1 ==> forall k :: 0 <= k < |ms| ==> ms[k].name != Some(name)
  {
    if |ms| == 0 then -1
    else
      var r := FindModule(ms[..|ms| - 1], name);
      if r >= 0 then r else if ms[|ms| - 1].name == Some(name) then |ms| - 1 else -1
  }

  /** What find_module's loop from index i meets first: the module named `name`, the end, or a NULL name that strcmp reads. */
  datatype Lookup = Found(k: int) | Missing | Unnamed

  /** find_module's loop from index i, with the NULL names it reads. */
  function ModuleLookup(ms: seq<Module>, name: string, i: nat): (r: Lookup)
    requires i <= |ms|
    ensures r.Found? ==>
      i <= r.k < |ms| && ms[r.k].name == Some(name) &&
      forall t :: i <= t < r.k ==> ms[t].name.Some? && ms[t].name.value != name
    ensures r.Missing? <==> forall t :: i <= t < |ms| ==> ms[t].name.Some? && ms[t].name.value != name
    ensures r.Unnamed? ==>
      exists t :: i <= t < |ms| && ms[t].name.None? && (forall u :: i <= u < t ==> ms[u].name.Some? && ms[u].name.value != name)
    decreases |ms| - i
  {
    if i == |ms| then Missing
    else if ms[i].name.None? then Unnamed
    else if ms[i].name.value == name then Found(i)
    else ModuleLookup(ms, name, i + 1)
  }

  /** param_stack_eval followed by lrint; None when the expression does not evaluate. */
  function EvalInt(ps: seq<Param>, expr: string, ev: Evaluator): Option<int>
  {
    match EvalIn(ps, expr, ev)
    case None => None
    case Some(x) => Some(Lrint(x))
  }

  /**
   * param_stack_enter for each raw parameter in turn: each name is pushed,
   * then bound to its value evaluated over the stack that already holds
   * it; None at the first that does not evaluate.
   */
  function Pushed(ps: seq<Param>, rs: seq<RawParam>, ev: Evaluator): (r: Option<seq<Param>>)
    ensures r.Some? ==> |r.value| == |ps| + |rs| && r.value[..|ps|] == ps
    ensures r.Some? ==> forall k :: 0 <= k < |rs| ==> r.value[|ps| + k].name == rs[k].name
    decreases |rs|
  {
    if |rs| == 0 then Some(ps)
    else
      var v := EvalIn(ps + [Param(rs[0].name, None)], rs[0].value, ev);
      if v.None? then None
      else
        var r := Pushed(ps + [Param(rs[0].name, v)], rs[1..], ev);
        r
  }

  // ----- the store -----

  /** Names, types and edge lists of the old vertices survive; attributes may be rewritten. */
  ghost predicate Grows(ns: seq<Node>, ms: seq<Node>)
  {
    |ns| <= |ms| &&
    forall i :: 0 <= i < |ns| ==> ms[i].name == ns[i].name && ms[i].typ == ns[i].typ && ns[i].adj <= ms[i].adj
  }

  lemma GrowsTrans(ns: seq<Node>, ms: seq<Node>, ls: seq<Node>)
    requires Grows(ns, ms) && Grows(ms, ls)
    ensures Grows(ns, ls)
  {
    forall i | 0 <= i < |ns|
      ensures ns[i].adj <= ls[i].adj
    {
      assert ns[i].adj <= ms[i].adj <= ls[i].adj;
    }
  }

  /** expand_module's write of a simple module's attributes into the vertex graph_find_node finds. */
  function SetAttributes(ns: seq<Node>, i: int, attrs: Option<string>): (r: seq<Node>)
    requires 0 <= i < |ns|
    ensures |r| == |ns| && r[i].attributes == attrs
    ensures forall k :: 0 <= k < |ns| && k != i ==> r[k] == ns[k]
  {
    ns[i := ns[i].(attributes := attrs)]
  }

  /** Rewriting attributes touches no name, type or edge. */
  lemma SetAttributesKeeps(ns: seq<Node>, i: int, attrs: Option<string>)
    requires Store(ns) && 0 <= i < |ns|
    ensures Store(SetAttributes(ns, i, attrs)) && Grows(ns, SetAttributes(ns, i, attrs))
  {
    var ms := SetAttributes(ns, i, attrs);
    assert forall k :: 0 <= k < |ns| ==> ms[k].adj == ns[k].adj && ms[k].n == ns[k].n && ms[k].capAdj == ns[k].capAdj;
    assert forall k :: 0 <= k < |ns| ==> NodeOk(ms[k], k, |ms|) by {
      forall k | 0 <= k < |ns|
        ensures NodeOk(ms[k], k, |ms|)
      {
        assert NodeOk(ns[k], k, |ns|);
      }
    }
  }

  // ----- auto gates -----

  /** The name add_auto_gate prints for candidate j. */
  function AutoName(j: int): string
  {
    "_auto[" + Decimal(j) + "]"
  }

  /** The names of a vertex's neighbours, in adjacency order. */
  function NeighbourNames(ns: seq<Node>, n: int): (r: seq<string>)
    requires WellFormed(ns) && 0 <= n < |ns|
    ensures |r| == |ns[n].adj|
    ensures forall k :: 0 <= k < |r| ==> r[k] == ns[ns[n].adj[k].n].name
  {
    assert NodeOk(ns[n], n, |ns|);
    seq(|ns[n].adj|, k requires 0 <= k < |ns[n].adj| => ns[ns[n].adj[k].n].name)
  }

  /**
   * add_auto_gate's search from candidate j: the first whose full name no
   * neighbour carries.  When every candidate below INT_MAX is taken the
   * loop ends with the buffer still holding INT_MAX - 1.
   */
  function AutoIndex(taken: seq<string>, es: seq<string>, j: int): (r: int)
    requires |es| >= 1 && 0 <= j <= INT_MAX
    ensures j <= r < INT_MAX || (j == INT_MAX && r == INT_MAX - 1)
    decreases INT_MAX - j
  {
    if j == INT_MAX then INT_MAX - 1
    else if FullName(es, AutoName(j), -1) !in taken then j
    else if j + 1 == INT_MAX then INT_MAX - 1
    else AutoIndex(taken, es, j + 1)
  }

  /**
   * add_auto_gate(n, name): in the scope `names + [name]`, a gate vertex
   * `<scope>._auto[j]` for the first free j, joined by id to vertex n.
   * The result is the store and the index graph_find_node gives for the
   * new name, which the caller joins instead of n.
   */
  function AutoGate(ns: seq<Node>, names: seq<string>, n: int, name: string): (r: (seq<Node>, int))
    requires Store(ns) && |names| >= 1 && 0 <= n < |ns|
    ensures Store(r.0) && 0 <= r.1 < |r.0| && Extends(ns, r.0) && |r.0| == |ns| + 1
  {
    var es := names + [Segment(name, -1)];
    var full := FullName(es, AutoName(AutoIndex(NeighbourNames(ns, n), es, 0)), -1);
    var ns1 := Step(ns, NewVertex(full, NodeGate, None)).ns;
    StepExtends(ns, NewVertex(full, NodeGate, None));
    assert ns1[|ns|].name == full;
    var m := IndexOf(ns1, full);
    WithEdgeFacts(ns1, n, m, None);
    WithEdgeShape(ns1, n, m, None);
    ExtendsTrans(ns, ns1, WithEdge(ns1, n, m, None));
    (WithEdge(ns1, n, m, None), m)
  }

  /** The endpoint a connection joins: vertex n itself, or for an entity a new auto gate beside it. */
  function Endpoint(ns: seq<Node>, names: seq<string>, n: int, name: string): (r: (seq<Node>, int))
    requires Store(ns) && |names| >= 1 && 0 <= n < |ns|
    ensures Store(r.0) && 0 <= r.1 < |r.0| && Extends(ns, r.0)
  {
    if ns[n].typ == NodeNode then AutoGate(ns, names, n, name) else (ns, n)
  }

  // ----- connections -----

  /**
   * graph_eval_and_add_edge: the endpoint names evaluated in turn, `from`
   * first (TOP_E_EVAL at the first that does not evaluate, a NULL read
   * at the first that is NULL), looked up as `<scope>.<name>` (TOP_E_CONN
   * when one is missing), entities replaced by auto gates, and an edge
   * added by id without attributes.
   */
  function AddConnection(ns: seq<Node>, names: seq<string>, ps: seq<Param>, from: Option<string>, to: Option<string>, ev: Evaluator): (r: Out)
    requires Store(ns) && |names| >= 1
    ensures r.Ok? ==> Store(r.ns) && Extends(ns, r.ns)
    ensures r.Fail? ==> ExpansionError(r.code)
    ensures !r.OutOfFuel?
  {
    if from.None? then NullRead
    else
      var nameA := ConnName(ps, from.value, ev);
      if nameA.None? then Fail(TOP_E_EVAL)
      else if to.None? then NullRead
      else
        var nameB := ConnName(ps, to.value, ev);
        if nameB.None? then Fail(TOP_E_EVAL)
        else Connect(ns, names, nameA.value, nameB.value)
  }

  /** The rest of graph_eval_and_add_edge once both names are evaluated. */
  function Connect(ns: seq<Node>, names: seq<string>, nameA: string, nameB: string): (r: Out)
    requires Store(ns) && |names| >= 1
    ensures r.Ok? ==> Store(r.ns) && Extends(ns, r.ns)
    ensures r.Fail? ==> r.code == TOP_E_CONN
    ensures !r.OutOfFuel?
  {
    var a := IndexOf(ns, FullName(names, nameA, -1));
    var b := IndexOf(ns, FullName(names, nameB, -1));
    if a < 0 || b < 0 then Fail(TOP_E_CONN)
    else
      var (ns1, x) := Endpoint(ns, names, a, nameA);
      var (ns2, y) := Endpoint(ns1, names, b, nameB);
      if !EdgeIdsValid(|ns2|, x, y) then Fail(TOP_E_CONN)
      else
        WithEdgeFacts(ns2, x, y, None);
        WithEdgeShape(ns2, x, y, None);
        ExtendsTrans(ns, ns1, ns2);
        ExtendsTrans(ns, ns2, WithEdge(ns2, x, y, None));
        Ok(WithEdge(ns2, x, y, None))
  }

  /** The two strings graph_eval_and_add_edge reads as endpoints, through connection_plain_t's layout. */
  function Ends(c: Connection): (Option<string>, Option<string>)
    requires c.Link? || c.AllMatch? || c.Series?
  {
    match c
    case Link(from, to, _) => (from, to)
    case AllMatch(nodes, attributes) => (nodes, attributes)
    case Series(_, seriesVar, start, _, _, _) => (seriesVar, start)
  }

  /**
   * traverse_and_add_conns: a loop evaluates its start, then its end
   * (TOP_E_LOOP when start > end) and runs its body for j in [start, end)
   * with the loop variable bound to j; a conditional takes its
   * then-branch when the condition rounds to nonzero, else its
   * else-branch if present (only the else-branch is tested for NULL);
   * every other kind adds one connection.
   */
  function Traverse(c: Connection, ns: seq<Node>, names: seq<string>, ps: seq<Param>, ev: Evaluator): (r: Out)
    requires Store(ns) && |names| >= 1
    ensures r.Ok? ==> Store(r.ns) && Extends(ns, r.ns)
    ensures r.Fail? ==> ExpansionError(r.code)
    ensures !r.OutOfFuel?
    decreases c, 2, 0
  {
    match c
    case Loop(loopVar, start, end, body) =>
      if start.None? then NullRead
      else
        var s := EvalInt(ps, start.value, ev);
        if s.None? then Fail(TOP_E_EVAL)
        else if end.None? then NullRead
        else
          var e := EvalInt(ps, end.value, ev);
          if e.None? then Fail(TOP_E_EVAL)
          else if s.value > e.value then Fail(TOP_E_LOOP)
          else LoopFrom(c, s.value, e.value, ns, names, ps, ev)
    case ConnectionCond(condition, connThen, connElse) =>
      if condition.None? then NullRead
      else
        var v := EvalInt(ps, condition.value, ev);
        if v.None? then Fail(TOP_E_EVAL)
        else if v.value != 0 then (if connThen.None? then NullRead else Traverse(connThen.value, ns, names, ps, ev))
        else if connElse.Some? then Traverse(connElse.value, ns, names, ps, ev)
        else Ok(ns)
    case _ =>
      AddConnection(ns, names, ps, Ends(c).0, Ends(c).1, ev)
  }

  /** The iterations j, j+1, ..., end-1 of a connection loop, each with the loop variable pushed. */
  function LoopFrom(c: Connection, j: int, end: int, ns: seq<Node>, names: seq<string>, ps: seq<Param>, ev: Evaluator): (r: Out)
    requires c.Loop? && Store(ns) && |names| >= 1
    ensures r.Ok? ==> Store(r.ns) && Extends(ns, r.ns)
    ensures r.Fail? ==> ExpansionError(r.code)
    ensures !r.OutOfFuel?
    decreases c, 1, end - j
  {
    if j >= end then Ok(ns)
    else
      var r := Turn(c, j, ns, names, ps, ev);
      if !r.Ok? then r
      else
        var rest := LoopFrom(c, j + 1, end, r.ns, names, ps, ev);
        if rest.Ok? then ExtendsTrans(ns, r.ns, rest.ns); rest else rest
  }

  /** One turn of a connection loop: the body with the loop variable bound to j; both pointers are read untested. */
  function Turn(c: Connection, j: int, ns: seq<Node>, names: seq<string>, ps: seq<Param>, ev: Evaluator): (r: Out)
    requires c.Loop? && Store(ns) && |names| >= 1
    ensures r.Ok? ==> Store(r.ns) && Extends(ns, r.ns)
    ensures r.Fail? ==> ExpansionError(r.code)
    ensures !r.OutOfFuel?
    decreases c, 0, 0
  {
    if c.loopVar.None? || c.body.None? then NullRead
    else Traverse(c.body.value, ns, names, ps + [Param(c.loopVar.value, Some(j as real))], ev)
  }

  /** A module's connections i.., in order, up to the first failure. */
  function ConnectionsFrom(conns: seq<Option<Connection>>, i: nat, ns: seq<Node>, names: seq<string>, ps: seq<Param>, ev: Evaluator): (r: Out)
    requires i <= |conns| && Store(ns) && |names| >= 1
    ensures r.Ok? ==> Store(r.ns) && Extends(ns, r.ns)
    ensures r.Fail? ==> ExpansionError(r.code)
    ensures !r.OutOfFuel?
    decreases |conns| - i
  {
    if i == |conns| then Ok(ns)
    else if conns[i].None? then NullRead
    else
      var r := Traverse(conns[i].value, ns, names, ps, ev);
      if !r.Ok? then r
      else
        var rest := ConnectionsFrom(conns, i + 1, r.ns, names, ps, ev);
        if rest.Ok? then ExtendsTrans(ns, r.ns, rest.ns); rest else rest
  }

  // ----- gates -----

  /**
   * One gate copy: the vertex `<scope>.<gate>` (`[j]` appended for j >= 0)
   * and, in a simple module, its edge by name to the module's vertex.
   */
  function GateOps(names: seq<string>, owner: Option<string>, gate: string, j: int): seq<Op>
    requires |names| >= 1
  {
    [NewVertex(FullName(names, gate, j), NodeGate, None)] +
    (if owner.Some? then [NewEdge(FullName(names, gate, j), owner.value, None)] else [])
  }

  /** Copies j..size-1. */
  function CopiesFrom(names: seq<string>, owner: Option<string>, gate: string, j: int, size: int): seq<Op>
    requires |names| >= 1
    decreases size - j
  {
    if j >= size then [] else GateOps(names, owner, gate, j) + CopiesFrom(names, owner, gate, j + 1, size)
  }

  /** A gate of evaluated size: one unindexed copy for 0, copies 0..size-1 otherwise (none when negative). */
  function GateCopies(names: seq<string>, owner: Option<string>, gate: string, size: int): seq<Op>
    requires |names| >= 1
  {
    if size == 0 then GateOps(names, owner, gate, -1) else CopiesFrom(names, owner, gate, 0, size)
  }

  /** The name of a gate; only read when the gate makes a copy. */
  function GateName(g: Gate): string
  {
    if g.name.Some? then g.name.value else ""
  }

  /**
   * Gates i.. of a module; owner is the simple module's vertex name, None
   * in a compound module.  The size is evaluated untested; the name is
   * read only when the size makes at least one copy (size >= 0).
   */
  function GatesFrom(gates: seq<Gate>, i: nat, ns: seq<Node>, names: seq<string>, owner: Option<string>, ps: seq<Param>, ev: Evaluator): (r: Out)
    requires i <= |gates| && Store(ns) && |names| >= 1
    ensures r.Ok? ==> Store(r.ns) && Extends(ns, r.ns)
    ensures r.Fail? ==> ExpansionError(r.code)
    ensures !r.OutOfFuel?
    decreases |gates| - i
  {
    if i == |gates| then Ok(ns)
    else if gates[i].size.None? then NullRead
    else
      var size := EvalInt(ps, gates[i].size.value, ev);
      if size.None? then Fail(TOP_E_EVAL)
      else if gates[i].name.None? && size.value >= 0 then NullRead
      else
        var ops := GateCopies(names, owner, GateName(gates[i]), size.value);
        var b := Run(ns, ops);
        if b.code != 0 then Fail(b.code)
        else
          var rest := GatesFrom(gates, i + 1, b.ns, names, owner, ps, ev);
          RunExtends(ns, ops);
          if rest.Ok? then ExtendsTrans(ns, b.ns, rest.ns); rest else rest
  }

  // ----- products -----

  /**
   * graphs_product: the vertices and the Cartesian edges of
   * src/products.c, through the three-argument graph calls (no
   * attributes), into an empty graph.
   */
  function GraphsProduct(a: seq<Node>, b: seq<Node>): (r: Built)
    requires Products.Operands(a, b)
    ensures Store(r.ns)
  {
    var v := Run([], Products.PassOps(a, b, Products.Vertices, false));
    if v.code != 0 then v else Run(v.ns, Products.PassOps(a, b, Products.CartEdges, false))
  }

  /** The name graph_insert prints for a product vertex: `<scope>.<name>`. */
  function Scoped(scope: string, name: string): string
  {
    scope + "." + name
  }

  /** graph_insert's first loop: every product vertex under its scoped name, with its type. */
  function InsertVertexOps(prod: seq<Node>, scope: string): (r: seq<Op>)
    ensures |r| == |prod|
    ensures forall i :: 0 <= i < |prod| ==> r[i] == NewVertex(Scoped(scope, prod[i].name), prod[i].typ, None)
  {
    seq(|prod|, i requires 0 <= i < |prod| => NewVertex(Scoped(scope, prod[i].name), prod[i].typ, None))
  }

  /** The edge calls for product vertex i: one per adjacency entry whose index is at most i. */
  function InsertRowOps(prod: seq<Node>, scope: string, i: int): seq<seq<Op>>
    requires WellFormed(prod) && 0 <= i < |prod|
  {
    seq(|prod[i].adj|, k requires 0 <= k < |prod[i].adj| =>
      var t := prod[i].adj[k].n;
      if i < t then [] else [NewEdge(Scoped(scope, prod[i].name), Scoped(scope, prod[t].name), None)])
  }

  function InsertEdgeOps(prod: seq<Node>, scope: string): seq<Op>
    requires WellFormed(prod)
  {
    Products.Flatten(seq(|prod|, i requires 0 <= i < |prod| => Products.Flatten(InsertRowOps(prod, scope, i))))
  }

  /** graph_insert: the vertex loop, then the edge loop. */
  function InsertOps(prod: seq<Node>, scope: string): seq<Op>
    requires WellFormed(prod)
  {
    InsertVertexOps(prod, scope) + InsertEdgeOps(prod, scope)
  }

  /** graphs_product of two operands, inserted by graph_insert under the scope `names`. */
  function ProductInto(ns: seq<Node>, names: seq<string>, a: seq<Node>, b: seq<Node>): (r: Out)
    requires Store(ns) && |names| >= 1 && Store(a) && Store(b)
    ensures r.Ok? ==> Store(r.ns) && Extends(ns, r.ns)
    ensures r.Fail? ==> r.code == TOP_E_CONN
    ensures !r.OutOfFuel?
  {
    var prod := GraphsProduct(a, b);
    if prod.code != 0 then Fail(prod.code)
    else
      var ins := Run(ns, InsertOps(prod.ns, Join(names)));
      RunExtends(ns, InsertOps(prod.ns, Join(names)));
      if ins.code != 0 then Fail(ins.code) else Ok(ins.ns)
  }

  // ----- modules -----

  /**
   * expand_module: pushes the module's parameters (TOP_E_EVAL when one
   * does not evaluate), then builds a simple or a compound module in the
   * scope `names`.
   */
  function ExpandModule(d: Definition, m: Module, ns: seq<Node>, names: seq<string>, ps: seq<Param>, ev: Evaluator, fuel: nat): (r: Out)
    requires Store(ns) && |names| >= 1
    ensures r.Ok? ==> Store(r.ns) && Grows(ns, r.ns)
    ensures r.Fail? ==> ExpansionError(r.code)
    decreases fuel, 5, 0, 0, 0
  {
    var pushed := Pushed(ps, Params(m.params), ev);
    if pushed.None? then Fail(TOP_E_EVAL)
    else ModuleBody(d, m, ns, names, pushed.value, ev, fuel)
  }

  /** What expand_module builds between pushing and popping the parameters. */
  function ModuleBody(d: Definition, m: Module, ns: seq<Node>, names: seq<string>, ps: seq<Param>, ev: Evaluator, fuel: nat): (r: Out)
    requires Store(ns) && |names| >= 1
    ensures r.Ok? ==> Store(r.ns) && Grows(ns, r.ns)
    ensures r.Fail? ==> ExpansionError(r.code)
    decreases fuel, 4, 0, 0, 0
  {
    if m.typ == Simple then SimpleModule(m, ns, names, ps, ev)
    else CompoundModule(d, m, ns, names, ps, ev, fuel)
  }

  /**
   * A simple module: the entity vertex `<scope>`, the module's attributes
   * (read untested) copied into the first vertex of that name, then each
   * gate joined to that name.
   */
  function SimpleModule(m: Module, ns: seq<Node>, names: seq<string>, ps: seq<Param>, ev: Evaluator): (r: Out)
    requires m.typ == Simple && Store(ns) && |names| >= 1
    ensures r.Ok? ==> Store(r.ns) && Grows(ns, r.ns)
    ensures r.Fail? ==> ExpansionError(r.code)
    ensures !r.OutOfFuel?
  {
    if m.attributes.None? then NullRead
    else
      var self := Join(names);
      var ns1 := Step(ns, NewVertex(self, NodeNode, None)).ns;
      assert ns1[|ns|].name == self;
      var ns2 := SetAttributes(ns1, IndexOf(ns1, self), m.attributes);
      SetAttributesKeeps(ns1, IndexOf(ns1, self), m.attributes);
      StepExtends(ns, NewVertex(self, NodeNode, None));
      var r := GatesFrom(Gates(m), 0, ns2, names, Some(self), ps, ev);
      if r.Ok? then GrowsTrans(ns, ns2, r.ns); r else r
  }

  /** A compound module: its gate vertices, its submodules, its connections. */
  function CompoundModule(d: Definition, m: Module, ns: seq<Node>, names: seq<string>, ps: seq<Param>, ev: Evaluator, fuel: nat): (r: Out)
    requires Store(ns) && |names| >= 1
    ensures r.Ok? ==> Store(r.ns) && Grows(ns, r.ns)
    ensures r.Fail? ==> ExpansionError(r.code)
    decreases fuel, 3, 0, 0, 0
  {
    var g := GatesFrom(Gates(m), 0, ns, names, None, ps, ev);
    if !g.Ok? then g
    else
      var s := SubmodulesFrom(d, Subs(m), 0, g.ns, names, ps, ev, fuel);
      if !s.Ok? then s
      else
        var c := ConnectionsFrom(Conns(m), 0, s.ns, names, ps, ev);
        if c.Ok? then GrowsTrans(ns, g.ns, s.ns); GrowsTrans(ns, s.ns, c.ns); c else c
  }

  /** A compound module's submodules i.., in order. */
  function SubmodulesFrom(d: Definition, subs: seq<Option<Submodule>>, i: nat, ns: seq<Node>, names: seq<string>, ps: seq<Param>, ev: Evaluator, fuel: nat): (r: Out)
    requires i <= |subs| && Store(ns) && |names| >= 1
    ensures r.Ok? ==> Store(r.ns) && Grows(ns, r.ns)
    ensures r.Fail? ==> ExpansionError(r.code)
    decreases fuel, 2, |subs| - i, 0, 0
  {
    if i == |subs| then Ok(ns)
    else if subs[i].None? then NullRead
    else
      var r := AddSubmodule(d, subs[i].value, ns, names, ps, ev, fuel);
      if !r.Ok? then r
      else
        var rest := SubmodulesFrom(d, subs, i + 1, r.ns, names, ps, ev, fuel);
        if rest.Ok? then GrowsTrans(ns, r.ns, rest.ns); rest else rest
  }

  /**
   * add_submodule.  An instance pushes its parameters, evaluates its size
   * (0 when absent) and expands its module once per index 0..size-1, or
   * once unindexed when the size is not positive.  A product expands both
   * operands into fresh graphs in the scope [""], compacts each, builds
   * graphs_product of the two whatever its kind, and inserts the result
   * under the current scope.  A conditional picks a branch as connections
   * do, testing only its else-branch for NULL.
   */
  function AddSubmodule(d: Definition, sm: Submodule, ns: seq<Node>, names: seq<string>, ps: seq<Param>, ev: Evaluator, fuel: nat): (r: Out)
    requires Store(ns) && |names| >= 1
    ensures r.Ok? ==> Store(r.ns) && Grows(ns, r.ns)
    ensures r.Fail? ==> ExpansionError(r.code)
    decreases fuel, 1, SubmoduleSize(sm), 2, 0
  {
    match sm
    case Instance(_, _, size, params) =>
      var pushed := Pushed(ps, Params(params), ev);
      if pushed.None? then Fail(TOP_E_EVAL)
      else
        var count := if size.None? then Some(0) else EvalInt(pushed.value, size.value, ev);
        if count.None? then Fail(TOP_E_EVAL)
        else Copies(d, sm, count.value, ns, names, pushed.value, ev, fuel)
    case Product(a, b, _, _) =>
      var ca := Operand(d, a, ps, ev, fuel);
      if !ca.Ok? then ca
      else
        var cb := Operand(d, b, ps, ev, fuel);
        if !cb.Ok? then cb
        else ProductInto(ns, names, ca.ns, cb.ns)
    case SubmoduleCond(condition, subThen, subElse) =>
      if condition.None? then NullRead
      else
        var v := EvalInt(ps, condition.value, ev);
        if v.None? then Fail(TOP_E_EVAL)
        else if v.value != 0 then (if subThen.None? then NullRead else AddSubmodule(d, subThen.value, ns, names, ps, ev, fuel))
        else if subElse.Some? then AddSubmodule(d, subElse.value, ns, names, ps, ev, fuel)
        else Ok(ns)
  }

  /**
   * One operand of a product: expanded into an empty graph in the scope
   * [""], then compacted; the compacted graph is kept whatever the status
   * of the compaction.
   */
  function Operand(d: Definition, sm: Submodule, ps: seq<Param>, ev: Evaluator, fuel: nat): (r: Out)
    ensures r.Ok? ==> Store(r.ns)
    ensures r.Fail? ==> ExpansionError(r.code)
    decreases fuel, 1, SubmoduleSize(sm), 3, 0
  {
    var r := AddSubmodule(d, sm, [], [""], ps, ev, fuel);
    if r.Ok? then Ok(Compaction.Compact(r.ns).ns) else r
  }

  /** The copies of an instance: indices 0..count-1 when count is positive, else one unindexed copy. */
  function Copies(d: Definition, sm: Submodule, count: int, ns: seq<Node>, names: seq<string>, ps: seq<Param>, ev: Evaluator, fuel: nat): (r: Out)
    requires sm.Instance? && Store(ns) && |names| >= 1
    ensures r.Ok? ==> Store(r.ns) && Grows(ns, r.ns)
    ensures r.Fail? ==> ExpansionError(r.code)
    decreases fuel, 1, SubmoduleSize(sm), 1, 0
  {
    if count > 0 then InstancesFrom(d, sm, 0, count, ns, names, ps, ev, fuel)
    else EnterAndExpand(d, sm, -1, ns, names, ps, ev, fuel)
  }

  /** Instances j..count-1 of a submodule, each in the scope `name[j]`. */
  function InstancesFrom(d: Definition, sm: Submodule, j: int, count: int, ns: seq<Node>, names: seq<string>, ps: seq<Param>, ev: Evaluator, fuel: nat): (r: Out)
    requires sm.Instance? && Store(ns) && |names| >= 1
    ensures r.Ok? ==> Store(r.ns) && Grows(ns, r.ns)
    ensures r.Fail? ==> ExpansionError(r.code)
    decreases fuel, 1, SubmoduleSize(sm), 0, count - j
  {
    if j >= count then Ok(ns)
    else
      var r := EnterAndExpand(d, sm, j, ns, names, ps, ev, fuel);
      if !r.Ok? then r
      else
        var rest := InstancesFrom(d, sm, j + 1, count, r.ns, names, ps, ev, fuel);
        if rest.Ok? then GrowsTrans(ns, r.ns, rest.ns); rest else rest
  }

  /**
   * enter_and_expand_module: enters the scope `name` (`name[j]` for
   * j >= 0), finds the module (TOP_E_NOMOD when it is missing) and
   * expands it there.  The instance's name, its module name and the
   * module names find_module compares are read untested.
   */
  function EnterAndExpand(d: Definition, sm: Submodule, j: int, ns: seq<Node>, names: seq<string>, ps: seq<Param>, ev: Evaluator, fuel: nat): (r: Out)
    requires sm.Instance? && Store(ns) && |names| >= 1
    ensures r.Ok? ==> Store(r.ns) && Grows(ns, r.ns)
    ensures r.Fail? ==> ExpansionError(r.code)
    decreases fuel, 0, 0, 0, 0
  {
    if sm.name.None? || sm.moduleName.None? then NullRead
    else
      match ModuleLookup(d.modules, sm.moduleName.value, 0)
      case Unnamed => NullRead
      case Missing => Fail(TOP_E_NOMOD)
      case Found(k) =>
        if fuel == 0 then OutOfFuel
        else ExpandModule(d, d.modules[k], ns, names + [Segment(sm.name.value, j)], ps, ev, fuel - 1)
  }

  /**
   * topologies_definition_to_graph: TOP_E_NONET without a network block,
   * TOP_E_NOMOD when its module is missing, otherwise that module
   * expanded into an empty graph in the scope "network" with the
   * network's parameters pushed.  The network's module name is read
   * untested.
   */
  function DefinitionToGraph(d: Definition, ev: Evaluator, fuel: nat): (r: Out)
    ensures r.Ok? ==> Store(r.ns)
    ensures r == Fail(TOP_E_NONET) <==> d.network.None?
    ensures d.network.Some? && d.network.value.moduleName.None? ==> r == NullRead
    ensures d.network.Some? && d.network.value.moduleName.Some? ==>
      var look := ModuleLookup(d.modules, d.network.value.moduleName.value, 0);
      (look.Missing? ==> r == Fail(TOP_E_NOMOD)) && (look.Unnamed? ==> r == NullRead)
  {
    if d.network.None? then Fail(TOP_E_NONET)
    else if d.network.value.moduleName.None? then NullRead
    else
      match ModuleLookup(d.modules, d.network.value.moduleName.value, 0)
      case Unnamed => NullRead
      case Missing => Fail(TOP_E_NOMOD)
      case Found(k) =>
        var pushed := Pushed([], Params(d.network.value.params), ev);
        if pushed.None? then Fail(TOP_E_EVAL)
        else ExpandModule(d, d.modules[k], [], ["network"], pushed.value, ev, fuel)
  }
}
