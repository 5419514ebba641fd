/**
 * json_deserialize of src/parser.c: the state machine that walks the
 * top-level array of a description, appends one module per "module" or
 * "simplemodule" entry to the definition and fills its network from the
 * "network" entry, handing submodules, connections and replacements to
 * the sub-parsers of module Parser.
 *
 * Step says what one pass of the source's do-while loop does to its local
 * variables and to the definition (Config); Run iterates it while tokens
 * remain.  Class Definition holds network_definition_t, and its method
 * Deserialize is the loop itself, proved to end where Run ends.
 */
module Deserializer {
  import opened Basics
  import opened Errors
  import opened Defs
  import opened Tokens
  import opened Parser

  /** json_deserialize's local variables, with the modules, their count and the network of the definition. */
  datatype Config = Config(
    state: State, i: int,
    mN: int, mI: int, arrI: int, arrN: int, objI: int, objN: int, subobjI: int, subobjN: int,
    modules: seq<Module>, nModules: int, network: Option<Network>)

  /** One pass of the loop: it goes on with new locals, or it returns bad_token's report. */
  datatype Outcome = Running(c: Config) | Stopped(at: int, state: State)

  /** How the whole description ends: every token consumed, or refused at a token. */
  datatype Verdict = Accepted(c: Config) | Refused(at: int, state: State)

  /** The states in which m[m_i] is the module being read. */
  predicate ModuleState(s: State)
  {
    s == InModule || s == ModuleParams || s == SubmodulesBetween || s == InSubmodule
    || s == ConnectionsBetween || s == InConnection || s == GatesBetween || s == InGate
    || s == ReplaceBetween || s == InReplace
  }

  /** The states in which the network entry is being read. */
  predicate NetworkState(s: State)
  {
    s == InNetwork || s == NetworkParams
  }

  /** An array allocated for n > 0 entries holds n of them. */
  predicate Slots<T>(a: Option<seq<T>>, n: int)
  {
    n > 0 ==> a.Some? && |a.value| == n
  }

  /** A *_BETWEEN state walks slot arrI of an array of arrN slots. */
  predicate Walking<T>(a: Option<seq<T>>, arrI: int, arrN: int)
  {
    0 <= arrI <= arrN && Slots(a, arrN)
  }

  /** calloc of n entries for n > 0, each entry zero; the source leaves the pointer NULL for n = 0. */
  function Zeroed<T>(n: int, zero: T): (r: Option<seq<T>>)
    ensures r.Some? <==> n > 0
    ensures r.Some? ==> |r.value| == n && forall x :: x in r.value ==> x == zero
  {
    if n > 0 then Some(seq(n, _ => zero)) else None
  }

  /** What every pass of the loop relies on: the current module and array slot exist. */
  predicate Sane(j: Json, c: Config)
    requires Tokenized(j)
  {
    0 <= c.i && -1 <= c.mI
    && (ModuleState(c.state) ==> 0 <= c.mI < |c.modules|)
    && match c.state
       case Start | Between | InModule | ModuleParams => true
       case SubmoduleParams => false
       case InNetwork | NetworkParams => c.network.Some?
       case SubmodulesBetween => Walking(c.modules[c.mI].submodules, c.arrI, c.arrN)
       case ConnectionsBetween => Walking(c.modules[c.mI].connections, c.arrI, c.arrN)
       case ReplaceBetween => Walking(c.modules[c.mI].replace, c.arrI, c.arrN)
       case GatesBetween => Walking(c.modules[c.mI].gates, c.arrI, c.arrN)
       case InSubmodule =>
         Walking(c.modules[c.mI].submodules, c.arrI, c.arrN) && c.arrI < c.arrN && Tok(j, c.i).typ == Object
       case InConnection =>
         Walking(c.modules[c.mI].connections, c.arrI, c.arrN) && c.arrI < c.arrN && Tok(j, c.i).typ == Object
       case InReplace =>
         Walking(c.modules[c.mI].replace, c.arrI, c.arrN) && c.arrI < c.arrN && Tok(j, c.i).typ == Object
       case InGate => Walking(c.modules[c.mI].gates, c.arrI, c.arrN) && c.arrI < c.arrN
  }

  /** Among passes that do not advance i, each moves to a state of lower rank. */
  function Rank(s: State): nat
  {
    match s
    case InGate => 3
    case SubmodulesBetween | ConnectionsBetween | ReplaceBetween | GatesBetween => 2
    case InModule | InNetwork => 1
    case _ => 0
  }

  predicate Progress(c: Config, d: Config)
  {
    d.i > c.i || (d.i == c.i && Rank(d.state) < Rank(c.state))
  }

  // ---------------------------------------------------------------- one pass per state

  /**
   * STATE_START: the description must be an array; its entries reserve
   * that many zeroed module slots after the definition's modules.
   */
  function StepStart(j: Json, c: Config): (o: Outcome)
    requires Tokenized(j) && 0 <= c.i && -1 <= c.nModules - 1 && c.nModules <= |c.modules|
    ensures Tok(j, c.i).typ != Array <==> o == Stopped(c.i, Start)
    ensures o.Running? ==> (Sane(j, o.c) && o.c.state == Between && o.c.i == c.i + 1
      && o.c.modules == c.modules[..c.nModules] + ZeroModules(Tok(j, c.i).size)
      && o.c.nModules == |o.c.modules| && o.c.mI == c.nModules - 1
      && o.c.network == c.network)
  {
    var t := Tok(j, c.i);
    if t.typ != Array then Stopped(c.i, Start)
    else
      Running(c.(state := Between, i := c.i + 1, mN := t.size, mI := c.nModules - 1,
                 modules := c.modules[..c.nModules] + ZeroModules(t.size),
                 nModules := c.nModules + t.size))
  }

  /**
   * STATE_BETWEEN: each entry is an object of one key.  "module" and
   * "simplemodule" start the next reserved module slot, "network" the
   * definition's only network (which takes back its reserved slot).  A
   * module entry beyond the reserved slots is refused at its key (see
   * ModuleSlotAsWritten for the source).
   */
  function StepBetween(j: Json, c: Config): (o: Outcome)
    requires Tokenized(j) && Sane(j, c) && c.state == Between
    ensures o.Running? ==> Sane(j, o.c) && Progress(c, o.c) && o.c.state != Start
  {
    var t := Tok(j, c.i);
    if t.typ != Object || t.size != 1 then Stopped(c.i, Between)
    else if Key(j, c.i + 1, "module") || Key(j, c.i + 1, "simplemodule") then
      var mI := c.mI + 1;
      if mI >= |c.modules| then Stopped(c.i + 1, Between)
      else
        var typ := if Key(j, c.i + 1, "module") then Compound else Simple;
        var at := c.i + 2;
        if Tok(j, at).typ != Object then Stopped(at, InModule)
        else Running(c.(state := InModule, mI := mI, modules := c.modules[mI := c.modules[mI].(typ := typ)],
                        objN := Tok(j, at).size, objI := 0, i := at + 1))
    else if Key(j, c.i + 1, "network") then
      var at := c.i + 2;
      if Tok(j, at).typ != Object || c.network.Some? then Stopped(at, InNetwork)
      else Running(c.(state := InNetwork, nModules := c.nModules - 1, mN := c.mN - 1,
                      network := Some(Network(None, None)), objN := Tok(j, at).size, objI := 0, i := at + 1))
    else Stopped(c.i + 1, Between)
  }

  /**
   * STATE_MODULE: the keys of a module object.  name, and attributes in
   * a simple module, take a string once; params, submodules, replace,
   * connections and gates take an array, each but params once.
   */
  function StepModule(j: Json, c: Config): (o: Outcome)
    requires Tokenized(j) && Sane(j, c) && c.state == InModule
    ensures o.Running? ==> Sane(j, o.c) && Progress(c, o.c) && o.c.state != Start
  {
    if c.objI == c.objN then Running(c.(state := Between))
    else
      var at := c.i;
      var arr := at + 1;
      if Key(j, at, "name") || (Key(j, at, "attributes") && c.modules[c.mI].typ == Simple) then
        StepModuleString(j, c)
      else if Key(j, at, "params") then
        if Tok(j, arr).typ != Array then Stopped(arr, InModule)
        else Running(c.(objI := c.objI + 1, i := arr, state := ModuleParams))
      else if Key(j, at, "submodules") || Key(j, at, "replace") || Key(j, at, "connections") || Key(j, at, "gates") then
        StepModuleArray(j, c)
      else Stopped(at, InModule)
  }

  /**
   * The string keys of STATE_MODULE: name, and attributes in a simple
   * module, each take a string once.
   */
  function StepModuleString(j: Json, c: Config): (o: Outcome)
    requires Tokenized(j) && Sane(j, c) && c.state == InModule
    requires Key(j, c.i, "name") || (Key(j, c.i, "attributes") && c.modules[c.mI].typ == Simple)
    ensures o.Running? ==> Sane(j, o.c) && o.c.i == c.i + 2 && o.c.state == InModule
  {
    var m := c.modules[c.mI];
    var arr := c.i + 1;
    var named := Key(j, c.i, "name");
    if (if named then m.name.Some? else m.attributes.Some?) || Tok(j, arr).typ != String then Stopped(arr, InModule)
    else
      var value := Some(Copy(j, arr));
      Running(c.(modules := c.modules[c.mI := if named then m.(name := value) else m.(attributes := value)],
                 objI := c.objI + 1, i := c.i + 2))
  }

  /**
   * The array keys of STATE_MODULE: submodules, replace, connections and
   * gates each take an array once, allocated zeroed when it is not empty,
   * and the matching *_BETWEEN state walks it.
   */
  function StepModuleArray(j: Json, c: Config): (o: Outcome)
    requires Tokenized(j) && Sane(j, c) && c.state == InModule
    ensures o.Running? ==> Sane(j, o.c) && o.c.i == c.i + 2 && o.c.state != Start
  {
    var m := c.modules[c.mI];
    var at := c.i;
    var arr := at + 1;
    var n := Tok(j, arr).size;
    if Tok(j, arr).typ != Array then Stopped(arr, InModule)
    else if Key(j, at, "submodules") then
      if m.submodules.Some? then Stopped(arr, InModule)
      else Running(c.(objI := c.objI + 1, arrN := n, arrI := 0, i := arr + 1, state := SubmodulesBetween,
                      modules := c.modules[c.mI := m.(submodules := Zeroed(n, None))]))
    else if Key(j, at, "replace") then
      if m.replace.Some? then Stopped(arr, InModule)
      else Running(c.(objI := c.objI + 1, arrN := n, arrI := 0, i := arr + 1, state := ReplaceBetween,
                      modules := c.modules[c.mI := m.(replace := Zeroed(n, Replace(None, None)))]))
    else if Key(j, at, "connections") then
      if m.connections.Some? then Stopped(arr, InModule)
      else Running(c.(objI := c.objI + 1, arrN := n, arrI := 0, i := arr + 1, state := ConnectionsBetween,
                      modules := c.modules[c.mI := m.(connections := Zeroed(n, None))]))
    else if m.gates.Some? then Stopped(arr, InModule)
    else Running(c.(objI := c.objI + 1, arrN := n, arrI := 0, i := arr + 1, state := GatesBetween,
                    modules := c.modules[c.mI := m.(gates := Zeroed(n, Gate(None, None)))]))
  }

  /**
   * STATE_MODULE_PARAMS: the module's params array, read once; an empty
   * array leaves the params unset.
   */
  function StepModuleParams(j: Json, c: Config): (o: Outcome)
    requires Tokenized(j) && Sane(j, c) && c.state == ModuleParams
    ensures o.Running? ==> Sane(j, o.c) && Progress(c, o.c) && o.c.state != Start
  {
    var m := c.modules[c.mI];
    var n := Tok(j, c.i).size;
    if m.params.Some? then Stopped(c.i, ModuleParams)
    else match ParamEntries(j, c.i, 0, n, [], ModuleParams)
      case Bad(b, st) => Stopped(b, st)
      case Parsed(ps, last) =>
        Running(c.(arrN := n, arrI := n, i := last + 1, state := InModule,
                   modules := c.modules[c.mI := m.(params := if n > 0 then Some(ps) else None)]))
  }

  /** The state that reads one entry of the array a *_BETWEEN state walks. */
  function EntryState(s: State): State
  {
    match s
    case SubmodulesBetween => InSubmodule
    case ConnectionsBetween => InConnection
    case _ => InReplace
  }

  /**
   * STATE_MODULE_SUBMODULES_BETWEEN, _CONNECTIONS_BETWEEN and
   * _REPLACE_BETWEEN: back to the module after the last entry, otherwise
   * the next entry must be an object.
   */
  function StepArrayBetween(j: Json, c: Config): (o: Outcome)
    requires Tokenized(j) && Sane(j, c)
    requires c.state == SubmodulesBetween || c.state == ConnectionsBetween || c.state == ReplaceBetween
    ensures o.Running? ==> Sane(j, o.c) && Progress(c, o.c) && o.c.state != Start
  {
    if c.arrI == c.arrN then Running(c.(state := InModule))
    else if Tok(j, c.i).typ != Object then Stopped(c.i, c.state)
    else Running(c.(state := EntryState(c.state)))
  }

  /** STATE_MODULE_SUBMODULE: parse_submodule fills the current slot. */
  function StepSubmodule(j: Json, c: Config): (o: Outcome)
    requires Tokenized(j) && Sane(j, c) && c.state == InSubmodule
    ensures o.Running? ==> Sane(j, o.c) && Progress(c, o.c) && o.c.state != Start
  {
    var m := c.modules[c.mI];
    match ParseSubmodule(j, c.i)
    case Bad(b, st) => Stopped(b, st)
    case Parsed(s, next) =>
      Running(c.(subobjI := 0, subobjN := Tok(j, c.i).size, i := next, arrI := c.arrI + 1,
                 state := SubmodulesBetween,
                 modules := c.modules[c.mI := m.(submodules := Some(m.submodules.value[c.arrI := Some(s)]))]))
  }

  /** STATE_MODULE_CONNECTION: parse_connection fills the current slot. */
  function StepConnection(j: Json, c: Config): (o: Outcome)
    requires Tokenized(j) && Sane(j, c) && c.state == InConnection
    ensures o.Running? ==> Sane(j, o.c) && Progress(c, o.c) && o.c.state != Start
  {
    var m := c.modules[c.mI];
    match ParseConnection(j, c.i)
    case Bad(b, st) => Stopped(b, st)
    case Parsed(x, next) =>
      Running(c.(subobjI := 0, subobjN := Tok(j, c.i).size, i := next, arrI := c.arrI + 1,
                 state := ConnectionsBetween,
                 modules := c.modules[c.mI := m.(connections := Some(m.connections.value[c.arrI := Some(x)]))]))
  }

  /** STATE_MODULE_REPLACE: parse_replace fills the current slot. */
  function StepReplace(j: Json, c: Config): (o: Outcome)
    requires Tokenized(j) && Sane(j, c) && c.state == InReplace
    ensures o.Running? ==> Sane(j, o.c) && Progress(c, o.c) && o.c.state != Start
  {
    var m := c.modules[c.mI];
    match ParseReplace(j, c.i)
    case Bad(b, st) => Stopped(b, st)
    case Parsed(x, next) =>
      Running(c.(subobjI := 0, subobjN := Tok(j, c.i).size, i := next, arrI := c.arrI + 1,
                 state := ReplaceBetween,
                 modules := c.modules[c.mI := m.(replace := Some(m.replace.value[c.arrI := x]))]))
  }

  /** STATE_MODULE_GATES_BETWEEN: back to the module after the last gate object, otherwise into the next one. */
  function StepGatesBetween(j: Json, c: Config): (o: Outcome)
    requires Tokenized(j) && Sane(j, c) && c.state == GatesBetween
    ensures o.Running? ==> Sane(j, o.c) && Progress(c, o.c) && o.c.state != Start
  {
    if c.arrI == c.arrN then Running(c.(state := InModule))
    else if Tok(j, c.i).typ != Object then Stopped(c.i, GatesBetween)
    else Running(c.(subobjI := 0, subobjN := Tok(j, c.i).size, state := InGate, i := c.i + 1))
  }

  /**
   * STATE_MODULE_GATE: each key of a gate object names the gate and its
   * value is the size; a later key overwrites an earlier one.
   */
  function StepGate(j: Json, c: Config): (o: Outcome)
    requires Tokenized(j) && Sane(j, c) && c.state == InGate
    ensures o.Running? ==> Sane(j, o.c) && Progress(c, o.c) && o.c.state != Start
  {
    if c.subobjI == c.subobjN then Running(c.(state := GatesBetween, arrI := c.arrI + 1))
    else
      var m := c.modules[c.mI];
      var g := Gate(Some(Copy(j, c.i)), Some(Copy(j, c.i + 1)));
      Running(c.(modules := c.modules[c.mI := m.(gates := Some(m.gates.value[c.arrI := g]))],
                 i := c.i + 2, subobjI := c.subobjI + 1))
  }

  /** STATE_NETWORK: the network's module name, once, and its params array. */
  function StepNetwork(j: Json, c: Config): (o: Outcome)
    requires Tokenized(j) && Sane(j, c) && c.state == InNetwork
    ensures o.Running? ==> Sane(j, o.c) && Progress(c, o.c) && o.c.state != Start
  {
    if c.objI == c.objN then Running(c.(state := Between))
    else
      var net := c.network.value;
      if Key(j, c.i, "module") then
        if net.moduleName.Some? then Stopped(c.i, InNetwork)
        else Running(c.(network := Some(net.(moduleName := Some(Copy(j, c.i + 1)))),
                        objI := c.objI + 1, i := c.i + 2))
      else if Key(j, c.i, "params") then
        if Tok(j, c.i + 1).typ != Array then Stopped(c.i + 1, InNetwork)
        else Running(c.(objI := c.objI + 1, i := c.i + 1, state := NetworkParams))
      else Stopped(c.i, InNetwork)
  }

  /** STATE_NETWORK_PARAMS: the network's params array, read once; an empty array leaves them unset. */
  function StepNetworkParams(j: Json, c: Config): (o: Outcome)
    requires Tokenized(j) && Sane(j, c) && c.state == NetworkParams
    ensures o.Running? ==> Sane(j, o.c) && Progress(c, o.c) && o.c.state != Start
  {
    var net := c.network.value;
    var n := Tok(j, c.i).size;
    if net.params.Some? then Stopped(c.i, NetworkParams)
    else match ParamEntries(j, c.i, 0, n, [], NetworkParams)
      case Bad(b, st) => Stopped(b, st)
      case Parsed(ps, last) =>
        Running(c.(arrN := n, arrI := n, i := last + 1, state := InNetwork,
                   network := Some(net.(params := if n > 0 then Some(ps) else None))))
  }

  /** One pass of the loop after the first, by state. */
  function Step(j: Json, c: Config): (o: Outcome)
    requires Tokenized(j) && Sane(j, c) && c.state != Start
    ensures o.Running? ==> Sane(j, o.c) && Progress(c, o.c) && o.c.state != Start
  {
    match c.state
    case Between => StepBetween(j, c)
    case InModule => StepModule(j, c)
    case ModuleParams => StepModuleParams(j, c)
    case SubmodulesBetween => StepArrayBetween(j, c)
    case ConnectionsBetween => StepArrayBetween(j, c)
    case ReplaceBetween => StepArrayBetween(j, c)
    case InSubmodule => StepSubmodule(j, c)
    case InConnection => StepConnection(j, c)
    case InReplace => StepReplace(j, c)
    case GatesBetween => StepGatesBetween(j, c)
    case InGate => StepGate(j, c)
    case InNetwork => StepNetwork(j, c)
    case NetworkParams => StepNetworkParams(j, c)
  }

  /** The loop from a pass that finds tokens left: until a refusal, or until i reaches the token count. */
  function Run(j: Json, c: Config): Verdict
    requires Tokenized(j) && Sane(j, c) && c.state != Start && c.i < |j.toks|
    decreases |j.toks| - c.i, Rank(c.state)
  {
    match Step(j, c)
    case Stopped(at, st) => Refused(at, st)
    case Running(d) => if d.i < |j.toks| then Run(j, d) else Accepted(d)
  }

  /** The locals as json_deserialize declares them, over the definition's modules and network. */
  function Initial(modules: seq<Module>, nModules: int, network: Option<Network>): Config
  {
    Config(Start, 0, 0, -1, 0, 0, 0, 0, 0, 0, modules, nModules, network)
  }

  /** json_deserialize: the first pass is STATE_START, whatever the token count. */
  function Deserialized(j: Json, modules: seq<Module>, nModules: int, network: Option<Network>): (v: Verdict)
    requires Tokenized(j) && 0 <= nModules <= |modules|
    ensures Tok(j, 0).typ != Array ==> v == Refused(0, Start)
  {
    match StepStart(j, Initial(modules, nModules, network))
    case Stopped(at, st) => Refused(at, st)
    case Running(d) => if d.i < |j.toks| then Run(j, d) else Accepted(d)
  }

  /**
   * The module slot the source's STATE_BETWEEN writes for a "module" or
   * "simplemodule" entry: m[m_i + 1], with no test against the slots
   * STATE_START reserved.  A slot at or past |c.modules| is a write past
   * the end of the realloc'd array; StepBetween refuses exactly those
   * entries at their key.
   */
  function ModuleSlotAsWritten(j: Json, c: Config): (slot: Option<int>)
    requires Tokenized(j) && Sane(j, c) && c.state == Between
    ensures slot.Some? && slot.value >= |c.modules| ==> StepBetween(j, c) == Stopped(c.i + 1, Between)
    ensures slot.Some? && slot.value < |c.modules| ==> StepBetween(j, c) != Stopped(c.i + 1, Between)
    ensures slot.None? ==> !StepBetween(j, c).Running? || StepBetween(j, c).c.state == InNetwork
  {
    var t := Tok(j, c.i);
    if t.typ == Object && t.size == 1 && (Key(j, c.i + 1, "module") || Key(j, c.i + 1, "simplemodule"))
    then Some(c.mI + 1)
    else None
  }

  // ---------------------------------------------------------------- what the passes keep

  /** Every submodule, replacement and connection stored in m is well shaped. */
  predicate ShapedModule(m: Module)
  {
    (m.submodules.Some? ==> forall s :: s in m.submodules.value && s.Some? ==> WellShaped(s.value))
    && (m.replace.Some? ==> forall r :: r in m.replace.value && r.submodule.Some? ==> WellShaped(r.submodule.value))
    && (m.connections.Some? ==> forall x :: x in m.connections.value && x.Some? ==> ConnectionShaped(x.value))
  }

  /**
   * What the passes after STATE_START keep of the definition they were
   * given (its modules, their count and its network) when the
   * description reserved `size` module slots: the earlier modules are
   * untouched, the new ones well shaped, a network already present is
   * kept, and the count covers every slot but the one a new network
   * took back.
   */
  predicate Keeps(modules: seq<Module>, nModules: nat, network: Option<Network>, size: int, c: Config)
    requires nModules <= |modules|
  {
    |c.modules| == nModules + size && nModules <= |c.modules|
    && c.modules[..nModules] == modules[..nModules]
    && nModules - 1 <= c.mI
    && (ModuleState(c.state) ==> nModules <= c.mI)
    && (forall k :: nModules <= k < |c.modules| ==> ShapedModule(c.modules[k]))
    && (network.Some? ==> c.network == network)
    && (NetworkState(c.state) ==> network.None?)
    && c.nModules == |c.modules| - (if network.None? && c.network.Some? then 1 else 0)
  }

  /** Replacing a module at or after nModules keeps the earlier ones. */
  lemma {:induction false} PrefixKept(ms: seq<Module>, k: int, m: Module, nModules: nat)
    requires nModules <= k < |ms|
    ensures ms[k := m][..nModules] == ms[..nModules]
  {
    assert forall t :: 0 <= t < nModules ==> ms[k := m][..nModules][t] == ms[..nModules][t];
  }

  /** A pass that writes module k, at or after nModules, with a well-shaped module keeps Keeps. */
  lemma ModuleWritten(c: Config, d: Config, k: int, m: Module,
                      modules: seq<Module>, nModules: nat, network: Option<Network>, size: int)
    requires nModules <= |modules| && Keeps(modules, nModules, network, size, c)
    requires nModules <= k < |c.modules| && d.modules == c.modules[k := m] && ShapedModule(m)
    requires d.network == c.network && d.nModules == c.nModules
    requires nModules - 1 <= d.mI && (ModuleState(d.state) ==> nModules <= d.mI)
    requires NetworkState(d.state) ==> network.None?
    ensures Keeps(modules, nModules, network, size, d)
  {
    PrefixKept(c.modules, k, m, nModules);
  }

  /** Storing a well-shaped submodule in a slot keeps the module well shaped. */
  lemma SubmoduleStored(m: Module, k: int, s: Submodule)
    requires ShapedModule(m) && m.submodules.Some? && 0 <= k < |m.submodules.value| && WellShaped(s)
    ensures ShapedModule(m.(submodules := Some(m.submodules.value[k := Some(s)])))
  {
    var ss := m.submodules.value[k := Some(s)];
    assert forall x :: x in ss ==> x in m.submodules.value || x == Some(s);
  }

  /** Storing a well-shaped connection in a slot keeps the module well shaped. */
  lemma ConnectionStored(m: Module, k: int, x: Connection)
    requires ShapedModule(m) && m.connections.Some? && 0 <= k < |m.connections.value| && ConnectionShaped(x)
    ensures ShapedModule(m.(connections := Some(m.connections.value[k := Some(x)])))
  {
    var xs := m.connections.value[k := Some(x)];
    assert forall y :: y in xs ==> y in m.connections.value || y == Some(x);
  }

  /** Storing a replacement whose submodule is well shaped keeps the module well shaped. */
  lemma ReplaceStored(m: Module, k: int, r: Replace)
    requires ShapedModule(m) && m.replace.Some? && 0 <= k < |m.replace.value|
    requires r.submodule.Some? ==> WellShaped(r.submodule.value)
    ensures ShapedModule(m.(replace := Some(m.replace.value[k := r])))
  {
    var rs := m.replace.value[k := r];
    assert forall y :: y in rs ==> y in m.replace.value || y == r;
  }

  /** A pass that changes only locals and keeps the module index in range keeps Keeps. */
  lemma LocalsWritten(c: Config, d: Config, modules: seq<Module>, nModules: nat, network: Option<Network>, size: int)
    requires nModules <= |modules| && Keeps(modules, nModules, network, size, c)
    requires d.modules == c.modules && d.network == c.network && d.nModules == c.nModules
    requires nModules - 1 <= d.mI && (ModuleState(d.state) ==> nModules <= d.mI)
    requires NetworkState(d.state) ==> network.None?
    ensures Keeps(modules, nModules, network, size, d)
  {
  }

  lemma BetweenKeeps(j: Json, c: Config, modules: seq<Module>, nModules: nat, network: Option<Network>, size: int)
    requires Tokenized(j) && Sane(j, c) && c.state == Between
    requires nModules <= |modules| && Keeps(modules, nModules, network, size, c)
    ensures StepBetween(j, c).Running? ==> Keeps(modules, nModules, network, size, StepBetween(j, c).c)
  {
    var o := StepBetween(j, c);
    if o.Running? && o.c.state == InModule {
      ModuleWritten(c, o.c, o.c.mI, o.c.modules[o.c.mI], modules, nModules, network, size);
    }
  }

  lemma ModuleKeeps(j: Json, c: Config, modules: seq<Module>, nModules: nat, network: Option<Network>, size: int)
    requires Tokenized(j) && Sane(j, c) && c.state == InModule
    requires nModules <= |modules| && Keeps(modules, nModules, network, size, c)
    ensures StepModule(j, c).Running? ==> Keeps(modules, nModules, network, size, StepModule(j, c).c)
  {
    var o := StepModule(j, c);
    var at := c.i;
    if c.objI != c.objN && !Key(j, at, "name") && !(Key(j, at, "attributes") && c.modules[c.mI].typ == Simple)
       && !Key(j, at, "params")
    {
      ModuleArrayKeeps(j, c, modules, nModules, network, size);
    } else if o.Running? && o.c.modules != c.modules {
      ModuleWritten(c, o.c, c.mI, o.c.modules[c.mI], modules, nModules, network, size);
    }
  }

  lemma ModuleArrayKeeps(j: Json, c: Config, modules: seq<Module>, nModules: nat, network: Option<Network>, size: int)
    requires Tokenized(j) && Sane(j, c) && c.state == InModule
    requires nModules <= |modules| && Keeps(modules, nModules, network, size, c)
    ensures StepModuleArray(j, c).Running? ==> Keeps(modules, nModules, network, size, StepModuleArray(j, c).c)
  {
    var o := StepModuleArray(j, c);
    if o.Running? {
      ModuleWritten(c, o.c, c.mI, o.c.modules[c.mI], modules, nModules, network, size);
    }
  }

  lemma ModuleParamsKeeps(j: Json, c: Config, modules: seq<Module>, nModules: nat, network: Option<Network>, size: int)
    requires Tokenized(j) && Sane(j, c) && c.state == ModuleParams
    requires nModules <= |modules| && Keeps(modules, nModules, network, size, c)
    ensures StepModuleParams(j, c).Running? ==> Keeps(modules, nModules, network, size, StepModuleParams(j, c).c)
  {
    var o := StepModuleParams(j, c);
    if o.Running? {
      ModuleWritten(c, o.c, c.mI, o.c.modules[c.mI], modules, nModules, network, size);
    }
  }

  lemma SubmoduleKeeps(j: Json, c: Config, modules: seq<Module>, nModules: nat, network: Option<Network>, size: int)
    requires Tokenized(j) && Sane(j, c) && c.state == InSubmodule
    requires nModules <= |modules| && Keeps(modules, nModules, network, size, c)
    ensures StepSubmodule(j, c).Running? ==> Keeps(modules, nModules, network, size, StepSubmodule(j, c).c)
  {
    var o := StepSubmodule(j, c);
    if o.Running? {
      SubmoduleStored(c.modules[c.mI], c.arrI, ParseSubmodule(j, c.i).value);
      ModuleWritten(c, o.c, c.mI, o.c.modules[c.mI], modules, nModules, network, size);
    }
  }

  lemma ConnectionKeeps(j: Json, c: Config, modules: seq<Module>, nModules: nat, network: Option<Network>, size: int)
    requires Tokenized(j) && Sane(j, c) && c.state == InConnection
    requires nModules <= |modules| && Keeps(modules, nModules, network, size, c)
    ensures StepConnection(j, c).Running? ==> Keeps(modules, nModules, network, size, StepConnection(j, c).c)
  {
    var o := StepConnection(j, c);
    if o.Running? {
      ConnectionStored(c.modules[c.mI], c.arrI, ParseConnection(j, c.i).value);
      ModuleWritten(c, o.c, c.mI, o.c.modules[c.mI], modules, nModules, network, size);
    }
  }

  lemma ReplaceKeeps(j: Json, c: Config, modules: seq<Module>, nModules: nat, network: Option<Network>, size: int)
    requires Tokenized(j) && Sane(j, c) && c.state == InReplace
    requires nModules <= |modules| && Keeps(modules, nModules, network, size, c)
    ensures StepReplace(j, c).Running? ==> Keeps(modules, nModules, network, size, StepReplace(j, c).c)
  {
    var o := StepReplace(j, c);
    if o.Running? {
      ReplaceStored(c.modules[c.mI], c.arrI, ParseReplace(j, c.i).value);
      ModuleWritten(c, o.c, c.mI, o.c.modules[c.mI], modules, nModules, network, size);
    }
  }

  lemma GateKeeps(j: Json, c: Config, modules: seq<Module>, nModules: nat, network: Option<Network>, size: int)
    requires Tokenized(j) && Sane(j, c) && c.state == InGate
    requires nModules <= |modules| && Keeps(modules, nModules, network, size, c)
    ensures StepGate(j, c).Running? ==> Keeps(modules, nModules, network, size, StepGate(j, c).c)
  {
    var o := StepGate(j, c);
    if o.Running? && o.c.modules != c.modules {
      ModuleWritten(c, o.c, c.mI, o.c.modules[c.mI], modules, nModules, network, size);
    }
  }

  lemma NetworkKeeps(j: Json, c: Config, modules: seq<Module>, nModules: nat, network: Option<Network>, size: int)
    requires Tokenized(j) && Sane(j, c) && c.state == InNetwork
    requires nModules <= |modules| && Keeps(modules, nModules, network, size, c)
    ensures StepNetwork(j, c).Running? ==> Keeps(modules, nModules, network, size, StepNetwork(j, c).c)
  {
  }

  lemma NetworkParamsKeeps(j: Json, c: Config, modules: seq<Module>, nModules: nat, network: Option<Network>, size: int)
    requires Tokenized(j) && Sane(j, c) && c.state == NetworkParams
    requires nModules <= |modules| && Keeps(modules, nModules, network, size, c)
    ensures StepNetworkParams(j, c).Running? ==> Keeps(modules, nModules, network, size, StepNetworkParams(j, c).c)
  {
  }

  lemma ArrayBetweenKeeps(j: Json, c: Config, modules: seq<Module>, nModules: nat, network: Option<Network>, size: int)
    requires Tokenized(j) && Sane(j, c)
    requires c.state == SubmodulesBetween || c.state == ConnectionsBetween || c.state == ReplaceBetween
    requires nModules <= |modules| && Keeps(modules, nModules, network, size, c)
    ensures StepArrayBetween(j, c).Running? ==> Keeps(modules, nModules, network, size, StepArrayBetween(j, c).c)
  {
  }

  lemma GatesBetweenKeeps(j: Json, c: Config, modules: seq<Module>, nModules: nat, network: Option<Network>, size: int)
    requires Tokenized(j) && Sane(j, c) && c.state == GatesBetween
    requires nModules <= |modules| && Keeps(modules, nModules, network, size, c)
    ensures StepGatesBetween(j, c).Running? ==> Keeps(modules, nModules, network, size, StepGatesBetween(j, c).c)
  {
  }

  /** One pass keeps Keeps. */
  lemma StepKeeps(j: Json, c: Config, modules: seq<Module>, nModules: nat, network: Option<Network>, size: int)
    requires Tokenized(j) && Sane(j, c) && c.state != Start
    requires nModules <= |modules| && Keeps(modules, nModules, network, size, c)
    ensures Step(j, c).Running? ==> Keeps(modules, nModules, network, size, Step(j, c).c)
  {
    match c.state
    case Between => BetweenKeeps(j, c, modules, nModules, network, size);
    case InModule => ModuleKeeps(j, c, modules, nModules, network, size);
    case ModuleParams => ModuleParamsKeeps(j, c, modules, nModules, network, size);
    case InSubmodule => SubmoduleKeeps(j, c, modules, nModules, network, size);
    case InConnection => ConnectionKeeps(j, c, modules, nModules, network, size);
    case InReplace => ReplaceKeeps(j, c, modules, nModules, network, size);
    case InGate => GateKeeps(j, c, modules, nModules, network, size);
    case InNetwork => NetworkKeeps(j, c, modules, nModules, network, size);
    case NetworkParams => NetworkParamsKeeps(j, c, modules, nModules, network, size);
    case SubmodulesBetween => ArrayBetweenKeeps(j, c, modules, nModules, network, size);
    case ConnectionsBetween => ArrayBetweenKeeps(j, c, modules, nModules, network, size);
    case ReplaceBetween => ArrayBetweenKeeps(j, c, modules, nModules, network, size);
    case GatesBetween => GatesBetweenKeeps(j, c, modules, nModules, network, size);
  }

  /** The loop keeps Keeps to its end. */
  lemma {:induction false} RunKeeps(j: Json, c: Config, modules: seq<Module>, nModules: nat, network: Option<Network>, size: int)
    requires Tokenized(j) && Sane(j, c) && c.state != Start && c.i < |j.toks|
    requires nModules <= |modules| && Keeps(modules, nModules, network, size, c)
    ensures Run(j, c).Accepted? ==> Keeps(modules, nModules, network, size, Run(j, c).c)
    decreases |j.toks| - c.i, Rank(c.state)
  {
    StepKeeps(j, c, modules, nModules, network, size);
    match Step(j, c)
    case Stopped(_, _) =>
    case Running(d) =>
      if d.i < |j.toks| {
        RunKeeps(j, d, modules, nModules, network, size);
      }
  }

  /**
   * An accepted description extends the definition it was read into: it
   * adds as many modules as the top-level array has entries (less one for
   * a network entry), leaves the modules already there as they were, and
   * keeps a network already there (a second network entry is refused).
   */
  lemma DeserializeExtends(j: Json, modules: seq<Module>, nModules: nat, network: Option<Network>)
    requires Tokenized(j) && nModules <= |modules|
    ensures var v := Deserialized(j, modules, nModules, network);
      v.Accepted? ==> Keeps(modules, nModules, network, Tok(j, 0).size, v.c)
  {
    var c0 := Initial(modules, nModules, network);
    match StepStart(j, c0)
    case Stopped(_, _) =>
    case Running(d) =>
      StartKeeps(j, modules, nModules, network);
      if d.i < |j.toks| {
        RunKeeps(j, d, modules, nModules, network, Tok(j, 0).size);
      }
  }

  /** STATE_START reserves zeroed slots after the definition's modules, which Keeps from the start. */
  lemma StartKeeps(j: Json, modules: seq<Module>, nModules: nat, network: Option<Network>)
    requires Tokenized(j) && nModules <= |modules|
    requires StepStart(j, Initial(modules, nModules, network)).Running?
    ensures Keeps(modules, nModules, network, Tok(j, 0).size, StepStart(j, Initial(modules, nModules, network)).c)
  {
    var d := StepStart(j, Initial(modules, nModules, network)).c;
    var z := ZeroModules(Tok(j, 0).size);
    assert d.modules == modules[..nModules] + z;
    assert d.modules[..nModules] == modules[..nModules];
    forall k | nModules <= k < |d.modules|
      ensures ShapedModule(d.modules[k])
    {
      assert d.modules[k] == z[k - nModules] == ZeroModule;
    }
  }

  // ---------------------------------------------------------------- key rules

  /**
   * A network entry: refused when the definition already has a network,
   * otherwise it takes back one reserved module slot and starts the
   * definition's network with no name and no params.
   */
  lemma NetworkEntry(j: Json, c: Config)
    requires Tokenized(j) && Sane(j, c) && c.state == Between
    requires Tok(j, c.i).typ == Object && Tok(j, c.i).size == 1 && Key(j, c.i + 1, "network")
    ensures c.network.Some? ==> StepBetween(j, c) == Stopped(c.i + 2, InNetwork)
    ensures c.network.None? && Tok(j, c.i + 2).typ == Object ==>
      var o := StepBetween(j, c);
      o.Running? && o.c.state == InNetwork && o.c.network == Some(Network(None, None)) &&
      o.c.nModules == c.nModules - 1 && o.c.mN == c.mN - 1 && o.c.modules == c.modules
    ensures Tok(j, c.i + 2).typ != Object ==> StepBetween(j, c) == Stopped(c.i + 2, InNetwork)
  {
  }

  /**
   * The keys of a module object: name, attributes and each array key are
   * refused the second time they are set, attributes is refused outright
   * in a compound module, and params leads to the params state.
   */
  lemma ModuleKeysOnce(j: Json, c: Config)
    requires Tokenized(j) && Sane(j, c) && c.state == InModule && c.objI != c.objN
    ensures Key(j, c.i, "name") && c.modules[c.mI].name.Some? ==> StepModule(j, c) == Stopped(c.i + 1, InModule)
    ensures Key(j, c.i, "attributes") && c.modules[c.mI].typ == Simple && c.modules[c.mI].attributes.Some? ==>
      StepModule(j, c) == Stopped(c.i + 1, InModule)
    ensures Key(j, c.i, "attributes") && c.modules[c.mI].typ != Simple ==> StepModule(j, c) == Stopped(c.i, InModule)
    ensures Key(j, c.i, "params") && Tok(j, c.i + 1).typ == Array ==>
      StepModule(j, c) == Running(c.(objI := c.objI + 1, i := c.i + 1, state := ModuleParams))
    ensures Tok(j, c.i + 1).typ == Array && RepeatedArrayKey(j, c) ==> StepModule(j, c) == Stopped(c.i + 1, InModule)
  {
  }

  /** The key at c.i is an array key whose array the current module already holds. */
  predicate RepeatedArrayKey(j: Json, c: Config)
    requires Tokenized(j) && Sane(j, c) && c.state == InModule
  {
    var m := c.modules[c.mI];
    (Key(j, c.i, "submodules") && m.submodules.Some?) || (Key(j, c.i, "replace") && m.replace.Some?) ||
    (Key(j, c.i, "connections") && m.connections.Some?) || (Key(j, c.i, "gates") && m.gates.Some?)
  }

  /** A module's params array is read once: a second non-empty one is refused, an empty one stores nothing. */
  lemma ParamsOnce(j: Json, c: Config)
    requires Tokenized(j) && Sane(j, c) && c.state == ModuleParams
    ensures c.modules[c.mI].params.Some? ==> StepModuleParams(j, c) == Stopped(c.i, ModuleParams)
    ensures c.modules[c.mI].params.None? && Tok(j, c.i).size == 0 ==>
      StepModuleParams(j, c).Running? && StepModuleParams(j, c).c.modules == c.modules
  {
  }

  // ---------------------------------------------------------------- the loop itself

  /** json_str_cpy followed by reading the copy as a C string. */
  method CopyString(j: Json, k: int) returns (s: string)
    requires Tokenized(j)
    ensures s == Copy(j, k)
  {
    var t := JsonStrCpy(j.text, Tok(j, k));
    s := CStr(t[..]);
  }

  /**
   * The entry loop of STATE_MODULE_PARAMS and STATE_NETWORK_PARAMS: from
   * the array token at `arr`, n entries of three tokens each; `i` ends on
   * the token after the last entry, `bad` names a malformed entry.
   */
  method ReadParams(j: Json, arr: int, n: int, st: State) returns (ps: seq<RawParam>, i: int, bad: Option<int>)
    requires Tokenized(j)
    ensures ParamEntries(j, arr, 0, n, [], st) == if bad.Some? then Bad(bad.value, st) else Parsed(ps, i - 1)
  {
    ps, i, bad := [], arr + 1, None;
    var done := 0;
    while done < n
      invariant 0 <= done
      invariant ParamEntries(j, arr, 0, n, [], st) == ParamEntries(j, i - 1, done, n, ps, st)
      decreases n - done
    {
      if !IsParamEntry(j, i) {
        bad := Some(i);
        return;
      }
      var name := CopyString(j, i + 1);
      var value := CopyString(j, i + 2);
      assert RawParam(name, value) == ParamAt(j, i);
      assert ParamEntries(j, i - 1, done, n, ps, st) == ParamEntries(j, i + 2, done + 1, n, ps + [ParamAt(j, i)], st);
      ps := ps + [RawParam(name, value)];
      i := i + 3;
      done := done + 1;
    }
  }

  /** The loop's own variables; Definition.Cfg adds the definition's fields to make a Config. */
  datatype Cursor = Cursor(
    state: State, i: int,
    mN: int, mI: int, arrI: int, arrN: int, objI: int, objN: int, subobjI: int, subobjN: int)

  /** What one pass of the loop body ends with: the next locals, or the token to report. */
  datatype Pass = Next(k: Cursor) | Report(at: int, state: State)

  /** network_definition_t: the modules read so far, their count, and the network once one is read. */
  class Definition {
    var modules: seq<Module>
    var nModules: int
    var network: Option<Network>

    ghost predicate Valid()
      reads this
    {
      0 <= nModules <= |modules|
    }

    /** A zeroed definition, as the caller allocates it. */
    constructor ()
      ensures Valid() && modules == [] && nModules == 0 && network == None
    {
      modules, nModules, network := [], 0, None;
    }

    ghost function Cfg(k: Cursor): Config
      reads this
    {
      Config(k.state, k.i, k.mN, k.mI, k.arrI, k.arrN, k.objI, k.objN, k.subobjI, k.subobjN,
             modules, nModules, network)
    }

    /** A pass of the body did what the step function o says. */
    ghost predicate Agrees(o: Outcome, p: Pass)
      reads this
    {
      match p
      case Next(k) => o == Running(Cfg(k))
      case Report(at, st) => o == Stopped(at, st)
    }

    method PassBetween(j: Json, k: Cursor) returns (p: Pass)
      requires Tokenized(j) && Sane(j, Cfg(k)) && k.state == Between
      modifies this
      ensures Agrees(StepBetween(j, old(Cfg(k))), p)
    {
      var t := Tok(j, k.i);
      if t.typ != Object || t.size != 1 {
        return Report(k.i, Between);
      }
      if Key(j, k.i + 1, "module") || Key(j, k.i + 1, "simplemodule") {
        p := PassBetweenModule(j, k);
      } else if Key(j, k.i + 1, "network") {
        p := PassBetweenNetwork(j, k);
      } else {
        p := Report(k.i + 1, Between);
      }
    }

    /** A "module" or "simplemodule" entry: the next reserved slot takes its type. */
    method PassBetweenModule(j: Json, k: Cursor) returns (p: Pass)
      requires Tokenized(j) && Sane(j, Cfg(k)) && k.state == Between
      requires Tok(j, k.i).typ == Object && Tok(j, k.i).size == 1
      requires Key(j, k.i + 1, "module") || Key(j, k.i + 1, "simplemodule")
      modifies this
      ensures Agrees(StepBetween(j, old(Cfg(k))), p)
    {
      var mI := k.mI + 1;
      if mI >= |modules| {
        return Report(k.i + 1, Between);
      }
      var typ := if Key(j, k.i + 1, "module") then Compound else Simple;
      modules := modules[mI := modules[mI].(typ := typ)];
      var at := k.i + 2;
      if Tok(j, at).typ != Object {
        return Report(at, InModule);
      }
      return Next(k.(state := InModule, mI := mI, objN := Tok(j, at).size, objI := 0, i := at + 1));
    }

    /** A "network" entry: the definition's only network, which takes back its reserved slot. */
    method PassBetweenNetwork(j: Json, k: Cursor) returns (p: Pass)
      requires Tokenized(j) && Sane(j, Cfg(k)) && k.state == Between
      requires Tok(j, k.i).typ == Object && Tok(j, k.i).size == 1
      requires !Key(j, k.i + 1, "module") && !Key(j, k.i + 1, "simplemodule") && Key(j, k.i + 1, "network")
      modifies this
      ensures Agrees(StepBetween(j, old(Cfg(k))), p)
    {
      var at := k.i + 2;
      nModules := nModules - 1;
      if Tok(j, at).typ != Object || network.Some? {
        return Report(at, InNetwork);
      }
      network := Some(Network(None, None));
      return Next(k.(state := InNetwork, mN := k.mN - 1, objN := Tok(j, at).size, objI := 0, i := at + 1));
    }

    method PassModule(j: Json, k: Cursor) returns (p: Pass)
      requires Tokenized(j) && Sane(j, Cfg(k)) && k.state == InModule
      modifies this
      ensures Agrees(StepModule(j, old(Cfg(k))), p)
    {
      if k.objI == k.objN {
        return Next(k.(state := Between));
      }
      var at := k.i;
      if Key(j, at, "name") || (Key(j, at, "attributes") && modules[k.mI].typ == Simple) {
        p := PassModuleString(j, k);
      } else if Key(j, at, "params") {
        if Tok(j, at + 1).typ != Array {
          return Report(at + 1, InModule);
        }
        return Next(k.(objI := k.objI + 1, i := at + 1, state := ModuleParams));
      } else if Key(j, at, "submodules") || Key(j, at, "replace") || Key(j, at, "connections") || Key(j, at, "gates") {
        p := PassModuleArray(j, k);
      } else {
        return Report(at, InModule);
      }
    }

    method PassModuleString(j: Json, k: Cursor) returns (p: Pass)
      requires Tokenized(j) && Sane(j, Cfg(k)) && k.state == InModule
      requires Key(j, k.i, "name") || (Key(j, k.i, "attributes") && modules[k.mI].typ == Simple)
      modifies this
      ensures Agrees(StepModuleString(j, old(Cfg(k))), p)
    {
      var m := modules[k.mI];
      var arr := k.i + 1;
      var named := Key(j, k.i, "name");
      if (if named then m.name.Some? else m.attributes.Some?) || Tok(j, arr).typ != String {
        return Report(arr, InModule);
      }
      var value := CopyString(j, arr);
      m := if named then m.(name := Some(value)) else m.(attributes := Some(value));
      modules := modules[k.mI := m];
      return Next(k.(objI := k.objI + 1, i := k.i + 2));
    }

    method PassModuleArray(j: Json, k: Cursor) returns (p: Pass)
      requires Tokenized(j) && Sane(j, Cfg(k)) && k.state == InModule
      modifies this
      ensures Agrees(StepModuleArray(j, old(Cfg(k))), p)
    {
      var m := modules[k.mI];
      var arr := k.i + 1;
      if Tok(j, arr).typ != Array {
        return Report(arr, InModule);
      }
      var n := Tok(j, arr).size;
      var state;
      if Key(j, k.i, "submodules") {
        if m.submodules.Some? {
          return Report(arr, InModule);
        }
        m, state := m.(submodules := Zeroed(n, None)), SubmodulesBetween;
      } else if Key(j, k.i, "replace") {
        if m.replace.Some? {
          return Report(arr, InModule);
        }
        m, state := m.(replace := Zeroed(n, Replace(None, None))), ReplaceBetween;
      } else if Key(j, k.i, "connections") {
        if m.connections.Some? {
          return Report(arr, InModule);
        }
        m, state := m.(connections := Zeroed(n, None)), ConnectionsBetween;
      } else {
        if m.gates.Some? {
          return Report(arr, InModule);
        }
        m, state := m.(gates := Zeroed(n, Gate(None, None))), GatesBetween;
      }
      modules := modules[k.mI := m];
      return Next(k.(objI := k.objI + 1, arrN := n, arrI := 0, i := arr + 1, state := state));
    }

    method PassModuleParams(j: Json, k: Cursor) returns (p: Pass)
      requires Tokenized(j) && Sane(j, Cfg(k)) && k.state == ModuleParams
      modifies this
      ensures Agrees(StepModuleParams(j, old(Cfg(k))), p)
    {
      var m := modules[k.mI];
      var n := Tok(j, k.i).size;
      if m.params.Some? {
        return Report(k.i, ModuleParams);
      }
      var ps, i, bad := ReadParams(j, k.i, n, ModuleParams);
      if bad.Some? {
        return Report(bad.value, ModuleParams);
      }
      modules := modules[k.mI := m.(params := if n > 0 then Some(ps) else None)];
      return Next(k.(arrN := n, arrI := n, i := i, state := InModule));
    }

    method PassArrayBetween(j: Json, k: Cursor) returns (p: Pass)
      requires Tokenized(j) && Sane(j, Cfg(k))
      requires k.state == SubmodulesBetween || k.state == ConnectionsBetween || k.state == ReplaceBetween
      ensures Agrees(StepArrayBetween(j, Cfg(k)), p)
    {
      if k.arrI == k.arrN {
        return Next(k.(state := InModule));
      } else if Tok(j, k.i).typ != Object {
        return Report(k.i, k.state);
      }
      return Next(k.(state := EntryState(k.state)));
    }

    method PassSubmodule(j: Json, k: Cursor) returns (p: Pass)
      requires Tokenized(j) && Sane(j, Cfg(k)) && k.state == InSubmodule
      modifies this
      ensures Agrees(StepSubmodule(j, old(Cfg(k))), p)
    {
      var m := modules[k.mI];
      var next := k.(subobjI := 0, subobjN := Tok(j, k.i).size);
      match ParseSubmodule(j, k.i)
      case Bad(b, st) =>
        return Report(b, st);
      case Parsed(s, i) =>
        modules := modules[k.mI := m.(submodules := Some(m.submodules.value[k.arrI := Some(s)]))];
        return Next(next.(i := i, arrI := k.arrI + 1, state := SubmodulesBetween));
    }

    method PassConnection(j: Json, k: Cursor) returns (p: Pass)
      requires Tokenized(j) && Sane(j, Cfg(k)) && k.state == InConnection
      modifies this
      ensures Agrees(StepConnection(j, old(Cfg(k))), p)
    {
      var m := modules[k.mI];
      var next := k.(subobjI := 0, subobjN := Tok(j, k.i).size);
      match ParseConnection(j, k.i)
      case Bad(b, st) =>
        return Report(b, st);
      case Parsed(x, i) =>
        modules := modules[k.mI := m.(connections := Some(m.connections.value[k.arrI := Some(x)]))];
        return Next(next.(i := i, arrI := k.arrI + 1, state := ConnectionsBetween));
    }

    method PassReplace(j: Json, k: Cursor) returns (p: Pass)
      requires Tokenized(j) && Sane(j, Cfg(k)) && k.state == InReplace
      modifies this
      ensures Agrees(StepReplace(j, old(Cfg(k))), p)
    {
      var m := modules[k.mI];
      var next := k.(subobjI := 0, subobjN := Tok(j, k.i).size);
      match ParseReplace(j, k.i)
      case Bad(b, st) =>
        return Report(b, st);
      case Parsed(x, i) =>
        modules := modules[k.mI := m.(replace := Some(m.replace.value[k.arrI := x]))];
        return Next(next.(i := i, arrI := k.arrI + 1, state := ReplaceBetween));
    }

    method PassGatesBetween(j: Json, k: Cursor) returns (p: Pass)
      requires Tokenized(j) && Sane(j, Cfg(k)) && k.state == GatesBetween
      ensures Agrees(StepGatesBetween(j, Cfg(k)), p)
    {
      if k.arrI == k.arrN {
        return Next(k.(state := InModule));
      } else if Tok(j, k.i).typ != Object {
        return Report(k.i, GatesBetween);
      }
      return Next(k.(subobjI := 0, subobjN := Tok(j, k.i).size, state := InGate, i := k.i + 1));
    }

    method PassGate(j: Json, k: Cursor) returns (p: Pass)
      requires Tokenized(j) && Sane(j, Cfg(k)) && k.state == InGate
      modifies this
      ensures Agrees(StepGate(j, old(Cfg(k))), p)
    {
      if k.subobjI == k.subobjN {
        return Next(k.(state := GatesBetween, arrI := k.arrI + 1));
      }
      var m := modules[k.mI];
      var name := CopyString(j, k.i);
      var size := CopyString(j, k.i + 1);
      modules := modules[k.mI := m.(gates := Some(m.gates.value[k.arrI := Gate(Some(name), Some(size))]))];
      return Next(k.(i := k.i + 2, subobjI := k.subobjI + 1));
    }

    method PassNetwork(j: Json, k: Cursor) returns (p: Pass)
      requires Tokenized(j) && Sane(j, Cfg(k)) && k.state == InNetwork
      modifies this
      ensures Agrees(StepNetwork(j, old(Cfg(k))), p)
    {
      ghost var o := StepNetwork(j, Cfg(k));
      if k.objI == k.objN {
        return Next(k.(state := Between));
      }
      if Key(j, k.i, "module") {
        p := PassNetworkModule(j, k);
        return;
      } else if Key(j, k.i, "params") {
        if Tok(j, k.i + 1).typ != Array {
          assert o == Stopped(k.i + 1, InNetwork);
          return Report(k.i + 1, InNetwork);
        }
        assert o == Running(Cfg(k).(objI := k.objI + 1, i := k.i + 1, state := NetworkParams));
        return Next(k.(objI := k.objI + 1, i := k.i + 1, state := NetworkParams));
      }
      assert o == Stopped(k.i, InNetwork);
      return Report(k.i, InNetwork);
    }

    /** The "module" key of the network object: its module name, once. */
    method PassNetworkModule(j: Json, k: Cursor) returns (p: Pass)
      requires Tokenized(j) && Sane(j, Cfg(k)) && k.state == InNetwork
      requires k.objI != k.objN && Key(j, k.i, "module")
      modifies this
      ensures Agrees(StepNetwork(j, old(Cfg(k))), p)
    {
      var net := network.value;
      if net.moduleName.Some? {
        return Report(k.i, InNetwork);
      }
      var name := CopyString(j, k.i + 1);
      network := Some(net.(moduleName := Some(name)));
      return Next(k.(objI := k.objI + 1, i := k.i + 2));
    }

    method PassNetworkParams(j: Json, k: Cursor) returns (p: Pass)
      requires Tokenized(j) && Sane(j, Cfg(k)) && k.state == NetworkParams
      modifies this
      ensures Agrees(StepNetworkParams(j, old(Cfg(k))), p)
    {
      ghost var o := StepNetworkParams(j, Cfg(k));
      var net := network.value;
      var n := Tok(j, k.i).size;
      if net.params.Some? {
        assert o == Stopped(k.i, NetworkParams);
        return Report(k.i, NetworkParams);
      }
      var ps, i, bad := ReadParams(j, k.i, n, NetworkParams);
      if bad.Some? {
        assert o == Stopped(bad.value, NetworkParams);
        return Report(bad.value, NetworkParams);
      }
      network := Some(net.(params := if n > 0 then Some(ps) else None));
      return Next(k.(arrN := n, arrI := n, i := i, state := InNetwork));
    }

    /** One pass of the loop body, by state. */
    method Pass(j: Json, k: Cursor) returns (p: Pass)
      requires Tokenized(j) && Sane(j, Cfg(k)) && k.state != Start
      modifies this
      ensures Agrees(Step(j, old(Cfg(k))), p)
    {
      match k.state
      case Between => p := PassBetween(j, k);
      case InModule => p := PassModule(j, k);
      case ModuleParams => p := PassModuleParams(j, k);
      case SubmodulesBetween => p := PassArrayBetween(j, k);
      case ConnectionsBetween => p := PassArrayBetween(j, k);
      case ReplaceBetween => p := PassArrayBetween(j, k);
      case InSubmodule => p := PassSubmodule(j, k);
      case InConnection => p := PassConnection(j, k);
      case InReplace => p := PassReplace(j, k);
      case GatesBetween => p := PassGatesBetween(j, k);
      case InGate => p := PassGate(j, k);
      case InNetwork => p := PassNetwork(j, k);
      case NetworkParams => p := PassNetworkParams(j, k);
    }

    /**
     * json_deserialize: reads the description into this definition.  On
     * acceptance it returns 0 and the definition is the one Deserialized
     * describes; on a refusal it returns TOP_E_TOKEN with bad_token's
     * report of the refused token in eText.
     */
    method Deserialize(j: Json, eText: array?<char>) returns (res: int)
      requires Tokenized(j) && Valid()
      modifies this, eText
      ensures var v := Deserialized(j, old(modules), old(nModules), old(network));
        (v.Accepted? ==> res == 0 && modules == v.c.modules && nModules == v.c.nModules && network == v.c.network)
        && (v.Refused? ==> res == TOP_E_TOKEN && (eText != null && eText.Length > 0 ==> Reported(eText, j, v.at, v.state)))
    {
      ghost var goal := Deserialized(j, modules, nModules, network);
      ghost var c0 := Initial(modules, nModules, network);
      var k := Cursor(Start, 0, 0, -1, 0, 0, 0, 0, 0, 0);
      var t := Tok(j, k.i);
      if t.typ != Array {
        assert goal == Refused(0, Start);
        res := BadToken(k.i, t, j.text, Start, eText);
        return;
      }
      k := k.(mN := t.size, mI := nModules - 1);
      modules := modules[..nModules] + ZeroModules(t.size);
      nModules := nModules + t.size;
      k := k.(i := k.i + 1, state := Between);
      assert StepStart(j, c0) == Running(Cfg(k));
      while k.i < |j.toks|
        invariant Sane(j, Cfg(k)) && k.state != Start
        invariant k.i < |j.toks| ==> goal == Run(j, Cfg(k))
        invariant k.i >= |j.toks| ==> goal == Accepted(Cfg(k))
        decreases |j.toks| - k.i, Rank(k.state)
      {
        ghost var before := Cfg(k);
        var p := Pass(j, k);
        match p
        case Report(at, st) =>
          assert goal == Refused(at, st);
          res := BadToken(at, Tok(j, at), j.text, st, eText);
          return;
        case Next(k') =>
          k := k';
      }
      res := 0;
    }
  }

  /** eText holds the "Bad token" message with bad_token's report of token `at`, cut to fit and NUL-terminated. */
  ghost predicate Reported(eText: array<char>, j: Json, at: int, state: State)
    requires Tokenized(j) && eText.Length > 0
    reads eText
  {
    var msg := MessageOf(TOP_E_TOKEN) + BadTokenSuffix(j.text, at, Tok(j, at), state);
    var k := Min(|msg|, eText.Length - 1);
    eText[..k] == msg[..k] && eText[k] == NUL
  }
}

/**
 * A description that makes the source's STATE_BETWEEN write past the
 * module slots it reserved.  Its one top-level entry reserves one slot;
 * the gate value is an array, which STATE_MODULE_GATE takes as one token
 * without stepping over its contents, so the object inside it is read as
 * a second top-level entry naming a "module".
 */
module SlotOverflow {
  import opened Basics
  import opened Defs
  import opened Tokens
  import opened Parser
  import opened Deserializer

  /** The tokens of `[{"simplemodule":{"gates":[{"g":[{"module":{}}]}]}}]`. */
  function Example(): (j: Json)
    ensures Tokenized(j)
  {
    Json("[{\"simple" + "module\":{" + "\"gates\":[" + "{\"g\":[{\"m" + "odule\":{}" + "}]}]}}]",
      [Token(Array, 0, 52, 1), Token(Object, 1, 51, 1), Token(String, 3, 15, 1),
       Token(Object, 17, 50, 1), Token(String, 19, 24, 1), Token(Array, 26, 49, 1),
       Token(Object, 27, 48, 1), Token(String, 29, 30, 1), Token(Array, 32, 47, 1),
       Token(Object, 33, 46, 1), Token(String, 35, 41, 1), Token(Object, 43, 45, 0)])
  }

  lemma ExampleText()
    ensures var t := Example().text;
      t[3..15] == "simplemodule" && t[19..24] == "gates" && t[35..41] == "module"
  {
    var t := Example().text;
    assert t[3..15] == "simplemodule";
    assert t[19..24] == "gates";
  }

  /** Token 2 is "simplemodule". */
  lemma FirstKey()
    ensures var j := Example(); Key(j, 2, "simplemodule") && !Key(j, 2, "module") && !Key(j, 2, "network")
  {
    var j := Example();
    ExampleText();
    JsonStrEqIff(j.text, j.toks[2], "simplemodule");
    JsonStrEqIff(j.text, j.toks[2], "module");
  }

  /** Token 4 is "gates". */
  lemma SecondKey()
    ensures var j := Example();
      Key(j, 4, "gates") && !Key(j, 4, "name") && !Key(j, 4, "attributes") && !Key(j, 4, "params")
      && !Key(j, 4, "submodules") && !Key(j, 4, "replace") && !Key(j, 4, "connections")
  {
    var j := Example();
    ExampleText();
    JsonStrEqIff(j.text, j.toks[4], "gates");
    JsonStrEqIff(j.text, j.toks[4], "name");
    JsonStrEqIff(j.text, j.toks[4], "params");
    JsonStrEqIff(j.text, j.toks[4], "replace");
  }

  /** Token 10 is "module". */
  lemma ThirdKey()
    ensures var j := Example(); Key(j, 10, "module")
  {
    var j := Example();
    ExampleText();
    JsonStrEqIff(j.text, j.toks[10], "module");
  }

  /** The one module after its gate is read. */
  function GatedModule(j: Json): Module
    requires Tokenized(j)
  {
    ZeroModule.(typ := Simple, gates := Some([Gate(Some(Copy(j, 7)), Some(Copy(j, 8)))]))
  }

  /** The module after its gates array is allocated. */
  const Allocated := ZeroModule.(typ := Simple, gates := Zeroed(1, Gate(None, None)))

  /** The locals and the definition at the start of pass n of the loop over j. */
  function Pass(j: Json, n: nat): Config
    requires Tokenized(j)
  {
    match n
    case 1 => Config(Between, 1, 1, -1, 0, 0, 0, 0, 0, 0, [ZeroModule], 1, None)
    case 2 => Config(InModule, 4, 1, 0, 0, 0, 0, 1, 0, 0, [ZeroModule.(typ := Simple)], 1, None)
    case 3 => Config(GatesBetween, 6, 1, 0, 0, 1, 1, 1, 0, 0, [Allocated], 1, None)
    case 4 => Config(InGate, 7, 1, 0, 0, 1, 1, 1, 0, 1, [Allocated], 1, None)
    case 5 => Config(InGate, 9, 1, 0, 0, 1, 1, 1, 1, 1, [GatedModule(j)], 1, None)
    case 6 => Config(GatesBetween, 9, 1, 0, 1, 1, 1, 1, 1, 1, [GatedModule(j)], 1, None)
    case 7 => Config(InModule, 9, 1, 0, 1, 1, 1, 1, 1, 1, [GatedModule(j)], 1, None)
    case _ => Reached(j)
  }

  /** The loop's locals and the definition when it reaches token 9 in STATE_BETWEEN. */
  function Reached(j: Json): Config
    requires Tokenized(j)
  {
    Config(Between, 9, 1, 0, 1, 1, 1, 1, 1, 1, [GatedModule(j)], 1, None)
  }

  /**
   * The facts about the example the walk below uses: its tokens, and
   * which keys its key tokens spell.  Stated apart from the text so that
   * the copies of the gate's strings stay symbolic.
   */
  predicate Shape(j: Json)
  {
    Tokenized(j) && j.toks == Example().toks
    && Key(j, 2, "simplemodule") && !Key(j, 2, "module")
    && Key(j, 4, "gates") && !Key(j, 4, "name") && !Key(j, 4, "attributes") && !Key(j, 4, "params")
    && !Key(j, 4, "submodules") && !Key(j, 4, "replace") && !Key(j, 4, "connections")
    && Key(j, 10, "module")
  }

  lemma ExampleShape()
    ensures Shape(Example())
  {
    FirstKey();
    SecondKey();
    ThirdKey();
  }

  lemma StartPass(j: Json)
    requires Shape(j)
    ensures StepStart(j, Initial([], 0, None)) == Running(Pass(j, 1))
  {
    assert ZeroModules(1) == [ZeroModule];
  }

  lemma Pass1(j: Json)
    requires Shape(j)
    ensures Sane(j, Pass(j, 1)) && StepBetween(j, Pass(j, 1)) == Running(Pass(j, 2))
  {
  }

  lemma Pass2(j: Json)
    requires Shape(j)
    ensures Sane(j, Pass(j, 2)) && StepModule(j, Pass(j, 2)) == Running(Pass(j, 3))
  {
    assert StepModuleArray(j, Pass(j, 2)) == Running(Pass(j, 3));
  }

  lemma Pass3(j: Json)
    requires Shape(j)
    ensures Sane(j, Pass(j, 3)) && StepGatesBetween(j, Pass(j, 3)) == Running(Pass(j, 4))
  {
  }

  /** The gate pass reads no token type, so it holds over any tokens. */
  lemma Pass4(j: Json)
    requires Tokenized(j)
    ensures Sane(j, Pass(j, 4)) && StepGate(j, Pass(j, 4)) == Running(Pass(j, 5))
    ensures Step(j, Pass(j, 4)) == Running(Pass(j, 5))
  {
    var g := Gate(Some(Copy(j, 7)), Some(Copy(j, 8)));
    assert |Allocated.gates.value| == 1;
    assert Allocated.gates.value[0 := g] == [g];
    assert Allocated.(gates := Some([g])) == GatedModule(j);
  }

  lemma Pass5(j: Json)
    requires Tokenized(j)
    ensures Sane(j, Pass(j, 5)) && StepGate(j, Pass(j, 5)) == Running(Pass(j, 6))
    ensures Step(j, Pass(j, 5)) == Running(Pass(j, 6))
  {
  }

  lemma Pass6(j: Json)
    requires Tokenized(j)
    ensures Sane(j, Pass(j, 6)) && StepGatesBetween(j, Pass(j, 6)) == Running(Pass(j, 7))
    ensures Step(j, Pass(j, 6)) == Running(Pass(j, 7))
  {
  }

  lemma Pass7(j: Json)
    requires Tokenized(j)
    ensures Sane(j, Pass(j, 7)) && StepModule(j, Pass(j, 7)) == Running(Reached(j))
    ensures Step(j, Pass(j, 7)) == Running(Reached(j))
  {
  }

  /** At token 9 the source writes slot 1, one past the only slot; the model refuses the key. */
  lemma SlotAtReached(j: Json)
    requires Shape(j)
    ensures Sane(j, Reached(j))
    ensures ModuleSlotAsWritten(j, Reached(j)) == Some(1) && |Reached(j).modules| == 1
    ensures Step(j, Reached(j)) == Stopped(10, Between)
  {
    assert Tok(j, 9) == Token(Object, 33, 46, 1);
  }

  /** A pass that goes on with tokens left leaves the loop's outcome as it was. */
  lemma RunOn(j: Json, c: Config, d: Config)
    requires Tokenized(j) && Sane(j, c) && c.state != Start && c.i < |j.toks|
    requires Step(j, c) == Running(d) && d.i < |j.toks|
    ensures Run(j, c) == Run(j, d)
  {
  }

  /** From pass 4 the gate is read and the loop climbs back to STATE_BETWEEN at token 9. */
  lemma GateReaches(j: Json)
    requires Shape(j)
    ensures Sane(j, Pass(j, 4)) && Run(j, Pass(j, 4)) == Run(j, Reached(j))
  {
    Pass4(j);
    Pass5(j);
    ClimbsBack(j);
    RunOn(j, Pass(j, 5), Pass(j, 6));
    RunOn(j, Pass(j, 4), Pass(j, 5));
  }

  /** After the gate, the loop leaves the gates array and the module for STATE_BETWEEN at token 9. */
  lemma ClimbsBack(j: Json)
    requires Shape(j)
    ensures Sane(j, Pass(j, 6)) && Run(j, Pass(j, 6)) == Run(j, Reached(j))
  {
    Pass6(j);
    Pass7(j);
    SlotAtReached(j);
    RunOn(j, Pass(j, 7), Reached(j));
    RunOn(j, Pass(j, 6), Pass(j, 7));
  }

  /** From an empty definition the loop goes through the passes above to token 9. */
  lemma ExampleReaches(j: Json)
    requires Shape(j)
    ensures Sane(j, Reached(j)) && Deserialized(j, [], 0, None) == Run(j, Reached(j))
  {
    StartPass(j);
    Pass1(j);
    Pass2(j);
    Pass3(j);
    GateReaches(j);
    RunOn(j, Pass(j, 3), Pass(j, 4));
    RunOn(j, Pass(j, 2), Pass(j, 3));
    RunOn(j, Pass(j, 1), Pass(j, 2));
  }

  /**
   * Read into an empty definition, the example reaches token 9 in
   * STATE_BETWEEN with its one reserved slot used; the source then writes
   * slot 1 of a one-slot array, and the model refuses the key at token 10.
   */
  lemma ModuleSlotOverflow(j: Json)
    requires j == Example()
    ensures Sane(j, Reached(j))
      && Deserialized(j, [], 0, None) == Run(j, Reached(j))
      && ModuleSlotAsWritten(j, Reached(j)) == Some(|Reached(j).modules|)
      && Run(j, Reached(j)) == Refused(10, Between)
  {
    ExampleShape();
    ExampleReaches(j);
    SlotAtReached(j);
  }
}
