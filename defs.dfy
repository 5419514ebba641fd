/**
 * The network description of src/defs.h as the parser fills it and the
 * expansion reads it.  Every pointer the source may leave NULL is an
 * Option; an array the source allocates only for a nonzero count is an
 * Option of a sequence (None for the NULL pointer), and the entries of an
 * array allocated zeroed and filled one by one are Options themselves.
 */
module Defs {
  import opened Basics

  /** raw_param_t: a parameter as written in the description, its value an expression. */
  datatype RawParam = RawParam(name: string, value: string)

  /** gate_t: the gate's name and its size expression, both NULL until a key is read. */
  datatype Gate = Gate(name: Option<string>, size: Option<string>)

  /** prod_type_t. */
  datatype ProductKind = Cartesian | Tensor | Lexicographical | Strong | Rooted

  /** submodule_wrapper_t with its three variants. */
  datatype Submodule =
    | Instance(name: Option<string>, moduleName: Option<string>, size: Option<string>,
               params: Option<seq<RawParam>>)
    | Product(a: Submodule, b: Submodule, kind: ProductKind, root: Option<string>)
    | SubmoduleCond(condition: Option<string>, subThen: Option<Submodule>,
                    subElse: Option<Submodule>)

  /** The three connection kinds that share connection_ring_t's layout. */
  datatype SeriesKind = AllList | Line | Ring

  /** connection_wrapper_t with its variants. */
  datatype Connection =
    | Link(from: Option<string>, to: Option<string>, attributes: Option<string>)
    | Loop(loopVar: Option<string>, start: Option<string>, end: Option<string>,
           body: Option<Connection>)
    | ConnectionCond(condition: Option<string>, connThen: Option<Connection>,
                     connElse: Option<Connection>)
    | AllMatch(nodes: Option<string>, attributes: Option<string>)
    | Series(kind: SeriesKind, seriesVar: Option<string>, start: Option<string>,
             end: Option<string>, nodes: Option<string>, attributes: Option<string>)

  /** replace_t. */
  datatype Replace = Replace(nodes: Option<string>, submodule: Option<Submodule>)

  /** module_type_t. */
  datatype ModuleType = Compound | Simple

  /** module_t; the counts n_params, n_submodules ... are the lengths of the sequences. */
  datatype Module = Module(
    name: Option<string>,
    params: Option<seq<RawParam>>,
    submodules: Option<seq<Option<Submodule>>>,
    gates: Option<seq<Gate>>,
    connections: Option<seq<Option<Connection>>>,
    typ: ModuleType,
    attributes: Option<string>,
    replace: Option<seq<Replace>>)

  /** A module slot as realloc and memset leave it. */
  const ZeroModule := Module(None, None, None, None, None, Compound, None, None)

  /** network_t. */
  datatype Network = Network(moduleName: Option<string>, params: Option<seq<RawParam>>)

  /** n zeroed module slots. */
  function ZeroModules(n: nat): (r: seq<Module>)
    ensures |r| == n && forall k :: 0 <= k < n ==> r[k] == ZeroModule
  {
    seq(n, _ => ZeroModule)
  }
}
