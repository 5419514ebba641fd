/**
 * The recursive-descent half of src/parser.c: parse_submodule (with its
 * products and conditionals), parse_submodule_params, parse_replace and
 * parse_connection.  Each reads the object whose token is at index i and
 * returns the value it built and the index just past the object, or the
 * token and state bad_token reports.
 *
 * The source's loops over an object's keys become functions recursive in
 * the number of keys still to read; the `*i` the C functions advance is
 * the index those functions pass along.
 */
module Parser {
  import opened Basics
  import opened Defs
  import opened Tokens

  /** A sub-parser's outcome: the value and the index after it, or the token bad_token reports. */
  datatype Parsed<T> = Parsed(value: T, next: int) | Bad(at: int, state: State)

  /** json_str_eq(text, &tokens[k], s). */
  predicate Key(j: Json, k: int, s: string)
    requires Tokenized(j)
  {
    JsonStrEq(j.text, Tok(j, k), s)
  }

  /** json_str_cpy(text, &tokens[k], ...): the string it stores. */
  function Copy(j: Json, k: int): string
    requires Tokenized(j)
  {
    Copied(j.text, Tok(j, k))
  }

  // ---------------------------------------------------------------- params arrays

  /** A params entry: an object of one key whose key and value are strings. */
  predicate IsParamEntry(j: Json, k: int)
    requires Tokenized(j)
  {
    Tok(j, k).typ == Object && Tok(j, k).size == 1
    && Tok(j, k + 1).typ == String && Tok(j, k + 2).typ == String
  }

  /** The token of entry t of a params array whose token is at `arr`. */
  function EntryAt(arr: int, t: int): int
  {
    arr + 1 + 3 * t
  }

  /** The parameter an entry at k denotes: its key is the name, its value the expression. */
  function ParamAt(j: Json, k: int): RawParam
    requires Tokenized(j)
  {
    RawParam(Copy(j, k + 1), Copy(j, k + 2))
  }

  /**
   * The loop over a params array shared by parse_submodule_params and the
   * MODULE_PARAMS and NETWORK_PARAMS states: `last` is the token before
   * the next entry, `done` of `n` entries are read into acc.  A malformed
   * entry is reported at its object token in state st.
   */
  function ParamEntries(j: Json, last: int, done: nat, n: int, acc: seq<RawParam>, st: State): (r: Parsed<seq<RawParam>>)
    requires Tokenized(j)
    decreases n - done
    ensures r.Bad? ==> r.state == st
    ensures r.Parsed? ==> r.next >= last
  {
    if done >= n then Parsed(acc, last)
    else if !IsParamEntry(j, last + 1) then Bad(last + 1, st)
    else ParamEntries(j, last + 3, done + 1, n, acc + [ParamAt(j, last + 1)], st)
  }

  /**
   * A params array of n entries is accepted exactly when every entry is a
   * one-key object of two strings.
   */
  lemma {:induction false} ParamEntriesAccept(j: Json, arr: int, done: nat, n: int, acc: seq<RawParam>, st: State)
    requires Tokenized(j) && done <= n
    ensures ParamEntries(j, EntryAt(arr, done) - 1, done, n, acc, st).Parsed?
      <==> forall t :: done <= t < n ==> IsParamEntry(j, EntryAt(arr, t))
    decreases n - done
  {
    if done < n {
      var last := EntryAt(arr, done) - 1;
      assert EntryAt(arr, done + 1) - 1 == last + 3;
      ParamEntriesAccept(j, arr, done + 1, n, acc + [ParamAt(j, last + 1)], st);
    }
  }

  /** The parameters entries from..n-1 of the array at arr denote, in order. */
  function EntryParams(j: Json, arr: int, from: int, n: int): (r: seq<RawParam>)
    requires Tokenized(j) && from <= n
    ensures |r| == n - from
  {
    seq(n - from, t requires 0 <= t < n - from => ParamAt(j, EntryAt(arr, from + t)))
  }

  lemma AppendAssoc<T>(a: seq<T>, b: seq<T>, c: seq<T>)
    ensures a + b + c == a + (b + c)
  {
  }

  lemma EntryParamsSplit(j: Json, arr: int, from: int, n: int)
    requires Tokenized(j) && from < n
    ensures EntryParams(j, arr, from, n) == [ParamAt(j, EntryAt(arr, from))] + EntryParams(j, arr, from + 1, n)
  {
    var all := EntryParams(j, arr, from, n);
    var rest := EntryParams(j, arr, from + 1, n);
    forall t | 0 <= t < n - from - 1
      ensures all[t + 1] == rest[t]
    {
      assert from + (t + 1) == from + 1 + t;
    }
  }

  /**
   * An accepted params array yields its entries' parameters in order, and
   * the loop ends on the last entry's value token.
   */
  lemma {:induction false} ParamEntriesValue(j: Json, arr: int, done: nat, n: int, acc: seq<RawParam>, st: State)
    requires Tokenized(j) && done <= n
    requires ParamEntries(j, EntryAt(arr, done) - 1, done, n, acc, st).Parsed?
    ensures var r := ParamEntries(j, EntryAt(arr, done) - 1, done, n, acc, st);
      r.next == EntryAt(arr, n) - 1 && r.value == acc + EntryParams(j, arr, done, n)
    decreases n - done
  {
    if done < n {
      var last := EntryAt(arr, done) - 1;
      assert EntryAt(arr, done + 1) - 1 == last + 3;
      var p := ParamAt(j, last + 1);
      assert ParamEntries(j, last, done, n, acc, st) == ParamEntries(j, last + 3, done + 1, n, acc + [p], st);
      ParamEntriesValue(j, arr, done + 1, n, acc + [p], st);
      EntryParamsSplit(j, arr, done, n);
      AppendAssoc(acc, [p], EntryParams(j, arr, done + 1, n));
    } else {
      assert EntryParams(j, arr, done, n) == [];
    }
  }

  // ---------------------------------------------------------------- submodules

  /** A submodule tree as parse_submodule builds it: a rooted product names its root, no other does; an else comes with a then. */
  predicate WellShaped(s: Submodule)
  {
    match s
    case Instance(_, _, _, _) => true
    case Product(a, b, kind, root) => (root.Some? <==> kind == Rooted) && WellShaped(a) && WellShaped(b)
    case SubmoduleCond(_, t, e) =>
      (e.Some? ==> t.Some?)
      && (match t case Some(x) => WellShaped(x) case None => true)
      && (match e case Some(x) => WellShaped(x) case None => true)
  }

  /**
   * parse_submodule: an object of one key (or of two whose first key is
   * "root" or "rooted") is a product, one of two or three whose first key
   * is if, then or else a conditional, anything else a plain submodule.
   */
  function ParseSubmodule(j: Json, i: int): (r: Parsed<Submodule>)
    requires Tokenized(j) && 0 <= i < |j.toks|
    decreases |j.toks| - i, 2, 0
    ensures r.Parsed? ==> r.next > i && WellShaped(r.value)
    ensures r.Parsed? && j.toks[i].size == 1 ==> r.value.Product?
  {
    var n := j.toks[i].size;
    if n == 1 || (n == 2 && (Key(j, i + 1, "rooted") || Key(j, i + 1, "root"))) then
      ParseProduct(j, i)
    else if (n == 2 || n == 3) && (Key(j, i + 1, "if") || Key(j, i + 1, "then") || Key(j, i + 1, "else")) then
      SubmoduleCondEntries(j, i, 0, n, i + 1, SubmoduleCond(None, None, None))
    else
      InstanceEntries(j, 0, n, i + 1, Instance(None, None, None, None))
  }

  /** The product kind a key names; "root" and "rooted" both name the rooted product. */
  function ProductKindOf(j: Json, k: int): Option<ProductKind>
    requires Tokenized(j)
  {
    if Key(j, k, "cartesian") then Some(Cartesian)
    else if Key(j, k, "tensor") then Some(Tensor)
    else if Key(j, k, "lexicographical") then Some(Lexicographical)
    else if Key(j, k, "strong") then Some(Strong)
    else if Key(j, k, "root") || Key(j, k, "rooted") then Some(Rooted)
    else None
  }

  /** The product branch up to its operands: the kind, and a root given before "rooted". */
  function ParseProduct(j: Json, i: int): (r: Parsed<Submodule>)
    requires Tokenized(j) && 0 <= i < |j.toks|
    decreases |j.toks| - i, 1, 0
    ensures r.Parsed? ==> r.next > i && r.value.Product? && WellShaped(r.value)
  {
    var at := i + 1;
    match ProductKindOf(j, at)
    case None => Bad(at, InSubmodule)
    case Some(kind) =>
      if Key(j, at, "root") then
        if Tok(j, at + 1).typ != String then Bad(at + 1, InSubmodule)
        else if !Key(j, at + 2, "rooted") then Bad(at + 2, InSubmodule)
        else ProductOperands(j, i, at + 2, kind, Some(Copy(j, at + 1)))
      else ProductOperands(j, i, at, kind, None)
  }

  /**
   * The operands of a product: an array of exactly two submodule objects
   * after the key at `at`; a rooted product whose root was not given first
   * must be followed by a "root" key with a string value.
   */
  function ProductOperands(j: Json, i: int, at: int, kind: ProductKind, root: Option<string>): (r: Parsed<Submodule>)
    requires Tokenized(j) && 0 <= i < |j.toks| && i < at
    requires root.Some? ==> kind == Rooted
    decreases |j.toks| - i, 0, 0
    ensures r.Parsed? ==> r.next > i && r.value.Product? && WellShaped(r.value)
  {
    var arr := at + 1;
    if Tok(j, arr).typ != Array || Tok(j, arr).size != 2 then Bad(arr, InSubmodule)
    else if Tok(j, arr + 1).typ != Object then Bad(arr + 1, InSubmodule)
    else match ParseSubmodule(j, arr + 1)
      case Bad(b, st) => Bad(b, st)
      case Parsed(a, atB) =>
        if Tok(j, atB).typ != Object then Bad(atB, InSubmodule)
        else match ParseSubmodule(j, atB)
          case Bad(b, st) => Bad(b, st)
          case Parsed(b, after) =>
            if kind == Rooted && root.None? then
              if !Key(j, after, "root") || Tok(j, after + 1).typ != String then Bad(after, InSubmodule)
              else Parsed(Product(a, b, kind, Some(Copy(j, after + 1))), after + 2)
            else Parsed(Product(a, b, kind, root), after)
  }

  /** The keys of a conditional submodule: "if" once, "then" once, "else" once and only after "then". */
  function SubmoduleCondEntries(j: Json, i0: int, k: nat, n: int, at: int, acc: Submodule): (r: Parsed<Submodule>)
    requires Tokenized(j) && 0 <= i0 < |j.toks| && i0 < at
    requires acc.SubmoduleCond? && WellShaped(acc)
    decreases |j.toks| - i0, 0, n - k
    ensures r.Parsed? ==> r.next >= at && r.value.SubmoduleCond? && WellShaped(r.value)
  {
    if k >= n then Parsed(acc, at)
    else if Key(j, at, "if") then
      if acc.condition.Some? then Bad(at, InSubmodule)
      else SubmoduleCondEntries(j, i0, k + 1, n, at + 2, acc.(condition := Some(Copy(j, at + 1))))
    else if Key(j, at, "then") then
      var t := at + 1;
      if Tok(j, t).typ != Object || acc.subThen.Some? then Bad(t, InSubmodule)
      else match ParseSubmodule(j, t)
        case Bad(b, st) => Bad(b, st)
        case Parsed(s, next) => SubmoduleCondEntries(j, i0, k + 1, n, next, acc.(subThen := Some(s)))
    else if Key(j, at, "else") then
      if acc.subThen.None? then Bad(at, InSubmodule)
      else
        var t := at + 1;
        if Tok(j, t).typ != Object || acc.subElse.Some? then Bad(t, InSubmodule)
        else match ParseSubmodule(j, t)
          case Bad(b, st) => Bad(b, st)
          case Parsed(s, next) => SubmoduleCondEntries(j, i0, k + 1, n, next, acc.(subElse := Some(s)))
    else Bad(at, InSubmodule)
  }

  /** The keys of a plain submodule: name, module and size once each, and a params array. */
  function InstanceEntries(j: Json, k: nat, n: int, at: int, acc: Submodule): (r: Parsed<Submodule>)
    requires Tokenized(j) && acc.Instance?
    decreases n - k
    ensures r.Parsed? ==> r.next >= at && r.value.Instance?
  {
    if k >= n then Parsed(acc, at)
    else if Key(j, at, "name") then
      if acc.name.Some? then Bad(at, InSubmodule)
      else InstanceEntries(j, k + 1, n, at + 2, acc.(name := Some(Copy(j, at + 1))))
    else if Key(j, at, "module") then
      if acc.moduleName.Some? then Bad(at, InSubmodule)
      else InstanceEntries(j, k + 1, n, at + 2, acc.(moduleName := Some(Copy(j, at + 1))))
    else if Key(j, at, "size") then
      if acc.size.Some? then Bad(at, InSubmodule)
      else InstanceEntries(j, k + 1, n, at + 2, acc.(size := Some(Copy(j, at + 1))))
    else if Key(j, at, "params") then
      var arr := at + 1;
      if Tok(j, arr).typ != Array then Bad(arr, InSubmodule)
      else if acc.params.Some? then Bad(arr, SubmoduleParams)
      else match ParamEntries(j, arr, 0, Tok(j, arr).size, [], SubmoduleParams)
        case Bad(b, st) => Bad(b, st)
        case Parsed(ps, last) => InstanceEntries(j, k + 1, n, last + 1, acc.(params := Some(ps)))
    else Bad(at, InSubmodule)
  }

  // ---------------------------------------------------------------- replace

  /** parse_replace: an object of exactly the two keys "nodes" and "with". */
  function ParseReplace(j: Json, i: int): (r: Parsed<Replace>)
    requires Tokenized(j) && 0 <= i < |j.toks|
    ensures j.toks[i].size != 2 ==> r == Bad(i, InReplace)
    ensures r.Parsed? ==> (r.next > i && (r.value.submodule.Some? ==> WellShaped(r.value.submodule.value)))
  {
    if j.toks[i].size != 2 then Bad(i, InReplace)
    else ReplaceEntries(j, 0, 2, i + 1, Replace(None, None))
  }

  function ReplaceEntries(j: Json, k: nat, n: int, at: int, acc: Replace): (r: Parsed<Replace>)
    requires Tokenized(j)
    requires acc.submodule.Some? ==> WellShaped(acc.submodule.value)
    decreases n - k
    ensures r.Parsed? ==> (r.next >= at && (r.value.submodule.Some? ==> WellShaped(r.value.submodule.value)))
  {
    if k >= n then Parsed(acc, at)
    else if Key(j, at, "nodes") then
      if acc.nodes.Some? then Bad(at, InReplace)
      else ReplaceEntries(j, k + 1, n, at + 2, acc.(nodes := Some(Copy(j, at + 1))))
    else if Key(j, at, "with") then
      var t := at + 1;
      if Tok(j, t).typ != Object || acc.submodule.Some? then Bad(t, InReplace)
      else match ParseSubmodule(j, t)
        case Bad(b, st) => Bad(b, st)
        case Parsed(s, next) => ReplaceEntries(j, k + 1, n, next, acc.(submodule := Some(s)))
    else Bad(at, InReplace)
  }

  // ---------------------------------------------------------------- connections

  /** A connection tree as parse_connection builds it: an else comes with a then, at every level. */
  predicate ConnectionShaped(c: Connection)
  {
    match c
    case Loop(_, _, _, body) => (match body case Some(x) => ConnectionShaped(x) case None => true)
    case ConnectionCond(_, t, e) =>
      (e.Some? ==> t.Some?)
      && (match t case Some(x) => ConnectionShaped(x) case None => true)
      && (match e case Some(x) => ConnectionShaped(x) case None => true)
    case _ => true
  }

  /** The key naming a series connection's variable. */
  function SeriesVarKey(kind: SeriesKind): string
  {
    match kind
    case AllList => "all"
    case Line => "line"
    case Ring => "ring"
  }

  /**
   * Which of "ring", "line" and "all" names the kind of a connection of four
   * or five keys: the keys are examined from the first, and the scan stops
   * at a key whose value is an object (a loop's body), after which the key
   * positions are not known.  None leaves it a loop.
   */
  function SeriesKindOf(j: Json, at: int, t: nat, n: int): (r: Option<SeriesKind>)
    requires Tokenized(j)
    decreases n - t
    ensures r.Some? ==> exists u :: t <= u < n && Key(j, at + 2 * u, SeriesVarKey(r.value))
  {
    if t >= n then None
    else
      var key := at + 2 * t;
      if Tok(j, key + 1).typ == Object then None
      else if Key(j, key, "ring") then Some(Ring)
      else if Key(j, key, "line") then Some(Line)
      else if Key(j, key, "all") then Some(AllList)
      else SeriesKindOf(j, at, t + 1, n)
  }

  /** The same scan as written in parse_connection: the key index never advances, so only the first key is seen. */
  function SeriesKindAsWritten(j: Json, at: int, t: nat, n: int): Option<SeriesKind>
    requires Tokenized(j)
    decreases n - t
  {
    if t >= n then None
    else if Tok(j, at + 1).typ == Object then None
    else if Key(j, at, "ring") then Some(Ring)
    else if Key(j, at, "line") then Some(Line)
    else if Key(j, at, "all") then Some(AllList)
    else SeriesKindAsWritten(j, at, t + 1, n)
  }

  /**
   * The scan as written sees the first key only: whatever the later keys,
   * it answers what the corrected scan answers for the first key alone.
   */
  lemma {:induction false} ScanSeesFirstKeyOnly(j: Json, at: int, t: nat, n: int)
    requires Tokenized(j) && t < n
    ensures SeriesKindAsWritten(j, at, t, n) == SeriesKindOf(j, at, 0, 1)
    decreases n - t
  {
    assert SeriesKindOf(j, at, 1, 1) == None;
    if !(Tok(j, at + 1).typ == Object || Key(j, at, "ring") || Key(j, at, "line") || Key(j, at, "all")) && t + 1 < n {
      ScanSeesFirstKeyOnly(j, at, t + 1, n);
    }
  }

  /**
   * The two scans agree exactly when the first key settles the matter
   * (its value is an object or it names a kind) or no later key before an
   * object value names a kind; otherwise the written scan says loop where
   * the corrected one names a kind.
   */
  lemma ScansAgreeIff(j: Json, at: int, n: int)
    requires Tokenized(j) && n >= 1
    ensures SeriesKindAsWritten(j, at, 0, n) == SeriesKindOf(j, at, 0, 1)
    ensures SeriesKindOf(j, at, 0, n) ==
      if Tok(j, at + 1).typ == Object || SeriesKindOf(j, at, 0, 1).Some? then SeriesKindOf(j, at, 0, 1)
      else SeriesKindOf(j, at, 1, n)
    ensures SeriesKindAsWritten(j, at, 0, n) == SeriesKindOf(j, at, 0, n) <==>
      Tok(j, at + 1).typ == Object || SeriesKindOf(j, at, 0, 1).Some? || SeriesKindOf(j, at, 1, n).None?
  {
    ScanSeesFirstKeyOnly(j, at, 0, n);
    assert SeriesKindOf(j, at, 1, 1) == None;
  }

  /**
   * parse_connection: at most five keys; two or three starting with from,
   * to or attributes make a link, with if, then or else a conditional; four
   * or five a loop or a series, told apart by the scan as written (only the
   * first key is examined); one or two starting with all-match an
   * all-match connection.
   */
  function ParseConnection(j: Json, i: int): (r: Parsed<Connection>)
    requires Tokenized(j) && 0 <= i < |j.toks|
    decreases |j.toks| - i, 2, 0
    ensures j.toks[i].size > 5 ==> r == Bad(i, InConnection)
    ensures r.Parsed? ==> r.next > i && ConnectionShaped(r.value)
    ensures r.Parsed? && r.value.Series? ==> SeriesKindOf(j, i + 1, 0, 1) == Some(r.value.kind)
  {
    var n := j.toks[i].size;
    var at := i + 1;
    if n > 5 then Bad(i, InConnection)
    else if (n == 2 || n == 3) && (Key(j, at, "attributes") || Key(j, at, "from") || Key(j, at, "to")) then
      LinkEntries(j, 0, n, at, Link(None, None, None))
    else if (n == 2 || n == 3) && (Key(j, at, "if") || Key(j, at, "then") || Key(j, at, "else")) then
      ConnectionCondEntries(j, i, 0, n, at, ConnectionCond(None, None, None))
    else if n == 4 || n == 5 then
      ScanSeesFirstKeyOnly(j, at, 0, n);
      match SeriesKindAsWritten(j, at, 0, n)
      case None => LoopEntries(j, i, 0, n, at, Loop(None, None, None, None))
      case Some(kind) => SeriesEntries(j, 0, n, at, Series(kind, None, None, None, None, None))
    else if (n == 1 || n == 2) && (Key(j, at, "all-match") || (Key(j, at, "attributes") && Key(j, at, "all-match"))) then
      AllMatchEntries(j, 0, n, at, AllMatch(None, None))
    else Bad(at, InConnection)
  }

  /** The keys of a link: from, to and attributes once each. */
  function LinkEntries(j: Json, k: nat, n: int, at: int, acc: Connection): (r: Parsed<Connection>)
    requires Tokenized(j) && acc.Link?
    decreases n - k
    ensures r.Parsed? ==> r.next >= at && r.value.Link?
  {
    if k >= n then Parsed(acc, at)
    else if Key(j, at, "from") then
      if acc.from.Some? then Bad(at, InConnection)
      else LinkEntries(j, k + 1, n, at + 2, Link(Some(Copy(j, at + 1)), acc.to, acc.attributes))
    else if Key(j, at, "to") then
      if acc.to.Some? then Bad(at, InConnection)
      else LinkEntries(j, k + 1, n, at + 2, Link(acc.from, Some(Copy(j, at + 1)), acc.attributes))
    else if Key(j, at, "attributes") then
      if acc.attributes.Some? then Bad(at, InConnection)
      else LinkEntries(j, k + 1, n, at + 2, Link(acc.from, acc.to, Some(Copy(j, at + 1))))
    else Bad(at, InConnection)
  }

  /** The keys of a conditional connection: "if" once, "then" once, "else" once and only after "then". */
  function ConnectionCondEntries(j: Json, i0: int, k: nat, n: int, at: int, acc: Connection): (r: Parsed<Connection>)
    requires Tokenized(j) && 0 <= i0 < |j.toks| && i0 < at
    requires acc.ConnectionCond? && ConnectionShaped(acc)
    decreases |j.toks| - i0, 0, n - k
    ensures r.Parsed? ==> r.next >= at && r.value.ConnectionCond? && ConnectionShaped(r.value)
  {
    if k >= n then Parsed(acc, at)
    else if Key(j, at, "if") then
      if acc.condition.Some? then Bad(at, InConnection)
      else ConnectionCondEntries(j, i0, k + 1, n, at + 2, ConnectionCond(Some(Copy(j, at + 1)), acc.connThen, acc.connElse))
    else if Key(j, at, "then") then
      var t := at + 1;
      if Tok(j, t).typ != Object || acc.connThen.Some? then Bad(t, InConnection)
      else match ParseConnection(j, t)
        case Bad(b, st) => Bad(b, st)
        case Parsed(c, next) => ConnectionCondEntries(j, i0, k + 1, n, next, ConnectionCond(acc.condition, Some(c), acc.connElse))
    else if Key(j, at, "else") then
      if acc.connThen.None? then Bad(at, InConnection)
      else
        var t := at + 1;
        if Tok(j, t).typ != Object || acc.connElse.Some? then Bad(t, InConnection)
        else match ParseConnection(j, t)
          case Bad(b, st) => Bad(b, st)
          case Parsed(c, next) => ConnectionCondEntries(j, i0, k + 1, n, next, ConnectionCond(acc.condition, acc.connThen, Some(c)))
    else Bad(at, InConnection)
  }

  /** The keys of a loop: start, end and loop once each, and its body under "conn". */
  function LoopEntries(j: Json, i0: int, k: nat, n: int, at: int, acc: Connection): (r: Parsed<Connection>)
    requires Tokenized(j) && 0 <= i0 < |j.toks| && i0 < at
    requires acc.Loop? && ConnectionShaped(acc)
    decreases |j.toks| - i0, 0, n - k
    ensures r.Parsed? ==> r.next >= at && r.value.Loop? && ConnectionShaped(r.value)
  {
    if k >= n then Parsed(acc, at)
    else if Key(j, at, "start") then
      if acc.start.Some? then Bad(at, InConnection)
      else LoopEntries(j, i0, k + 1, n, at + 2, Loop(acc.loopVar, Some(Copy(j, at + 1)), acc.end, acc.body))
    else if Key(j, at, "end") then
      if acc.end.Some? then Bad(at, InConnection)
      else LoopEntries(j, i0, k + 1, n, at + 2, Loop(acc.loopVar, acc.start, Some(Copy(j, at + 1)), acc.body))
    else if Key(j, at, "loop") then
      if acc.loopVar.Some? then Bad(at, InConnection)
      else LoopEntries(j, i0, k + 1, n, at + 2, Loop(Some(Copy(j, at + 1)), acc.start, acc.end, acc.body))
    else if Key(j, at, "conn") then
      var t := at + 1;
      if Tok(j, t).typ != Object || acc.body.Some? then Bad(t, InConnection)
      else match ParseConnection(j, t)
        case Bad(b, st) => Bad(b, st)
        case Parsed(c, next) => LoopEntries(j, i0, k + 1, n, next, Loop(acc.loopVar, acc.start, acc.end, Some(c)))
    else Bad(at, InConnection)
  }

  /** The keys of a ring, line or all-list: start, end, the variable, the nodes under "conn" and attributes, once each. */
  function SeriesEntries(j: Json, k: nat, n: int, at: int, acc: Connection): (r: Parsed<Connection>)
    requires Tokenized(j) && acc.Series?
    decreases n - k
    ensures r.Parsed? ==> r.next >= at && r.value.Series? && r.value.kind == acc.kind
  {
    if k >= n then Parsed(acc, at)
    else if Key(j, at, "start") then
      if acc.start.Some? then Bad(at, InConnection)
      else SeriesEntries(j, k + 1, n, at + 2, Series(acc.kind, acc.seriesVar, Some(Copy(j, at + 1)), acc.end, acc.nodes, acc.attributes))
    else if Key(j, at, "end") then
      if acc.end.Some? then Bad(at, InConnection)
      else SeriesEntries(j, k + 1, n, at + 2, Series(acc.kind, acc.seriesVar, acc.start, Some(Copy(j, at + 1)), acc.nodes, acc.attributes))
    else if Key(j, at, SeriesVarKey(acc.kind)) then
      if acc.seriesVar.Some? then Bad(at, InConnection)
      else SeriesEntries(j, k + 1, n, at + 2, Series(acc.kind, Some(Copy(j, at + 1)), acc.start, acc.end, acc.nodes, acc.attributes))
    else if Key(j, at, "conn") then
      if acc.nodes.Some? then Bad(at, InConnection)
      else SeriesEntries(j, k + 1, n, at + 2, Series(acc.kind, acc.seriesVar, acc.start, acc.end, Some(Copy(j, at + 1)), acc.attributes))
    else if Key(j, at, "attributes") then
      if acc.attributes.Some? then Bad(at, InConnection)
      else SeriesEntries(j, k + 1, n, at + 2, Series(acc.kind, acc.seriesVar, acc.start, acc.end, acc.nodes, Some(Copy(j, at + 1))))
    else Bad(at, InConnection)
  }

  /** The keys of an all-match connection: all-match and attributes once each. */
  function AllMatchEntries(j: Json, k: nat, n: int, at: int, acc: Connection): (r: Parsed<Connection>)
    requires Tokenized(j) && acc.AllMatch?
    decreases n - k
    ensures r.Parsed? ==> r.next >= at && r.value.AllMatch?
  {
    if k >= n then Parsed(acc, at)
    else if Key(j, at, "all-match") then
      if acc.nodes.Some? then Bad(at, InConnection)
      else AllMatchEntries(j, k + 1, n, at + 2, AllMatch(Some(Copy(j, at + 1)), acc.attributes))
    else if Key(j, at, "attributes") then
      if acc.attributes.Some? then Bad(at, InConnection)
      else AllMatchEntries(j, k + 1, n, at + 2, AllMatch(acc.nodes, Some(Copy(j, at + 1))))
    else Bad(at, InConnection)
  }
}

/**
 * parse_connection decides between a loop and a ring, line or all-list by
 * a scan whose key index never advances, so a series connection is only
 * recognised when its variable key comes first.
 */
module SeriesScan {
  import opened Basics
  import opened Defs
  import opened Tokens
  import opened Parser

  /** The tokens of `{"start":"0","end":"3","ring":"i","conn":"n[i]"}`. */
  function RingExample(): (j: Json)
    ensures Tokenized(j)
  {
    Json("{\"start\"" + ":\"0\"," + "\"end\"" + ":\"3\"," + "\"ring\"" + ":\"i\"," + "\"conn\"" + ":\"n[i]\"}",
      [Token(Object, 0, 48, 4),
       Token(String, 2, 7, 1), Token(String, 10, 11, 0),
       Token(String, 14, 17, 1), Token(String, 20, 21, 0),
       Token(String, 24, 28, 1), Token(String, 31, 32, 0),
       Token(String, 35, 39, 1), Token(String, 42, 46, 0)])
  }

  lemma RingExampleText()
    ensures var t := RingExample().text;
      t[2..7] == "start" && t[14..17] == "end" && t[24..28] == "ring" && t[35..39] == "conn"
  {
  }

  /** The example's first key is "start" and none of the series keys. */
  lemma RingExampleFirstKey()
    ensures var j := RingExample();
      Key(j, 1, "start") && !Key(j, 1, "ring") && !Key(j, 1, "line") && !Key(j, 1, "all")
      && !Key(j, 1, "loop") && !Key(j, 1, "end")
  {
    var j := RingExample();
    RingExampleText();
    JsonStrEqIff(j.text, j.toks[1], "start");
  }

  /** The example's second key is "end". */
  lemma RingExampleSecondKey()
    ensures var j := RingExample();
      Key(j, 3, "end") && !Key(j, 3, "ring") && !Key(j, 3, "line") && !Key(j, 3, "all")
      && !Key(j, 3, "start") && !Key(j, 3, "loop")
  {
    var j := RingExample();
    RingExampleText();
    JsonStrEqIff(j.text, j.toks[3], "end");
    JsonStrEqIff(j.text, j.toks[3], "all");
  }

  /** The example's third key is "ring". */
  lemma RingExampleThirdKey()
    ensures var j := RingExample();
      Key(j, 5, "ring") && !Key(j, 5, "start") && !Key(j, 5, "end") && !Key(j, 5, "loop") && !Key(j, 5, "conn")
  {
    var j := RingExample();
    RingExampleText();
    JsonStrEqIff(j.text, j.toks[5], "ring");
    JsonStrEqIff(j.text, j.toks[5], "loop");
    JsonStrEqIff(j.text, j.toks[5], "conn");
  }

  /** The example's fourth key is "conn". */
  lemma RingExampleFourthKey()
    ensures var j := RingExample();
      Key(j, 7, "conn") && !Key(j, 7, "start") && !Key(j, 7, "end") && !Key(j, 7, "ring")
  {
    var j := RingExample();
    RingExampleText();
    JsonStrEqIff(j.text, j.toks[7], "conn");
    JsonStrEqIff(j.text, j.toks[7], "ring");
  }

  /**
   * The four- and five-key branch of parse_connection with the corrected
   * scan: the kind comes from every key before an object value.
   */
  function LoopOrSeriesCorrected(j: Json, i: int): (r: Parsed<Connection>)
    requires Tokenized(j) && 0 <= i < |j.toks| && (j.toks[i].size == 4 || j.toks[i].size == 5)
    ensures r.Parsed? ==> r.next > i && ConnectionShaped(r.value)
    ensures r.Parsed? && r.value.Series? ==> SeriesKindOf(j, i + 1, 0, j.toks[i].size) == Some(r.value.kind)
  {
    var n := j.toks[i].size;
    match SeriesKindOf(j, i + 1, 0, n)
    case None => LoopEntries(j, i, 0, n, i + 1, Loop(None, None, None, None))
    case Some(kind) => SeriesEntries(j, 0, n, i + 1, Series(kind, None, None, None, None, None))
  }

  /**
   * As written, a ring whose first key is "start" is read as a loop and
   * then refused at its "ring" key; the scan over every key before an
   * object value recognises it as a ring, and the ring parses.
   */
  lemma RingNotFirstRefusedAsWritten()
    ensures SeriesKindAsWritten(RingExample(), 1, 0, 4) == None
    ensures ParseConnection(RingExample(), 0) == Bad(5, InConnection)
    ensures SeriesKindOf(RingExample(), 1, 0, 4) == Some(Ring)
    ensures LoopOrSeriesCorrected(RingExample(), 0).Parsed?
  {
    RingFirstKeyOnly();
    RingReadAsLoop();
    RingScanned();
    RingParsed();
  }

  /** The scan as written sees only the first key, "start", and finds no series kind. */
  lemma RingFirstKeyOnly()
    ensures SeriesKindAsWritten(RingExample(), 1, 0, 4) == None
  {
    RingExampleFirstKey();
  }

  /** parse_connection as written reads the example as a loop and refuses it at its "ring" key. */
  lemma RingReadAsLoop()
    ensures LoopEntries(RingExample(), 0, 0, 4, 1, Loop(None, None, None, None)) == Bad(5, InConnection)
    ensures ParseConnection(RingExample(), 0) == Bad(5, InConnection)
  {
    RingFirstKeyOnly();
    RingExampleFirstKey();
    RingExampleSecondKey();
    RingExampleThirdKey();
  }

  /** The scan over every key finds "ring" at the third. */
  lemma RingScanned()
    ensures SeriesKindOf(RingExample(), 1, 0, 4) == Some(Ring)
  {
    RingExampleFirstKey();
    RingExampleSecondKey();
    RingExampleThirdKey();
  }

  /** With the kind found by the corrected scan, the example parses as a ring. */
  lemma RingParsed()
    ensures LoopOrSeriesCorrected(RingExample(), 0).Parsed?
    ensures LoopOrSeriesCorrected(RingExample(), 0).value.Series?
  {
    RingScanned();
    RingEntries();
  }

  /** The example's four keys read as a ring's. */
  lemma RingEntries()
    ensures SeriesEntries(RingExample(), 0, 4, 1, Series(Ring, None, None, None, None, None)).Parsed?
  {
    RingEntriesFrom(0, Series(Ring, None, None, None, None, None));
  }

  /** From its k-th key on, the example reads as a ring's whose later keys are not yet set. */
  lemma {:induction false} RingEntriesFrom(k: nat, acc: Connection)
    requires k <= 4 && acc.Series? && acc.kind == Ring
    requires k <= 0 ==> acc.start.None?
    requires k <= 1 ==> acc.end.None?
    requires k <= 2 ==> acc.seriesVar.None?
    requires k <= 3 ==> acc.nodes.None?
    ensures SeriesEntries(RingExample(), k, 4, 1 + 2 * k, acc).Parsed?
    decreases 4 - k
  {
    var j := RingExample();
    if k == 0 {
      RingExampleFirstKey();
      RingEntriesFrom(1, Series(Ring, acc.seriesVar, Some(Copy(j, 2)), acc.end, acc.nodes, acc.attributes));
    } else if k == 1 {
      RingExampleSecondKey();
      RingEntriesFrom(2, Series(Ring, acc.seriesVar, acc.start, Some(Copy(j, 4)), acc.nodes, acc.attributes));
    } else if k == 2 {
      RingExampleThirdKey();
      RingEntriesFrom(3, Series(Ring, Some(Copy(j, 6)), acc.start, acc.end, acc.nodes, acc.attributes));
    } else if k == 3 {
      RingExampleFourthKey();
      RingEntriesFrom(4, Series(Ring, acc.seriesVar, acc.start, acc.end, Some(Copy(j, 8)), acc.attributes));
    }
  }
}
