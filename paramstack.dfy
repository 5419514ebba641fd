/**
 * The parameter stack of param_stack.c: the bindings in scope while a
 * module is expanded, newest on top, and the evaluation of expressions
 * and of connection names against them.
 *
 * tinyexpr (te_compile/te_eval) is not part of this model: an Evaluator is
 * any function from an expression and the visible variables, newest
 * first, to a value, or None where te_compile fails.
 */
module ParamStack {
  import opened Basics
  import opened Defs

  const PARAM_BLK_SIZE := 32

  /** A binding; value None while a parameter's own expression is evaluated or after it failed. */
  datatype Param = Param(name: string, value: Option<real>)

  type Evaluator = (string, seq<Param>) -> Option<real>

  /** lrint in the default rounding mode: to the nearest integer, ties to even. */
  function Lrint(x: real): (r: int)
    ensures r as real - 0.5 <= x <= r as real + 0.5
    ensures (x == r as real - 0.5 || x == r as real + 0.5) ==> r % 2 == 0
  {
    var f := x.Floor;
    var d := x - f as real;
    if d < 0.5 then f else if d > 0.5 then f + 1 else if f % 2 == 0 then f else f + 1
  }

  function Names(ps: seq<Param>): (r: seq<string>)
    ensures |r| == |ps| && forall k :: 0 <= k < |ps| ==> r[k] == ps[k].name
  {
    seq(|ps|, k requires 0 <= k < |ps| => ps[k].name)
  }

  /** Some listed index holds this name. */
  predicate Listed(names: seq<string>, vars: seq<nat>, name: string)
  {
    exists t :: 0 <= t < |vars| && vars[t] < |names| && names[vars[t]] == name
  }

  /**
   * The whole-name list: the indices param_stack_to_te_vars would list after
   * visiting the k newest bindings if its duplicate test compared whole
   * names, newest first.  The code tests prefixes instead (TeVarsAsWritten);
   * this list is the reference it is compared with.
   */
  function TeVars(names: seq<string>, k: nat): (r: seq<nat>)
    requires k <= |names|
    ensures forall t :: 0 <= t < |r| ==> |names| - k <= r[t] < |names|
  {
    if k == 0 then []
    else
      var prev := TeVars(names, k - 1);
      var i := |names| - k;
      if Listed(names, prev, names[i]) then prev else prev + [i]
  }

  /**
   * A binding is listed exactly when it is the newest of its name; a name
   * is listed exactly when some visited binding has it.
   */
  lemma {:induction false} TeVarsNewestWins(names: seq<string>, k: nat)
    requires k <= |names|
    ensures forall i :: 0 <= i < |names| ==>
      (i in TeVars(names, k) <==> |names| - k <= i && forall i' :: i < i' < |names| ==> names[i'] != names[i])
  {
    if k > 0 {
      TeVarsNewestWins(names, k - 1);
      TeVarsListsVisitedNames(names, k - 1);
      var prev := TeVars(names, k - 1);
      var i := |names| - k;
      var r := TeVars(names, k);
      assert r == if Listed(names, prev, names[i]) then prev else prev + [i];
      forall j | 0 <= j < |names|
        ensures j in r <==> |names| - k <= j && forall i' :: j < i' < |names| ==> names[i'] != names[j]
      {
        if j == i {
          if Listed(names, prev, names[i]) {
            var i0 :| |names| - (k - 1) <= i0 < |names| && names[i0] == names[i];
            assert i !in prev;
          } else {
            assert r[|prev|] == i;
          }
        } else {
          assert j in r <==> j in prev;
        }
      }
    }
  }

  /** A name is listed exactly when some visited binding has it. */
  lemma {:induction false} TeVarsListsVisitedNames(names: seq<string>, k: nat)
    requires k <= |names|
    ensures forall x :: Listed(names, TeVars(names, k), x) <==> exists i :: |names| - k <= i < |names| && names[i] == x
  {
    if k > 0 {
      TeVarsListsVisitedNames(names, k - 1);
      var prev := TeVars(names, k - 1);
      var i := |names| - k;
      if !Listed(names, prev, names[i]) {
        var r := prev + [i];
        forall x | Listed(names, r, x)
          ensures exists i0 :: |names| - k <= i0 < |names| && names[i0] == x
        {
          var t :| 0 <= t < |r| && r[t] < |names| && names[r[t]] == x;
          if t < |prev| {
            assert Listed(names, prev, x);
          }
        }
        forall x | exists i0 :: |names| - k <= i0 < |names| && names[i0] == x
          ensures Listed(names, r, x)
        {
          var i0 :| |names| - k <= i0 < |names| && names[i0] == x;
          if i0 == i {
            assert r[|prev|] == i;
          } else {
            assert Listed(names, prev, x);
            var t :| 0 <= t < |prev| && prev[t] < |names| && names[prev[t]] == x;
            assert r[t] == prev[t];
          }
        }
      }
    }
  }

  /** The list is newest first and names no binding twice. */
  lemma {:induction false} TeVarsNewestFirst(names: seq<string>, k: nat)
    requires k <= |names|
    ensures forall s, t :: 0 <= s < t < |TeVars(names, k)| ==> TeVars(names, k)[s] > TeVars(names, k)[t]
  {
    if k > 0 {
      TeVarsNewestFirst(names, k - 1);
    }
  }

  /** With at least one binding, the newest one heads the list. */
  lemma {:induction false} NewestListedFirst(names: seq<string>, k: nat)
    requires 1 <= k <= |names|
    ensures |TeVars(names, k)| >= 1 && TeVars(names, k)[0] == |names| - 1
  {
    if k > 1 {
      NewestListedFirst(names, k - 1);
    }
  }

  /**
   * strncmp(name, listed, strlen(name)) == 0: the name is a prefix of the
   * listed name (a longer name meets the listed one's NUL first).
   */
  /** strncmp(x, y, strlen(x)) == 0 on C strings: x is a prefix of y. */
  predicate IsPrefix(x: string, y: string)
  {
    |x| <= |y| && x == y[..|x|]
  }

  predicate ListedAsWritten(names: seq<string>, vars: seq<nat>, name: string)
  {
    exists t :: 0 <= t < |vars| && vars[t] < |names| && IsPrefix(name, names[vars[t]])
  }

  /**
   * The indices param_stack_to_te_vars lists after visiting the k newest
   * bindings, newest first: a binding is skipped when its name is a prefix
   * of a name already listed.
   */
  function TeVarsAsWritten(names: seq<string>, k: nat): (r: seq<nat>)
    requires k <= |names|
    ensures forall t :: 0 <= t < |r| ==> |names| - k <= r[t] < |names|
  {
    if k == 0 then []
    else
      var prev := TeVarsAsWritten(names, k - 1);
      var i := |names| - k;
      if ListedAsWritten(names, prev, names[i]) then prev else prev + [i]
  }

  /** One turn of the outer loop: binding i is skipped exactly when its name is a prefix of a listed one. */
  lemma TeVarsAsWrittenStep(names: seq<string>, k: nat)
    requires 1 <= k <= |names|
    ensures var prev := TeVarsAsWritten(names, k - 1); var r := TeVarsAsWritten(names, k);
      (r == prev <==> ListedAsWritten(names, prev, names[|names| - k])) &&
      (r != prev ==> r == prev + [|names| - k])
  {
  }

  /** Every visited binding's name is a prefix of some listed binding's name. */
  lemma {:induction false} TeVarsAsWrittenCovers(names: seq<string>, k: nat, j: int)
    requires k <= |names| && |names| - k <= j < |names|
    ensures ListedAsWritten(names, TeVarsAsWritten(names, k), names[j])
  {
    TeVarsAsWrittenStep(names, k);
    var prev := TeVarsAsWritten(names, k - 1);
    var r := TeVarsAsWritten(names, k);
    if j != |names| - k {
      TeVarsAsWrittenCovers(names, k - 1, j);
      ListedGrows(names, prev, r, names[j]);
    } else if r == prev {
      ListedGrows(names, prev, r, names[j]);
    } else {
      ListedSelf(names, r, |prev|);
    }
  }

  lemma ListedGrows(names: seq<string>, vars: seq<nat>, more: seq<nat>, name: string)
    requires vars <= more && ListedAsWritten(names, vars, name)
    ensures ListedAsWritten(names, more, name)
  {
    var t :| 0 <= t < |vars| && vars[t] < |names| && IsPrefix(name, names[vars[t]]);
    assert more[t] == vars[t];
  }

  lemma ListedSelf(names: seq<string>, vars: seq<nat>, t: nat)
    requires t < |vars| && vars[t] < |names|
    ensures ListedAsWritten(names, vars, names[vars[t]])
  {
  }

  /** A prefix of a name that is listed as written is itself listed as written. */
  lemma ListedPrefix(names: seq<string>, vars: seq<nat>, x: string, y: string)
    requires IsPrefix(x, y) && ListedAsWritten(names, vars, y)
    ensures ListedAsWritten(names, vars, x)
  {
    var t :| 0 <= t < |vars| && vars[t] < |names| && IsPrefix(y, names[vars[t]]);
    PrefixTransitive(x, y, names[vars[t]]);
  }

  /**
   * As written, a binding is listed exactly when it is visited and its name
   * is a prefix of no newer binding's name: so the newest binding of each
   * name is listed unless a newer name extends it.
   */
  lemma {:induction false} TeVarsAsWrittenExact(names: seq<string>, k: nat, j: int)
    requires k <= |names| && 0 <= j < |names|
    ensures j in TeVarsAsWritten(names, k) <==>
      |names| - k <= j && forall i' :: j < i' < |names| ==> !IsPrefix(names[j], names[i'])
  {
    if k > 0 {
      TeVarsAsWrittenStep(names, k);
      var prev := TeVarsAsWritten(names, k - 1);
      var i := |names| - k;
      var r := TeVarsAsWritten(names, k);
      if j != i {
        TeVarsAsWrittenExact(names, k - 1, j);
        assert j in r <==> j in prev;
      } else {
        assert i !in prev;
        if r == prev {
          var t :| 0 <= t < |prev| && prev[t] < |names| && IsPrefix(names[i], names[prev[t]]);
        } else {
          assert r[|prev|] == i;
          forall i' | i < i' < |names|
            ensures !IsPrefix(names[i], names[i'])
          {
            if IsPrefix(names[i], names[i']) {
              TeVarsAsWrittenCovers(names, k - 1, i');
              ListedPrefix(names, prev, names[i], names[i']);
            }
          }
        }
      }
    }
  }

  lemma PrefixTransitive(x: string, y: string, z: string)
    requires IsPrefix(x, y) && IsPrefix(y, z)
    ensures IsPrefix(x, z)
  {
    assert y[..|x|] == z[..|y|][..|x|];
  }

  /** Where no visited name is a proper prefix of a newer one, the written list is the whole-name list. */
  lemma {:induction false} TeVarsAsWrittenAgrees(names: seq<string>, k: nat)
    requires k <= |names|
    requires forall i, i' :: |names| - k <= i < i' < |names| && IsPrefix(names[i], names[i']) ==> names[i] == names[i']
    ensures TeVarsAsWritten(names, k) == TeVars(names, k)
  {
    if k > 0 {
      TeVarsAsWrittenAgrees(names, k - 1);
      var prev := TeVars(names, k - 1);
      var i := |names| - k;
      assert ListedAsWritten(names, prev, names[i]) == Listed(names, prev, names[i]) by {
        if ListedAsWritten(names, prev, names[i]) {
          var t :| 0 <= t < |prev| && prev[t] < |names| && IsPrefix(names[i], names[prev[t]]);
          assert names[i] == names[prev[t]];
        }
      }
    }
  }

  /** With at least one binding, the newest one heads the written list. */
  lemma {:induction false} NewestListedFirstAsWritten(names: seq<string>, k: nat)
    requires 1 <= k <= |names|
    ensures |TeVarsAsWritten(names, k)| >= 1 && TeVarsAsWritten(names, k)[0] == |names| - 1
  {
    if k > 1 {
      NewestListedFirstAsWritten(names, k - 1);
    }
  }

  /** With `n` bound below `nn`, the written test hides `n`: an expression using n cannot see it. */
  lemma PrefixNameHiddenAsWritten()
    ensures TeVarsAsWritten(["n", "nn"], 2) == [1]
    ensures TeVars(["n", "nn"], 2) == [1, 0]
  {
    var names := ["n", "nn"];
    assert TeVarsAsWritten(names, 1) == [1];
    assert IsPrefix(names[0], names[TeVarsAsWritten(names, 1)[0]]);
    assert TeVars(names, 1) == [1];
    assert !Listed(names, [1], names[0]);
  }

  /** The variables handed to the evaluator: the listed bindings, in list order. */
  function Visible(ps: seq<Param>, vars: seq<nat>): (r: seq<Param>)
    requires forall t :: 0 <= t < |vars| ==> vars[t] < |ps|
    ensures |r| == |vars| && forall t :: 0 <= t < |vars| ==> r[t] == ps[vars[t]]
  {
    seq(|vars|, t requires 0 <= t < |vars| => ps[vars[t]])
  }

  /**
   * param_stack_eval: the expression's value over the bindings the written
   * list shows, None when it does not compile.
   */
  function EvalIn(ps: seq<Param>, expr: string, ev: Evaluator): Option<real>
  {
    ev(expr, Visible(ps, TeVarsAsWritten(Names(ps), |ps|)))
  }

  /**
   * param_stack_enter pushes the name before evaluating it, so during its
   * own evaluation the new name is the first variable, with no value.
   */
  lemma OwnNameVisibleUnset(ps: seq<Param>, name: string)
    ensures var pushed := ps + [Param(name, None)];
      var vis := Visible(pushed, TeVarsAsWritten(Names(pushed), |pushed|));
      |vis| >= 1 && vis[0] == Param(name, None)
  {
    var pushed := ps + [Param(name, None)];
    NewestListedFirstAsWritten(Names(pushed), |pushed|);
  }

  /** The index values eval_conn_name's second loop computes when the whole prefix succeeds. */
  function Prepend(vals: seq<int>, rest: Option<seq<int>>): Option<seq<int>>
  {
    if rest.None? then None else Some(vals + rest.value)
  }

  /**
   * The rounded values of the bracketed expressions, visiting every '['
   * at or after `from` in order: the expression runs to the first ']'
   * after the '['.  None when some '[' has no later ']' or its expression
   * fails to evaluate.
   */
  function IndexValues(ps: seq<Param>, s: string, from: nat, ev: Evaluator): Option<seq<int>>
    decreases |s| - from
  {
    match Find(s, '[', from)
    case None => Some([])
    case Some(l) =>
      match Find(s, ']', l)
      case None => None
      case Some(r) =>
        match EvalIn(ps, s[l + 1..r], ev)
        case None => None
        case Some(x) => Prepend([Lrint(x)], IndexValues(ps, s, l + 1, ev))
  }

  /** What "%d" writes for each index value. */
  function Texts(vals: seq<int>): (r: seq<string>)
    ensures |r| == |vals| && forall k :: 0 <= k < |vals| ==> r[k] == Decimal(vals[k])
  {
    seq(|vals|, k requires 0 <= k < |vals| => Decimal(vals[k]))
  }

  /**
   * The third loop: text up to and including each '[', the i-th value's
   * text, ']', and the text after that ']'.  Past the last value the
   * zero-filled array gives "0".
   */
  function Substitute(s: string, from: nat, texts: seq<string>, i: nat): string
    requires from <= |s|
    decreases |s| - from
  {
    match Find(s, '[', from)
    case None => s[from..]
    case Some(l) =>
      match Find(s, ']', l)
      case None => s[from..]
      case Some(r) => Piece(s, from, l, texts, i) + Substitute(s, r + 1, texts, i + 1)
  }

  /** The text one turn of the third loop writes: up to the '[' at l, the i-th value, and ']'. */
  function Piece(s: string, from: nat, l: nat, texts: seq<string>, i: nat): string
    requires from <= l < |s|
  {
    s[from..l + 1] + (if i < |texts| then texts[i] else "0") + "]"
  }

  /** eval_conn_name. */
  function ConnName(ps: seq<Param>, s: string, ev: Evaluator): Option<string>
  {
    match IndexValues(ps, s, 0, ev)
    case None => None
    case Some(vals) => Some(Substitute(s, 0, Texts(vals), 0))
  }

  /** A '[' that makes eval_conn_name fail: no ']' after it, or its expression does not evaluate. */
  predicate BadIndexAt(ps: seq<Param>, s: string, l: nat, ev: Evaluator)
    requires l < |s|
  {
    s[l] == '[' &&
    match Find(s, ']', l)
    case None => true
    case Some(r) => EvalIn(ps, s[l + 1..r], ev).None?
  }

  /** eval_conn_name returns NULL exactly when some '[' is unclosed or its expression fails. */
  lemma {:induction false} IndexValuesFail(ps: seq<Param>, s: string, from: nat, ev: Evaluator)
    ensures IndexValues(ps, s, from, ev).None? <==> exists l :: from <= l < |s| && BadIndexAt(ps, s, l, ev)
    decreases |s| - from
  {
    FindFirst(s, '[', from);
    match Find(s, '[', from)
    case None =>
      forall l | from <= l < |s|
        ensures !BadIndexAt(ps, s, l, ev)
      {
      }
    case Some(l) =>
      if BadIndexAt(ps, s, l, ev) {
      } else {
        IndexValuesFail(ps, s, l + 1, ev);
        forall l' | from <= l' < |s| && BadIndexAt(ps, s, l', ev)
          ensures l + 1 <= l'
        {
        }
      }
  }

  /** A name without '[' comes back unchanged. */
  lemma NoIndexUnchanged(ps: seq<Param>, s: string, ev: Evaluator)
    requires forall k :: 0 <= k < |s| ==> s[k] != '['
    ensures ConnName(ps, s, ev) == Some(s)
  {
    FindNone(s, '[', 0);
    assert s[0..] == s;
  }

  /** Where the brackets of `a[e]b` are, when only the one pair is there. */
  lemma OneIndexBrackets(a: string, e: string, b: string)
    requires forall k :: 0 <= k < |a| ==> a[k] != '['
    requires forall k :: 0 <= k < |e| ==> e[k] != '[' && e[k] != ']'
    requires forall k :: 0 <= k < |b| ==> b[k] != '['
    ensures var s := a + "[" + e + "]" + b; var l := |a|; var r := |a| + 1 + |e|;
      Find(s, '[', 0) == Some(l) && Find(s, ']', l) == Some(r) &&
      Find(s, '[', l + 1).None? && Find(s, '[', r + 1).None? &&
      s[l + 1..r] == e && s[0..l + 1] == a + "[" && s[r + 1..] == b
  {
    var s := a + "[" + e + "]" + b;
    var l := |a|;
    var r := |a| + 1 + |e|;
    assert forall k :: 0 <= k < l ==> s[k] == a[k];
    assert forall k :: l < k < r ==> s[k] == e[k - l - 1];
    assert forall k :: r < k < |s| ==> s[k] == b[k - r - 1];
    FindAt(s, '[', 0, l);
    FindAt(s, ']', l, r);
    FindNone(s, '[', l + 1);
    FindNone(s, '[', r + 1);
    assert s[l + 1..r] == e;
    assert s[0..l + 1] == a + "[";
    assert s[r + 1..] == b;
  }

  /** `a[e]b` with one index: e's rounded value replaces e, all other text is copied. */
  lemma OneIndexSubstituted(ps: seq<Param>, a: string, e: string, b: string, ev: Evaluator, x: real)
    requires forall k :: 0 <= k < |a| ==> a[k] != '['
    requires forall k :: 0 <= k < |e| ==> e[k] != '[' && e[k] != ']'
    requires forall k :: 0 <= k < |b| ==> b[k] != '['
    requires EvalIn(ps, e, ev) == Some(x)
    ensures ConnName(ps, a + "[" + e + "]" + b, ev) == Some(a + "[" + Decimal(Lrint(x)) + "]" + b)
  {
    var s := a + "[" + e + "]" + b;
    var l := |a|;
    var r := |a| + 1 + |e|;
    OneIndexBrackets(a, e, b);
    assert IndexValues(ps, s, l + 1, ev) == Some([]);
    assert [Lrint(x)] + [] == [Lrint(x)];
    assert IndexValues(ps, s, 0, ev) == Some([Lrint(x)]);
    var texts := Texts([Lrint(x)]);
    SubstituteEnd(s, r + 1, texts, 1);
    SubstituteStep(s, 0, texts, 0, l, r);
    assert Piece(s, 0, l, texts, 0) == a + "[" + Decimal(Lrint(x)) + "]";
  }

  /** The outcome of one turn of the index scan. */
  datatype Scan = Done | Failed | Value(x: int, next: nat)

  /** Consing the values of one more bracket onto those still to come. */
  lemma PrependAssoc(vals: seq<int>, x: int, rest: Option<seq<int>>)
    ensures Prepend(vals, Prepend([x], rest)) == Prepend(vals + [x], rest)
  {
    if rest.Some? {
      assert vals + ([x] + rest.value) == vals + [x] + rest.value;
    }
  }

  lemma SubstituteStep(s: string, from: nat, texts: seq<string>, i: nat, l: nat, r: nat)
    requires from <= |s| && Find(s, '[', from) == Some(l) && Find(s, ']', l) == Some(r)
    ensures Substitute(s, from, texts, i) == Piece(s, from, l, texts, i) + Substitute(s, r + 1, texts, i + 1)
  {
  }

  lemma SubstituteEnd(s: string, from: nat, texts: seq<string>, i: nat)
    requires from <= |s|
    requires Find(s, '[', from).None? || Find(s, ']', Find(s, '[', from).value).None?
    ensures Substitute(s, from, texts, i) == s[from..]
  {
  }

  /** eval_conn_name's third loop: copies the text, writing each value after its '['. */
  method SubstituteIndices(name: string, texts: seq<string>) returns (out: string)
    ensures out == Substitute(name, 0, texts, 0)
  {
    out := "";
    var prev := 0;
    var i := 0;
    while true
      invariant prev <= |name|
      invariant Substitute(name, 0, texts, 0) == out + Substitute(name, prev, texts, i)
      decreases |name| - prev
    {
      var piece, next := NextPiece(name, prev, texts, i);
      if next.None? {
        return out + piece;
      }
      ghost var rest := Substitute(name, next.value, texts, i + 1);
      assert out + (piece + rest) == (out + piece) + rest;
      out := out + piece;
      prev := next.value;
      i := i + 1;
    }
  }

  /** One turn of the third loop from `prev`: the text it writes, and where the next turn starts. */
  method NextPiece(name: string, prev: nat, texts: seq<string>, i: nat) returns (piece: string, next: Option<nat>)
    requires prev <= |name|
    ensures next.None? ==> Substitute(name, prev, texts, i) == piece
    ensures next.Some? ==> prev < next.value <= |name|
    ensures next.Some? ==> Substitute(name, prev, texts, i) == piece + Substitute(name, next.value, texts, i + 1)
  {
    var l := Find(name, '[', prev);
    if l.None? {
      SubstituteEnd(name, prev, texts, i);
      return name[prev..], None;
    }
    var r := Find(name, ']', l.value);
    if r.None? {
      SubstituteEnd(name, prev, texts, i);
      return name[prev..], None;
    }
    piece := Piece(name, prev, l.value, texts, i);
    SubstituteStep(name, prev, texts, i, l.value, r.value);
    next := Some(r.value + 1);
  }

  /** The inner loop of param_stack_to_te_vars: is the name of binding i a prefix of a listed binding's name? */
  method AlreadyListed(ps: seq<Param>, vars: seq<nat>, i: nat) returns (present: bool)
    requires i < |ps| && forall t :: 0 <= t < |vars| ==> vars[t] < |ps|
    ensures present <==> ListedAsWritten(Names(ps), vars, ps[i].name)
  {
    ghost var names := Names(ps);
    present := false;
    var j := 0;
    while j < |vars| && !present
      invariant 0 <= j <= |vars|
      invariant present <==> exists t :: 0 <= t < j && IsPrefix(ps[i].name, names[vars[t]])
    {
      if IsPrefix(ps[i].name, ps[vars[j]].name) {
        present := true;
      }
      j := j + 1;
    }
  }

  /** param_stack_t: an array of bindings with a count and a capacity grown by PARAM_BLK_SIZE. */
  class Stack {
    var params: seq<Param>
    var cap: nat

    ghost predicate Valid()
      reads this
    {
      |params| <= cap && cap > 0 && cap % PARAM_BLK_SIZE == 0
    }

    /** param_stack_create: empty, room for one block. */
    constructor ()
      ensures Valid() && params == [] && cap == PARAM_BLK_SIZE
    {
      params := [];
      cap := PARAM_BLK_SIZE;
    }

    /** param_stack_leave: drops the top binding.  The source does not check for an empty stack; callers pop only what they pushed. */
    method Leave()
      requires Valid() && |params| >= 1
      modifies this
      ensures Valid()
      ensures params == old(params)[..|old(params)| - 1] && cap == old(cap)
    {
      params := params[..|params| - 1];
    }

    /** Room for one more binding: one more block when full. */
    method Reserve()
      requires Valid()
      modifies this
      ensures Valid() && params == old(params) && |params| < cap
      ensures cap == if |old(params)| == old(cap) then old(cap) + PARAM_BLK_SIZE else old(cap)
    {
      if |params| == cap {
        cap := cap + PARAM_BLK_SIZE;
      }
    }

    /** param_stack_enter_val: pushes name bound to d. */
    method EnterVal(name: string, d: int)
      requires Valid()
      modifies this
      ensures Valid()
      ensures params == old(params) + [Param(name, Some(d as real))]
      ensures cap == if |old(params)| == old(cap) then old(cap) + PARAM_BLK_SIZE else old(cap)
    {
      Reserve();
      params := params + [Param(name, Some(d as real))];
    }

    /** param_stack_to_te_vars: the listed indices, newest first. */
    method ToTeVars() returns (vars: seq<nat>)
      requires Valid()
      ensures vars == TeVarsAsWritten(Names(params), |params|)
    {
      var ps := params;
      vars := [];
      var i := |ps| - 1;
      while i >= 0
        invariant -1 <= i < |ps|
        invariant vars == TeVarsAsWritten(Names(ps), |ps| - 1 - i)
      {
        var present := AlreadyListed(ps, vars, i);
        if !present {
          vars := vars + [i];
        }
        i := i - 1;
      }
    }

    /** param_stack_eval: -1 when the expression does not compile, else 0 and its value. */
    method Eval(expr: string, ev: Evaluator) returns (res: int, value: real)
      requires Valid()
      ensures res == -1 <==> EvalIn(params, expr, ev).None?
      ensures res == 0 <==> EvalIn(params, expr, ev).Some?
      ensures res == 0 ==> value == EvalIn(params, expr, ev).value
    {
      var vars := ToTeVars();
      var r := ev(expr, Visible(params, vars));
      if r.None? {
        return -1, 0.0;
      }
      return 0, r.value;
    }

    /**
     * param_stack_enter: pushes the name with no value, then evaluates its
     * expression with the name already visible and stores the result.
     */
    method Enter(r: RawParam, ev: Evaluator) returns (res: int)
      requires Valid()
      modifies this
      ensures Valid()
      ensures var v := EvalIn(old(params) + [Param(r.name, None)], r.value, ev);
        params == old(params) + [Param(r.name, v)] && (res == -1 <==> v.None?) && (res == 0 <==> v.Some?)
      ensures cap == if |old(params)| == old(cap) then old(cap) + PARAM_BLK_SIZE else old(cap)
    {
      Reserve();
      params := params + [Param(r.name, None)];
      var value;
      res, value := Eval(r.value, ev);
      if res == 0 {
        params := params[|params| - 1 := Param(r.name, Some(value))];
      }
    }

    /** eval_conn_name's second loop: the rounded index values, or None where it returns NULL. */
    method IndexValuesOf(name: string, ev: Evaluator) returns (res: Option<seq<int>>)
      requires Valid()
      ensures res == IndexValues(params, name, 0, ev)
    {
      var vals: seq<int> := [];
      var left := 0;
      if IndexValues(params, name, 0, ev).Some? {
        assert [] + IndexValues(params, name, 0, ev).value == IndexValues(params, name, 0, ev).value;
      }
      while true
        invariant left <= |name| + 1
        invariant IndexValues(params, name, 0, ev) == Prepend(vals, IndexValues(params, name, left, ev))
        decreases |name| + 1 - left
      {
        var step := NextIndex(name, left, ev);
        match step
        case Done =>
          assert vals + [] == vals;
          return Some(vals);
        case Failed =>
          return None;
        case Value(x, next) =>
          PrependAssoc(vals, x, IndexValues(params, name, next, ev));
          vals := vals + [x];
          left := next;
      }
    }

    /** One turn of eval_conn_name's second loop, from `left`. */
    method NextIndex(name: string, left: nat, ev: Evaluator) returns (step: Scan)
      requires Valid()
      ensures step.Done? ==> IndexValues(params, name, left, ev) == Some([])
      ensures step.Failed? ==> IndexValues(params, name, left, ev).None?
      ensures step.Value? ==> left < step.next <= |name|
      ensures step.Value? ==>
        IndexValues(params, name, left, ev) == Prepend([step.x], IndexValues(params, name, step.next, ev))
    {
      var l := Find(name, '[', left);
      if l.None? {
        return Done;
      }
      var r := Find(name, ']', l.value);
      if r.None? {
        return Failed;
      }
      var status, x := Eval(name[l.value + 1..r.value], ev);
      if status < 0 {
        return Failed;
      }
      return Value(Lrint(x), l.value + 1);
    }

    /** eval_conn_name: None (NULL) on an unclosed '[' or a failing index expression. */
    method EvalConnName(name: string, ev: Evaluator) returns (res: Option<string>)
      requires Valid()
      ensures res == ConnName(params, name, ev)
    {
      var vals := IndexValuesOf(name, ev);
      if vals.None? {
        return None;
      }
      var out := SubstituteIndices(name, Texts(vals.value));
      return Some(out);
    }
  }
}
