/**
 * Shared vocabulary: optional values, C strings (text up to the first NUL)
 * and the decimal notation printf's "%d" produces.
 */
module Basics {

  datatype Option<T> = None | Some(value: T)

  const NUL: char := 0 as char

  function Min(a: int, b: int): int { if a <= b then a else b }

  /** A text without NUL bytes, as every C string's contents are. */
  predicate Plain(s: string) { forall i :: 0 <= i < |s| ==> s[i] != NUL }

  /** The C string stored at the start of a buffer: everything before the first NUL. */
  function CStr(s: string): (r: string)
    ensures r <= s
    ensures Plain(r)
    ensures |r| < |s| ==> s[|r|] == NUL
  {
    if |s| == 0 || s[0] == NUL then [] else [s[0]] + CStr(s[1..])
  }

  /** A text that holds no NUL is its own C string. */
  lemma {:induction false} CStrOfPlain(s: string)
    requires Plain(s)
    ensures CStr(s) == s
  {
    if |s| > 0 {
      CStrOfPlain(s[1..]);
    }
  }

  /** strchr from position `from`: the first index at or after it holding c. */
  function Find(s: string, c: char, from: nat): (r: Option<nat>)
    ensures r.Some? ==> from <= r.value < |s| && s[r.value] == c
    decreases |s| - from
  {
    if from >= |s| then None else if s[from] == c then Some(from) else Find(s, c, from + 1)
  }

  /** Find stops at the first c: none lies between `from` and the result, or after `from` at all when there is none. */
  lemma {:induction false} FindFirst(s: string, c: char, from: nat)
    ensures Find(s, c, from).Some? ==> forall k :: from <= k < Find(s, c, from).value ==> s[k] != c
    ensures Find(s, c, from).None? ==> forall k :: from <= k < |s| ==> s[k] != c
    decreases |s| - from
  {
    if from < |s| && s[from] != c {
      FindFirst(s, c, from + 1);
    }
  }

  /** Conversely, a c at `at` with none between `from` and it is what Find returns. */
  lemma {:induction false} FindAt(s: string, c: char, from: nat, at: nat)
    requires from <= at < |s| && s[at] == c
    requires forall k :: from <= k < at ==> s[k] != c
    ensures Find(s, c, from) == Some(at)
    decreases at - from
  {
    if from < at {
      FindAt(s, c, from + 1, at);
    }
  }

  /** With no c at or after `from`, Find returns None. */
  lemma {:induction false} FindNone(s: string, c: char, from: nat)
    requires forall k :: from <= k < |s| ==> s[k] != c
    ensures Find(s, c, from).None?
    decreases |s| - from
  {
    if from < |s| {
      FindNone(s, c, from + 1);
    }
  }

  function DigitChar(d: nat): char
    requires d < 10
  {
    (48 + d) as char
  }

  predicate IsDigit(c: char) { '0' <= c <= '9' }

  predicate AllDigits(s: string) { forall k :: 0 <= k < |s| ==> IsDigit(s[k]) }

  /** The digits of n, most significant first, without leading zeros. */
  function NatDigits(n: nat): (r: string)
    ensures |r| >= 1
    decreases n
  {
    if n < 10 then [DigitChar(n)] else NatDigits(n / 10) + [DigitChar(n % 10)]
  }

  /** NatDigits writes decimal digits only, with no leading zero. */
  lemma {:induction false} NatDigitsShape(n: nat)
    ensures AllDigits(NatDigits(n))
    ensures |NatDigits(n)| > 1 ==> NatDigits(n)[0] != '0'
    decreases n
  {
    if n >= 10 {
      NatDigitsShape(n / 10);
      var r := NatDigits(n);
      assert r == NatDigits(n / 10) + [DigitChar(n % 10)];
      assert forall k :: 0 <= k < |r| - 1 ==> r[k] == NatDigits(n / 10)[k];
    }
  }

  /** printf("%d", i). */
  function Decimal(i: int): (r: string)
    ensures |r| >= 1
  {
    if i < 0 then "-" + NatDigits(-i) else NatDigits(i)
  }

  /** The value of a run of decimal digits. */
  function DigitsValue(s: string): nat
    requires AllDigits(s)
  {
    if |s| == 0 then 0
    else
      assert IsDigit(s[|s| - 1]);
      DigitsValue(s[..|s| - 1]) * 10 + (s[|s| - 1] as int - 48)
  }

  /** Reads back what Decimal writes: an optional '-' followed by digits. */
  function ParseDecimal(s: string): Option<int>
  {
    if |s| > 1 && s[0] == '-' && AllDigits(s[1..]) then
      var v: int := DigitsValue(s[1..]);
      Some(-v)
    else if |s| > 0 && AllDigits(s) then
      var v: int := DigitsValue(s);
      Some(v)
    else
      None
  }

  lemma {:induction false} NatDigitsValue(n: nat)
    ensures AllDigits(NatDigits(n)) && DigitsValue(NatDigits(n)) == n
    decreases n
  {
    NatDigitsShape(n);
    if n >= 10 {
      NatDigitsValue(n / 10);
      var r := NatDigits(n);
      assert r[..|r| - 1] == NatDigits(n / 10);
    }
  }

  /** Decimal is read back by ParseDecimal, so distinct integers print differently. */
  lemma {:induction false} DecimalRoundTrip(i: int)
    ensures ParseDecimal(Decimal(i)) == Some(i)
  {
    var r := Decimal(i);
    if i < 0 {
      NatDigitsValue(-i);
      assert r[1..] == NatDigits(-i);
      assert |r| > 1 && r[0] == '-' && AllDigits(r[1..]);
      assert DigitsValue(r[1..]) == -i;
    } else {
      NatDigitsValue(i);
      assert r == NatDigits(i);
      assert IsDigit(r[0]);
      assert DigitsValue(r) == i;
    }
  }

  /** A C string followed by its terminator and anything else reads back as itself. */
  lemma {:induction false} CStrTerminated(a: string, b: string)
    requires Plain(a)
    ensures CStr(a + [NUL] + b) == a
  {
    if |a| > 0 {
      assert (a + [NUL] + b)[1..] == a[1..] + [NUL] + b;
      CStrTerminated(a[1..], b);
    } else {
      assert (a + [NUL] + b)[0] == NUL;
    }
  }

  /** Whatever a buffer holds before its first written NUL is what its C string reads. */
  lemma {:induction false} CStrCut(a: string, b: string)
    ensures CStr(a + [NUL] + b) == CStr(a)
  {
    if |a| > 0 && a[0] != NUL {
      assert (a + [NUL] + b)[1..] == a[1..] + [NUL] + b;
      CStrCut(a[1..], b);
    } else {
      assert (a + [NUL] + b)[0] == NUL;
    }
  }

  lemma DecimalInjective(i: int, j: int)
    requires Decimal(i) == Decimal(j)
    ensures i == j
  {
    DecimalRoundTrip(i);
    DecimalRoundTrip(j);
  }
}
