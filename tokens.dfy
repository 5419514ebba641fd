/**
 * The token-level helpers of src/parser.c: jsmn tokens over the JSON text,
 * key comparison (json_str_eq), the decoding of JSON string escapes
 * (jsmn_nstr, json_str_cpy), and the report of an unexpected token
 * (bad_token with its line/column locator, state_name, token_type_name).
 *
 * The jsmn tokenizer itself is not part of this model: its output is the
 * input here, a text and a sequence of tokens whose spans lie in the text.
 */
module Tokens {
  import opened Basics
  import opened Errors

  /** jsmntype_t. */
  datatype TokenType = Undefined | Object | Array | String | Primitive

  /** jsmntok_t: the token's type, the span [start, end) of its text and its number of children. */
  datatype Token = Token(typ: TokenType, start: int, end: int, size: int)

  /** A span inside the text and a child count, as jsmn produces them. */
  predicate WithinText(text: string, t: Token)
  {
    0 <= t.start <= t.end <= |text| && t.size >= 0
  }

  /** The parser's input: the JSON text and the tokens jsmn found in it. */
  datatype Json = Json(text: string, toks: seq<Token>)

  predicate Tokenized(j: Json)
  {
    forall k :: 0 <= k < |j.toks| ==> WithinText(j.text, j.toks[k])
  }

  /**
   * tokens[k].  The source reads one or two tokens past the one it has
   * checked without testing the array's end; such a read is modelled as a
   * token of no type with an empty span at the start of the text.
   */
  function Tok(j: Json, k: int): (t: Token)
    requires Tokenized(j)
    ensures WithinText(j.text, t)
    ensures t.typ != Undefined ==> 0 <= k < |j.toks|
  {
    if 0 <= k < |j.toks| then j.toks[k] else Token(Undefined, 0, 0, 0)
  }

  /** The byte at k of the mapped text; past its end, a NUL. */
  function CharAt(text: string, k: int): char
  {
    if 0 <= k < |text| then text[k] else NUL
  }

  // ---------------------------------------------------------------- json_str_eq

  /** strncmp(text + p + k, s + k, n - k) == 0, with s NUL-terminated. */
  function StrNEq(text: string, p: int, s: string, k: nat, n: nat): bool
    decreases n - k
  {
    k >= n ||
    (CharAt(text, p + k) == CharAt(s, k) && (CharAt(s, k) == NUL || StrNEq(text, p, s, k + 1, n)))
  }

  /** json_str_eq: a STRING token whose length is strlen(s) and whose bytes strncmp-equal s. */
  function JsonStrEq(text: string, tok: Token, s: string): bool
  {
    tok.typ == String && |s| == tok.end - tok.start && StrNEq(text, tok.start, s, 0, |s|)
  }

  lemma {:induction false} StrNEqPlain(text: string, p: nat, s: string, k: nat)
    requires Plain(s) && p + |s| <= |text| && k <= |s|
    ensures StrNEq(text, p, s, k, |s|) <==> text[p + k..p + |s|] == s[k..]
    decreases |s| - k
  {
    if k < |s| {
      StrNEqPlain(text, p, s, k + 1);
      assert text[p + k..p + |s|] == [text[p + k]] + text[p + k + 1..p + |s|];
      assert s[k..] == [s[k]] + s[k + 1..];
    }
  }

  /** json_str_eq holds exactly for a STRING token whose text is s, for every s without NUL. */
  lemma JsonStrEqIff(text: string, tok: Token, s: string)
    requires Plain(s) && WithinText(text, tok)
    ensures JsonStrEq(text, tok, s) <==> tok.typ == String && text[tok.start..tok.end] == s
  {
    if |s| == tok.end - tok.start {
      StrNEqPlain(text, tok.start, s, 0);
    }
  }

  // ---------------------------------------------------------------- jsmn_nstr

  /** One output byte of jsmn_nstr and the source position after it. */
  datatype Unit = Unit(c: char, next: int)

  /** The value of a hex digit as the source's range tests compute it; -1 for any other byte. */
  function HexVal(c: char): (v: int)
    ensures -1 <= v < 16
  {
    if '0' <= c <= '9' then c as int - 48
    else if 'A' <= c <= 'F' then c as int - 55
    else if 'a' <= c <= 'f' then c as int - 87
    else -1
  }

  /**
   * The digit loop of a \u escape: from q, at most four digits and only those
   * before end, accumulated in acc; -1 at the first byte that is not a hex digit.
   */
  function HexRun(text: string, q: int, end: int, count: nat, acc: int): int
    requires count <= 4
    decreases 4 - count
  {
    if count == 4 || q + count >= end then acc
    else
      var d := HexVal(CharAt(text, q + count));
      if d < 0 then -1 else HexRun(text, q, end, count + 1, acc * 16 + d)
  }

  /** The two-character escapes of section 7 of RFC 8259 that jsmn_nstr turns into one byte. */
  function ShortEscape(e: char): Option<char>
  {
    if e == '"' || e == '/' || e == '\\' then Some(e)
    else if e == 'b' then Some(8 as char)
    else if e == 'f' then Some(12 as char)
    else if e == 'r' then Some(13 as char)
    else if e == 'n' then Some(10 as char)
    else if e == 't' then Some(9 as char)
    else None
  }

  /**
   * One round of jsmn_nstr's loop at p: a plain byte is copied; a short
   * escape gives its byte; \u with a value below 256 gives that byte and
   * skips six bytes; any other backslash is copied alone and the byte after
   * it is read again as ordinary text.
   */
  function DecodeStep(text: string, p: int, end: int): (u: Unit)
    ensures u.next > p
  {
    if CharAt(text, p) != '\\' then Unit(CharAt(text, p), p + 1)
    else
      var e := CharAt(text, p + 1);
      if ShortEscape(e).Some? then Unit(ShortEscape(e).value, p + 2)
      else if e == 'u' then
        var v := HexRun(text, p + 2, end, 0, 0);
        if 0 <= v < 256 then Unit(v as char, p + 6) else Unit('\\', p + 1)
      else Unit('\\', p + 1)
  }

  /** What jsmn_nstr writes from p while p is before end and fewer than room bytes are out. */
  function Decode(text: string, p: int, end: int, room: nat): (r: string)
    ensures |r| <= room
    ensures |r| <= if p < end then end - p else 0
    decreases room
  {
    if p >= end || room == 0 then []
    else
      var u := DecodeStep(text, p, end);
      [u.c] + Decode(text, u.next, end, room - 1)
  }

  /** Any room of at least the span's length decodes the whole span: json_str_cpy's len + 1 buffer cuts nothing. */
  lemma {:induction false} DecodeRoomEnough(text: string, p: int, end: int, r1: nat, r2: nat)
    requires r1 >= end - p && r2 >= end - p
    ensures Decode(text, p, end, r1) == Decode(text, p, end, r2)
    decreases r1
  {
    if p < end {
      var u := DecodeStep(text, p, end);
      DecodeRoomEnough(text, u.next, end, r1 - 1, r2 - 1);
    }
  }

  /** The switch of jsmn_nstr for the byte at src, with its \u digit loop. */
  method DecodeOne(text: string, src: int, end: int) returns (c: char, next: int)
    ensures Unit(c, next) == DecodeStep(text, src, end)
  {
    if CharAt(text, src) != '\\' {
      c, next := CharAt(text, src), src + 1;
      return;
    }
    var e := CharAt(text, src + 1);
    if e == '"' || e == '/' || e == '\\' {
      c, next := e, src + 2;
    } else if e == 'b' {
      c, next := 8 as char, src + 2;
    } else if e == 'f' {
      c, next := 12 as char, src + 2;
    } else if e == 'r' {
      c, next := 13 as char, src + 2;
    } else if e == 'n' {
      c, next := 10 as char, src + 2;
    } else if e == 't' {
      c, next := 9 as char, src + 2;
    } else if e == 'u' {
      var chr := 0;
      var k := 0;
      while k < 4 && src + 2 + k < end
        invariant 0 <= k <= 4
        invariant HexRun(text, src + 2, end, k, chr) == HexRun(text, src + 2, end, 0, 0)
      {
        var v := HexVal(CharAt(text, src + 2 + k));
        if v < 0 {
          chr := -1;
          break;
        }
        chr := chr * 16 + v;
        k := k + 1;
      }
      if 0 <= chr < 256 {
        c, next := chr as char, src + 6;
      } else {
        // a bad digit or a wide character: the backslash, then 'u' read again
        c, next := '\\', src + 1;
      }
    } else {
      c, next := '\\', src + 1;
    }
  }

  /**
   * jsmn_nstr copying into dst (dstn = dst.Length): writes the decoded
   * bytes, at most dstn - 1 of them and never more than the token's length,
   * then a NUL, and returns how many it wrote.
   */
  method NStr(text: string, tok: Token, dst: array<char>) returns (n: nat)
    requires WithinText(text, tok) && dst.Length >= 1
    modifies dst
    ensures n == |Decode(text, tok.start, tok.end, dst.Length - 1)|
    ensures n <= dst.Length - 1 && n <= tok.end - tok.start
    ensures dst[..n] == Decode(text, tok.start, tok.end, dst.Length - 1)
    ensures dst[n] == NUL
    ensures dst[n + 1..] == old(dst[n + 1..])
  {
    ghost var whole := Decode(text, tok.start, tok.end, dst.Length - 1);
    var src := tok.start;
    var d := 0;
    while src < tok.end && d < dst.Length - 1
      invariant 0 <= d <= dst.Length - 1 && d <= |whole|
      invariant Decode(text, src, tok.end, dst.Length - 1 - d) == whole[d..]
      invariant forall k :: 0 <= k < d ==> dst[k] == whole[k]
      invariant forall k :: d <= k < dst.Length ==> dst[k] == old(dst[k])
      decreases dst.Length - d
    {
      var c, next := DecodeOne(text, src, tok.end);
      assert whole[d..] == [c] + Decode(text, next, tok.end, dst.Length - 1 - d - 1);
      assert whole[d] == c && whole[d + 1..] == whole[d..][1..];
      dst[d] := c;
      src, d := next, d + 1;
    }
    assert whole[d..] == [];
    dst[d] := NUL;
    n := d;
  }

  /** The string json_str_cpy stores for a token: its decoding, read as a C string. */
  function Copied(text: string, tok: Token): string
    requires WithinText(text, tok)
  {
    CStr(Decode(text, tok.start, tok.end, tok.end - tok.start))
  }

  /** json_str_cpy: a zeroed buffer of the token's length plus one, filled by jsmn_nstr. */
  method JsonStrCpy(text: string, tok: Token) returns (t: array<char>)
    requires WithinText(text, tok)
    ensures fresh(t) && t.Length == tok.end - tok.start + 1
    ensures CStr(t[..]) == Copied(text, tok)
  {
    var len := tok.end - tok.start;
    t := new char[len + 1](_ => NUL);
    var n := NStr(text, tok, t);
    ghost var all := t[..];
    SplitAtNul(all, n);
    assert all[..n] == t[..n];
    CStrCut(all[..n], all[n + 1..]);
  }

  lemma SplitAtNul(s: string, n: nat)
    requires n < |s| && s[n] == NUL
    ensures s == s[..n] + [NUL] + s[n + 1..]
  {
  }

  // ------------------------------------------------- escaping, the inverse of decoding

  function HexDigit(d: nat): char
    requires d < 16
  {
    "0123456789abcdef"[d]
  }

  /** The JSON escape of one byte: the short escapes, \u00XX for other control bytes, else the byte itself. */
  function Esc(c: char): string
  {
    if c == '"' then "\\\""
    else if c == '\\' then "\\\\"
    else if c == 8 as char then "\\b"
    else if c == 12 as char then "\\f"
    else if c == 13 as char then "\\r"
    else if c == 10 as char then "\\n"
    else if c == 9 as char then "\\t"
    else if c < ' ' then "\\u00" + [HexDigit(c as int / 16), HexDigit(c as int % 16)]
    else [c]
  }

  function Escape(s: string): string
  {
    if |s| == 0 then "" else Esc(s[0]) + Escape(s[1..])
  }

  lemma HexDigitValue(d: nat)
    requires d < 16
    ensures HexVal(HexDigit(d)) == d
  {
  }

  lemma UnicodeEscapeDecodes(text: string, p: nat, end: int, c: char)
    requires c < ' ' && p + 6 <= end <= |text|
    requires text[p..p + 6] == "\\u00" + [HexDigit(c as int / 16), HexDigit(c as int % 16)]
    ensures HexRun(text, p + 2, end, 0, 0) == c as int
  {
    var hi, lo := c as int / 16, c as int % 16;
    assert text[p + 2] == '0' && text[p + 3] == '0';
    assert text[p + 4] == HexDigit(hi) && text[p + 5] == HexDigit(lo);
    HexDigitValue(hi);
    HexDigitValue(lo);
    assert HexRun(text, p + 2, end, 4, hi * 16 + lo) == c as int;
    assert HexRun(text, p + 2, end, 3, hi) == c as int;
    assert HexRun(text, p + 2, end, 2, 0) == c as int;
    assert HexRun(text, p + 2, end, 1, 0) == c as int;
  }

  /** One escaped byte decodes back to that byte and moves past its escape. */
  lemma EscDecodes(text: string, p: nat, end: int, c: char)
    requires p + |Esc(c)| <= end <= |text|
    requires text[p..p + |Esc(c)|] == Esc(c)
    ensures DecodeStep(text, p, end) == Unit(c, p + |Esc(c)|)
  {
    var e := Esc(c);
    assert text[p] == e[0];
    if |e| >= 2 {
      assert text[p + 1] == e[1];
    }
    if c < ' ' && c != 8 as char && c != 12 as char && c != 13 as char && c != 10 as char && c != 9 as char {
      UnicodeEscapeDecodes(text, p, end, c);
    }
  }

  /** Decoding from p begins with the byte of the step at p. */
  lemma DecodeFirst(text: string, p: int, end: int, room: nat, u: Unit)
    requires p < end && room > 0 && DecodeStep(text, p, end) == u
    ensures Decode(text, p, end, room) == [u.c] + Decode(text, u.next, end, room - 1)
  {
  }

  /** The escape of s's first byte decodes to it, and the escape of the rest follows. */
  lemma StepEscaped(text: string, p: nat, s: string) returns (n: nat)
    requires p <= |text| && text[p..] == Escape(s) && |s| > 0
    ensures n >= 1 && p + n <= |text|
    ensures DecodeStep(text, p, |text|) == Unit(s[0], p + n)
    ensures text[p + n..] == Escape(s[1..])
  {
    var e := Esc(s[0]);
    n := |e|;
    var rest := Escape(s[1..]);
    assert text[p..] == e + rest;
    assert text[p..p + n] == e by {
      assert text[p..p + n] == text[p..][..n];
    }
    assert text[p + n..] == rest by {
      assert text[p + n..] == text[p..][n..];
    }
    EscDecodes(text, p, |text|, s[0]);
  }

  /** ps marks where each byte of s starts when text is decoded: the step at ps[k] yields s[k] and moves to ps[k + 1], the end of the text. */
  ghost predicate Steps(text: string, ps: seq<int>, s: string)
  {
    |ps| == |s| + 1 && ps[|s|] == |text| &&
    forall k :: 0 <= k < |s| ==> ps[k] < |text| && DecodeStep(text, ps[k], |text|) == Unit(s[k], ps[k + 1])
  }

  /** The escape of s, read from p to the end of the text, decodes in |s| steps, one per byte of s. */
  lemma {:induction false} EscapeSteps(text: string, p: nat, s: string) returns (ps: seq<int>)
    requires p <= |text| && text[p..] == Escape(s)
    ensures Steps(text, ps, s) && ps[0] == p
    decreases |s|
  {
    if |s| == 0 {
      assert |text| == p;
      ps := [p];
    } else {
      var n := StepEscaped(text, p, s);
      var rest := EscapeSteps(text, p + n, s[1..]);
      ps := [p] + rest;
      assert forall k :: 1 <= k < |s| ==> ps[k] < |text| && DecodeStep(text, ps[k], |text|) == Unit(s[k], ps[k + 1]) by {
        forall k | 1 <= k < |s|
          ensures ps[k] < |text| && DecodeStep(text, ps[k], |text|) == Unit(s[k], ps[k + 1])
        {
          assert ps[k] == rest[k - 1] && ps[k + 1] == rest[k] && s[k] == s[1..][k - 1];
        }
      }
    }
  }

  /** Decoding along such steps with room for every byte yields s. */
  lemma {:induction false} DecodeSteps(text: string, ps: seq<int>, s: string, room: nat)
    requires Steps(text, ps, s) && room >= |s|
    ensures Decode(text, ps[0], |text|, room) == s
    decreases |s|
  {
    if |s| > 0 {
      assert Steps(text, ps[1..], s[1..]) by {
        forall k | 0 <= k < |s[1..]|
          ensures ps[1..][k] < |text| && DecodeStep(text, ps[1..][k], |text|) == Unit(s[1..][k], ps[1..][k + 1])
        {
          assert ps[k + 1] < |text| && DecodeStep(text, ps[k + 1], |text|) == Unit(s[k + 1], ps[k + 2]);
        }
      }
      DecodeSteps(text, ps[1..], s[1..], room - 1);
      DecodeFirst(text, ps[0], |text|, room, Unit(s[0], ps[1]));
      assert s == [s[0]] + s[1..];
    }
  }

  /** jsmn_nstr undoes JSON escaping: the escaped text of any byte string decodes to it. */
  lemma EscapeRoundTrip(s: string)
    ensures Decode(Escape(s), 0, |Escape(s)|, |Escape(s)|) == s
  {
    EscapeLonger(s);
    var ps := EscapeSteps(Escape(s), 0, s);
    DecodeSteps(Escape(s), ps, s, |Escape(s)|);
  }

  lemma {:induction false} EscapeLonger(s: string)
    ensures |Escape(s)| >= |s|
  {
    if |s| > 0 {
      EscapeLonger(s[1..]);
    }
  }

  /** A backslash that starts no valid escape is kept, and decoding goes on from the byte after it. */
  lemma BadEscapeKept(text: string, p: int, end: int, room: nat)
    requires p < end && room > 0 && CharAt(text, p) == '\\'
    requires ShortEscape(CharAt(text, p + 1)).None?
    requires CharAt(text, p + 1) == 'u' ==> !(0 <= HexRun(text, p + 2, end, 0, 0) < 256)
    ensures Decode(text, p, end, room) == ['\\'] + Decode(text, p + 1, end, room - 1)
  {
  }

  // ---------------------------------------------------------------- bad_token

  /** state_t of the deserializer. */
  datatype State =
    | Start | Between | InModule | ModuleParams | SubmodulesBetween | InSubmodule
    | SubmoduleParams | ConnectionsBetween | InConnection | GatesBetween | InGate
    | InReplace | ReplaceBetween | InNetwork | NetworkParams

  /** state_name: the enumerator's own name. */
  function StateName(s: State): (r: string)
    ensures |r| > 6 && r[..6] == "STATE_"
  {
    match s
    case Start => "STATE_START"
    case Between => "STATE_BETWEEN"
    case InModule => "STATE_MODULE"
    case ModuleParams => "STATE_MODULE_PARAMS"
    case SubmodulesBetween => "STATE_MODULE_SUBMODULES_BETWEEN"
    case InSubmodule => "STATE_MODULE_SUBMODULE"
    case SubmoduleParams => "STATE_MODULE_SUBMODULE_PARAMS"
    case ConnectionsBetween => "STATE_MODULE_CONNECTIONS_BETWEEN"
    case InConnection => "STATE_MODULE_CONNECTION"
    case ReplaceBetween => "STATE_MODULE_REPLACE_BETWEEN"
    case InReplace => "STATE_MODULE_REPLACE"
    case GatesBetween => "STATE_MODULE_GATES_BETWEEN"
    case InGate => "STATE_MODULE_GATE"
    case InNetwork => "STATE_NETWORK"
    case NetworkParams => "STATE_NETWORK_PARAMS"
  }

  /** token_type_name. */
  function TokenTypeName(t: TokenType): string
  {
    match t
    case Primitive => "PRIMITIVE"
    case Object => "OBJECT"
    case Array => "ARRAY"
    case String => "STRING"
    case Undefined => "UNDEF"
  }

  /** The state a name returned by state_name stands for. */
  function StateNamed(name: string): Option<State>
  {
    if name == "STATE_START" then Some(Start)
    else if name == "STATE_BETWEEN" then Some(Between)
    else if name == "STATE_MODULE" then Some(InModule)
    else if name == "STATE_MODULE_PARAMS" then Some(ModuleParams)
    else if name == "STATE_MODULE_SUBMODULES_BETWEEN" then Some(SubmodulesBetween)
    else if name == "STATE_MODULE_SUBMODULE" then Some(InSubmodule)
    else if name == "STATE_MODULE_SUBMODULE_PARAMS" then Some(SubmoduleParams)
    else if name == "STATE_MODULE_CONNECTIONS_BETWEEN" then Some(ConnectionsBetween)
    else if name == "STATE_MODULE_CONNECTION" then Some(InConnection)
    else if name == "STATE_MODULE_REPLACE_BETWEEN" then Some(ReplaceBetween)
    else if name == "STATE_MODULE_REPLACE" then Some(InReplace)
    else if name == "STATE_MODULE_GATES_BETWEEN" then Some(GatesBetween)
    else if name == "STATE_MODULE_GATE" then Some(InGate)
    else if name == "STATE_NETWORK" then Some(InNetwork)
    else if name == "STATE_NETWORK_PARAMS" then Some(NetworkParams)
    else None
  }

  /** Every state's name names that state and no other, so a report tells the state it came from. */
  lemma StateNameRoundTrip(s: State)
    ensures StateNamed(StateName(s)) == Some(s)
  {
  }

  /** The index of the last newline in s, or -1 when it has none. */
  function LastNewline(s: string): (r: int)
    ensures -1 <= r < |s|
    ensures r >= 0 ==> s[r] == '\n'
    ensures forall k :: r < k < |s| ==> s[k] != '\n'
  {
    if |s| == 0 then -1
    else if s[|s| - 1] == '\n' then |s| - 1
    else LastNewline(s[..|s| - 1])
  }

  /**
   * bad_token's position loop over the text before the token: the line is
   * one more than the newlines passed, the column one more than the bytes
   * since the last of them.
   */
  method Locate(text: string, start: nat) returns (line: nat, pos: nat)
    requires start <= |text|
    ensures line == 1 + multiset(text[..start])['\n']
    ensures pos == start - LastNewline(text[..start])
  {
    line, pos := 1, 1;
    var j := 0;
    while j < start
      invariant 0 <= j <= start
      invariant line == 1 + multiset(text[..j])['\n']
      invariant pos == j - LastNewline(text[..j])
    {
      assert text[..j + 1] == text[..j] + [text[j]];
      assert text[..j + 1][..j] == text[..j];
      pos := pos + 1;
      if text[j] == '\n' {
        line := line + 1;
        pos := 1;
      }
      j := j + 1;
    }
  }

  /** The column of a token on the first line is its offset plus one. */
  lemma FirstLineColumn(text: string, start: nat)
    requires start <= |text| && forall k :: 0 <= k < start ==> text[k] != '\n'
    ensures start - LastNewline(text[..start]) == start + 1
    ensures multiset(text[..start])['\n'] == 0
  {
    assert '\n' !in text[..start];
  }

  /** bad_token's report up to the state name. */
  function BadTokenHead(text: string, i: int, tok: Token, state: State): string
    requires WithinText(text, tok)
  {
    var before := text[..tok.start];
    ": unexpected " + TokenTypeName(tok.typ) + " token #" + Decimal(i)
    + " at line " + Decimal(1 + multiset(before)['\n'])
    + " character " + Decimal(tok.start - LastNewline(before))
    + " state " + StateName(state)
  }

  /** The text bad_token appends to the "Bad token" message. */
  function BadTokenSuffix(text: string, i: int, tok: Token, state: State): string
    requires WithinText(text, tok)
  {
    BadTokenHead(text, i, tok, state) + (if tok.end > 0 then ": " + Copied(text, tok) else "")
  }

  /** The first part of bad_token's report, with the token's line and column. */
  method ReportHead(i: int, tok: Token, text: string, state: State) returns (head: string)
    requires WithinText(text, tok)
    ensures head == BadTokenHead(text, i, tok, state)
  {
    var line, pos := Locate(text, tok.start);
    head := ": unexpected " + TokenTypeName(tok.typ) + " token #" + Decimal(i)
      + " at line " + Decimal(line) + " character " + Decimal(pos)
      + " state " + StateName(state);
  }

  /**
   * bad_token: reports the token's type, number, line, column, the parser
   * state and, for a token with a nonzero end, its decoded text; returns
   * TOP_E_TOKEN.
   */
  method BadToken(i: int, tok: Token, text: string, state: State, eText: array?<char>) returns (r: int)
    requires WithinText(text, tok)
    modifies eText
    ensures r == TOP_E_TOKEN
    ensures eText != null && eText.Length > 0 ==>
      var msg := MessageOf(TOP_E_TOKEN) + BadTokenSuffix(text, i, tok, state);
      var k := Min(|msg|, eText.Length - 1);
      eText[..k] == msg[..k] && eText[k] == NUL
  {
    var head := ReportHead(i, tok, text, state);
    var tail := "";
    if tok.end > 0 {
      var str := JsonStrCpy(text, tok);
      tail := ": " + CStr(str[..]);
    }
    r := ReturnError(eText, TOP_E_TOKEN, head + tail);
  }
}
