/**
 * The error-code table of src/errors.h and src/__errors.h, the message lookup
 * strerror_custom performs on it, and the bounded error text return_error
 * writes into a caller's buffer.
 */
module Errors {
  import opened Basics

  const TOP_E_FOPEN := 1
  const TOP_E_FSTAT := 2
  const TOP_E_FMMAP := 3
  const TOP_E_EVAL := 4
  const TOP_E_CONN := 5
  const TOP_E_NOMOD := 6
  const TOP_E_NONET := 7
  const TOP_E_BADGATE := 8
  const TOP_E_ALLOC := 9
  const TOP_E_JSON := 10
  const TOP_E_TOKEN := 11
  const TOP_E_LOOP := 12
  const TOP_E_REGEX := 13
  const TOP_E_ROOT := 14

  /** One E(id, message) line of the table. */
  datatype Entry = Entry(id: int, msg: string)

  const NoInformation := "No error information"

  /** The table, in the order of its lines, ending with the id-0 sentinel. */
  const MsgFopen := "Could not open file"
  const MsgFstat := "Could not stat file"
  const MsgFmmap := "Could not mmap file"
  const MsgEval := "Could not evaluate"
  const MsgConn := "Could not connect"
  const MsgNoMod := "Could not find module"
  const MsgNoNet := "No network given"
  const MsgBadGate := "Gate is connected more than twice"
  const MsgAlloc := "Could not allocate memory"
  const MsgJson := "Invalid JSON"
  const MsgToken := "Bad token"
  const MsgLoop := "Bad loop boundaries"
  const MsgRegex := "Bad regex"

  /** The table, in the order of its lines, ending with the id-0 sentinel. */
  const Table: seq<Entry> := [
    Entry(TOP_E_FOPEN, MsgFopen),
    Entry(TOP_E_FSTAT, MsgFstat),
    Entry(TOP_E_FMMAP, MsgFmmap),
    Entry(TOP_E_EVAL, MsgEval),
    Entry(TOP_E_CONN, MsgConn),
    Entry(TOP_E_NOMOD, MsgNoMod),
    Entry(TOP_E_NONET, MsgNoNet),
    Entry(TOP_E_BADGATE, MsgBadGate),
    Entry(TOP_E_ALLOC, MsgAlloc),
    Entry(TOP_E_JSON, MsgJson),
    Entry(TOP_E_TOKEN, MsgToken),
    Entry(TOP_E_LOOP, MsgLoop),
    Entry(TOP_E_REGEX, MsgRegex),
    Entry(0, NoInformation)
  ]

  /** The first expansion of the table: errid[], each id cut to an unsigned char. */
  function Ids(t: seq<Entry>): (r: seq<int>)
    ensures |r| == |t|
    ensures forall k :: 0 <= k < |t| ==> r[k] == t[k].id % 256
  {
    seq(|t|, k requires 0 <= k < |t| => t[k].id % 256)
  }

  /**
   * The second expansion: errmsg[], every message followed by NUL, then the
   * terminator of the string literal itself.
   */
  function Blob(t: seq<Entry>): seq<char>
  {
    if |t| == 0 then [NUL] else t[0].msg + [NUL] + Blob(t[1..])
  }

  /** Reference meaning of a code: its own message when the table pairs one with it. */
  function MessageOf(e: int): string
  {
    if exists k :: 0 <= k < |Table| - 1 && Table[k].id == e then Table[e - 1].msg else NoInformation
  }

  /** The table lists the codes 1..13 in order, each with a different message. */
  lemma TableLayout()
    ensures forall k :: 0 <= k < |Table| - 1 ==> Table[k].id == k + 1
    ensures Table[|Table| - 1].id == 0
  {
  }

  /** No message holds a NUL, so each reads back whole from errmsg[]. */
  lemma MessagesPlain()
    ensures forall k :: 0 <= k < |Table| ==> Plain(Table[k].msg)
  {
    MessagesPlain0();
    MessagesPlain1();
    MessagesPlain2();
    MessagesPlain3();
    MessagesPlain4();
    assert Plain(NoInformation);
  }

  lemma MessagesPlain0()
    ensures Plain(MsgFopen) && Plain(MsgFstat) && Plain(MsgFmmap)
  {
  }

  lemma MessagesPlain1()
    ensures Plain(MsgEval) && Plain(MsgConn) && Plain(MsgNoMod)
  {
  }

  lemma MessagesPlain2()
    ensures Plain(MsgNoNet) && Plain(MsgBadGate) && Plain(MsgAlloc)
  {
  }

  lemma MessagesPlain3()
    ensures Plain(MsgJson) && Plain(MsgToken) && Plain(MsgLoop)
  {
  }

  lemma MessagesPlain4()
    ensures Plain(MsgRegex)
  {
  }

  /** Exactly the codes 1..13 have a message of their own; 0 and TOP_E_ROOT get the sentinel. */
  lemma {:induction false} MessageCoverage(e: int)
    ensures MessageOf(e) != NoInformation <==> 1 <= e <= 13
    ensures MessageOf(TOP_E_ROOT) == NoInformation && MessageOf(0) == NoInformation
  {
    TableLayout();
    if 1 <= e <= 13 {
      assert Table[e - 1].id == e;
    }
    assert !exists k :: 0 <= k < |Table| - 1 && Table[k].id == TOP_E_ROOT;
  }

  /** The index the id scan stops at: the first entry whose id is e or the sentinel 0. */
  function ScanStop(ids: seq<int>, e: int): (k: nat)
    requires 0 in ids
    ensures k < |ids| && (ids[k] == 0 || ids[k] == e)
    ensures forall j :: 0 <= j < k ==> ids[j] != 0 && ids[j] != e
  {
    if ids[0] == 0 || ids[0] == e then 0 else ScanStop(ids[1..], e) + 1
  }

  /** Any index with the scan's stopping property is the one ScanStop finds. */
  lemma {:induction false} ScanStopUnique(ids: seq<int>, e: int, i: nat)
    requires 0 in ids && i < |ids| && (ids[i] == 0 || ids[i] == e)
    requires forall k :: 0 <= k < i ==> ids[k] != 0 && ids[k] != e
    ensures ScanStop(ids, e) == i
  {
    if i > 0 {
      assert ids[1..][i - 1] == ids[i];
      ScanStopUnique(ids[1..], e, i - 1);
    }
  }

  /** A table as strerror_custom expects one: a final sentinel id and NUL-free messages. */
  predicate WellFormedTable(t: seq<Entry>)
  {
    |t| > 0 && t[|t| - 1].id % 256 == 0 && forall k :: 0 <= k < |t| ==> Plain(t[k].msg)
  }

  /**
   * The two loops of strerror_custom over any well-formed table: scan errid[]
   * for e (or the sentinel), then walk errmsg[] past that many NUL-terminated
   * strings.  The result is the offset of the message inside errmsg[], as the
   * C function returns a pointer into it.
   */
  method ScanTable(t: seq<Entry>, e: int) returns (p: nat)
    requires WellFormedTable(t)
    ensures p <= |Blob(t)|
    ensures CStr(Blob(t)[p..]) == t[ScanStop(Ids(t), e)].msg
  {
    var ids := Ids(t);
    assert ids[|t| - 1] == 0;
    var i := 0;
    while ids[i] != 0 && ids[i] != e
      invariant 0 <= i < |ids|
      invariant forall k :: 0 <= k < i ==> ids[k] != 0 && ids[k] != e
      decreases |ids| - i
    {
      i := i + 1;
    }
    ScanStopUnique(ids, e, i);
    var blob := Blob(t);
    p := 0;
    var done := 0;
    while done < i
      invariant 0 <= done <= i
      invariant p <= |blob| && blob[p..] == Blob(t[done..])
    {
      BlobUnfold(t, done);
      p := SkipString(blob, p, t[done].msg, Blob(t[done + 1..]));
      done := done + 1;
    }
    BlobUnfold(t, i);
    CStrTerminated(t[i].msg, Blob(t[i + 1..]));
  }

  /** The inner loop of the walk: step over one string and its NUL. */
  method SkipString(blob: seq<char>, p: nat, ghost msg: string, ghost rest: seq<char>) returns (q: nat)
    requires p <= |blob| && blob[p..] == msg + [NUL] + rest && Plain(msg)
    ensures q == p + |msg| + 1 && q <= |blob| && blob[q..] == rest
  {
    q := p;
    while blob[q] != NUL
      invariant p <= q <= p + |msg|
      invariant blob[q..] == msg[q - p..] + [NUL] + rest
      decreases p + |msg| - q
    {
      SuffixStep(blob, q);
      q := q + 1;
    }
    assert blob[q] == (msg[q - p..] + [NUL] + rest)[0];
    assert q == p + |msg|;
    SuffixStep(blob, q);
    q := q + 1;
  }

  lemma BlobUnfold(t: seq<Entry>, k: nat)
    requires k < |t|
    ensures Blob(t[k..]) == t[k].msg + [NUL] + Blob(t[k + 1..])
  {
    assert t[k..][1..] == t[k + 1..];
  }

  lemma SuffixStep(s: seq<char>, p: nat)
    requires p < |s|
    ensures s[p..] == [s[p]] + s[p + 1..]
  {
  }

  /** For this table the scan stops at exactly the message MessageOf pairs with e. */
  lemma ScanFindsMessage(e: int)
    ensures WellFormedTable(Table)
    ensures Table[ScanStop(Ids(Table), e)].msg == MessageOf(e)
  {
    TableLayout();
    MessagesPlain();
    IdsLayout();
    var ids := Ids(Table);
    if 1 <= e <= 13 {
      ScanStopUnique(ids, e, e - 1);
    } else {
      ScanStopUnique(ids, e, |Table| - 1);
      assert !exists k :: 0 <= k < |Table| - 1 && Table[k].id == e;
    }
  }

  /** errid[] as the table expands it: the codes 1..13, then the sentinel. */
  lemma IdsLayout()
    ensures |Ids(Table)| == 14 && Ids(Table)[13] == 0
    ensures forall k :: 0 <= k < 13 ==> Ids(Table)[k] == k + 1
  {
    TableLayout();
  }

  /** strerror_custom: the offset in errmsg[] of the message for e. */
  method StrErrorCustom(e: int) returns (p: nat)
    ensures p <= |Blob(Table)|
    ensures CStr(Blob(Table)[p..]) == MessageOf(e)
  {
    ScanFindsMessage(e);
    p := ScanTable(Table, e);
  }

  /**
   * As the source writes it, the suffix is printed at offset `printed` with
   * room `size - printed` in size_t arithmetic; a message longer than the
   * buffer makes that window start past the end and wrap to a huge room.
   */
  const SIZE_T_RANGE := 0x1_0000_0000_0000_0000

  function SuffixWindowAsWritten(size: nat, printed: nat): (w: (nat, nat))
    requires size < SIZE_T_RANGE && printed < SIZE_T_RANGE
  {
    (printed, (size - printed) % SIZE_T_RANGE)
  }

  /** A four-byte buffer and TOP_E_CONN: the suffix window lies outside the buffer. */
  lemma ShortBufferOverflowsAsWritten()
    ensures var w := SuffixWindowAsWritten(4, |MessageOf(TOP_E_CONN)|);
            w.0 > 4 && w.1 > 4
  {
    assert MessageOf(TOP_E_CONN) == "Could not connect" by {
      TableLayout();
      assert Table[4].id == TOP_E_CONN;
    }
  }

  /** The room left for the suffix once the message is printed, never past the end. */
  function SuffixRoom(size: nat, printed: nat): (r: nat)
    ensures printed < size ==> printed + r == size
    ensures printed >= size ==> r == 0
  {
    if printed < size then size - printed else 0
  }

  /**
   * snprintf(buf + off, room, "%s", text): writes as much of text as fits in
   * room - 1 bytes followed by a NUL, and nothing when room is 0.
   */
  method BoundedPrint(buf: array<char>, off: nat, room: nat, text: string)
    requires off + room <= buf.Length
    modifies buf
    ensures room == 0 ==> buf[..] == old(buf[..])
    ensures room > 0 ==>
      var k := Min(|text|, room - 1);
      buf[..off] == old(buf[..off]) && buf[off..off + k] == text[..k] && buf[off + k] == NUL
      && buf[off + k + 1..] == old(buf[off + k + 1..])
  {
    if room == 0 {
      return;
    }
    var k := Min(|text|, room - 1);
    var j := 0;
    while j < k
      invariant 0 <= j <= k
      invariant buf[..off] == old(buf[..off])
      invariant buf[off..off + j] == text[..j]
      invariant buf[off + j..] == old(buf[off + j..])
    {
      buf[off + j] := text[j];
      j := j + 1;
    }
    buf[off + k] := NUL;
  }

  /**
   * The two prints of return_error: the message with snprintf, then the
   * suffix with vsnprintf right after it, in the room that is left.
   */
  method PrintMessageAndSuffix(buf: array<char>, msg: string, suffix: string)
    requires buf.Length > 0
    modifies buf
    ensures var text := msg + suffix;
      var k := Min(|text|, buf.Length - 1);
      buf[..k] == text[..k] && buf[k] == NUL && buf[k + 1..] == old(buf[k + 1..])
  {
    BoundedPrint(buf, 0, buf.Length, msg);
    var printed := |msg|;
    ghost var mid := buf[..];
    BoundedPrint(buf, Min(printed, buf.Length), SuffixRoom(buf.Length, printed), suffix);
    ghost var text := msg + suffix;
    ghost var k := Min(|text|, buf.Length - 1);
    if printed < buf.Length {
      assert buf[..printed] == mid[..printed];
      assert buf[..k] == buf[..printed] + buf[printed..k];
      assert text[..k] == msg + suffix[..k - printed];
    } else {
      assert buf[..] == mid;
    }
  }

  /**
   * return_error: when there is a buffer of nonzero size, fills it with the
   * code's message followed by the formatted suffix, cut to size - 1 bytes and
   * NUL-terminated; always returns e.
   */
  method ReturnError(buf: array?<char>, e: int, suffix: string) returns (r: int)
    modifies buf
    ensures r == e
    ensures buf != null && buf.Length == 0 ==> buf[..] == old(buf[..])
    ensures buf != null && buf.Length > 0 ==>
      var text := MessageOf(e) + suffix;
      var k := Min(|text|, buf.Length - 1);
      buf[..k] == text[..k] && buf[k] == NUL && buf[k + 1..] == old(buf[k + 1..])
  {
    r := e;
    if buf != null && buf.Length > 0 {
      var p := StrErrorCustom(e);
      var msg := CStr(Blob(Table)[p..]);
      PrintMessageAndSuffix(buf, msg, suffix);
    }
  }
}
