/** Parsing one log line, and the proof that it inverts printing. */
module Parser {
  import opened Bytes
  import opened Codec

  /** The parser's mutable record: every field a line may carry. */
  datatype Op = Op(c: bytes, u: bytes, h: bytes, x: bytes,
                   a: int, e: int, i: int, n: int, d: int, hasE: bool)

  const DEFAULT_OP: Op := Op([], [], [], [], 0, 0, 0, 0, 0, false)

  // ---- string values ----

  /** Where a quoted value ends: the index of its closing quote (past the end when it is
      missing), and whether any backslash was met. */
  function ScanString(s: bytes): (r: (nat, bool))
    ensures r.0 <= |s| + 1
  {
    if s == [] then (0, false)
    else if s[0] == BACKSLASH then
      if |s| == 1 then (2, true) else (2 + ScanString(s[2..]).0, true)
    else if s[0] == QUOTE then (0, false)
    else var (n, e) := ScanString(s[1..]); (1 + n, e)
  }

  function HexValue(b: byte): (v: int)
    ensures -1 <= v < 16
  {
    if IsDigit(b) then b as int - 48
    else if 97 <= b <= 102 then b as int - 87
    else if 65 <= b <= 70 then b as int - 55
    else -1
  }

  /** u32::from_str_radix(h, 16) on four bytes, then char::from_u32. */
  function HexScalar(h: bytes): (r: Option<int>)
    requires |h| == 4
    ensures r.Some? ==> 0 <= r.value < 0x10000 && !(0xD800 <= r.value < 0xE000)
  {
    var first := if h[0] == PLUS then 0 else HexValue(h[0]);
    if first < 0 || HexValue(h[1]) < 0 || HexValue(h[2]) < 0 || HexValue(h[3]) < 0 then None
    else
      var v := first * 4096 + HexValue(h[1]) * 256 + HexValue(h[2]) * 16 + HexValue(h[3]);
      if 0xD800 <= v < 0xE000 then None else Some(v)
  }

  /** The first unit of an escaped value: the bytes it stands for and its length. */
  function EscapeUnit(s: bytes): (r: (bytes, nat))
    requires s != []
    ensures 1 <= r.1 <= |s|
  {
    if s[0] != BACKSLASH || |s| == 1 then ([s[0]], 1)
    else if s[1] == 110 then ([NL], 2)
    else if s[1] == 114 then ([CR], 2)
    else if s[1] == 116 then ([9], 2)
    else if s[1] == 98 then ([8], 2)
    else if s[1] == 102 then ([12], 2)
    else if s[1] == 117 && |s| >= 6 && HexScalar(s[2..6]).Some? then
      (EncodeScalar(HexScalar(s[2..6]).value), 6)
    else ([s[1]], 2)
  }

  /** The bytes an escaped value stands for. */
  function UnescapeBytes(s: bytes): bytes {
    if s == [] then [] else EscapeUnit(s).0 + UnescapeBytes(s[EscapeUnit(s).1..])
  }

  method Unescape(b: bytes) returns (out: bytes)
    ensures out == Lossy(UnescapeBytes(b))
  {
    out := [];
    var i := 0;
    assert b[0..] == b;
    while i < |b|
      invariant 0 <= i <= |b|
      invariant out + UnescapeBytes(b[i..]) == UnescapeBytes(b)
    {
      var (w, k) := EscapeUnit(b[i..]);
      NextUnit(b, i, out, w, k);
      out := out + w;
      i := i + k;
    }
    assert b[i..] == [] && out == UnescapeBytes(b);
    out := Lossy(out);
  }

  lemma UnescapeStep(s: bytes, w: bytes, k: nat)
    requires s != [] && EscapeUnit(s) == (w, k)
    ensures UnescapeBytes(s) == w + UnescapeBytes(s[k..])
  {
  }

  lemma NextUnit(b: bytes, i: nat, out: bytes, w: bytes, k: nat)
    requires i < |b| && EscapeUnit(b[i..]) == (w, k)
    ensures out + UnescapeBytes(b[i..]) == (out + w) + UnescapeBytes(b[i + k..])
  {
    UnescapeStep(b[i..], w, k);
    DropDrop(b, i, k);
    Regroup(out, w, UnescapeBytes(b[i + k..]));
  }

  // ---- fields ----

  /** The text of a quoted value, given its raw bytes. */
  function StringValue(raw: bytes, escapes: bool): bytes {
    if escapes then Lossy(UnescapeBytes(raw)) else Lossy(raw)
  }

  function SetStr(o: Op, key: bytes, s: bytes): Op {
    if key == [] then o
    else if key[0] == 99 then o.(c := s)
    else if key[0] == 117 then o.(u := s)
    else if key[0] == 104 then o.(h := s)
    else if key[0] == 120 then o.(x := s)
    else o
  }

  function NumText(raw: bytes): bytes {
    if ValidUtf8(raw) then Trim(raw) else []
  }

  function NumValue(t: bytes): (v: int)
    ensures IsI64(v)
  {
    match ParseI64(t)
    case Some(v) => v
    case None => 0
  }

  function SetNum(o: Op, key: bytes, raw: bytes): Op {
    var t := NumText(raw);
    if key == [] then o
    else if key[0] == 97 then o.(a := NumValue(t))
    else if key[0] == 101 then (if t == NULL_WORD then o else o.(e := NumValue(t), hasE := true))
    else if key[0] == 105 then o.(i := NumValue(t))
    else if key[0] == 110 then o.(n := NumValue(t))
    else if key[0] == 100 then o.(d := NumValue(t))
    else o
  }

  function SkipBlanks(s: bytes): (r: bytes)
    ensures |r| <= |s|
  {
    if s != [] && (s[0] == 32 || s[0] == 9) then SkipBlanks(s[1..]) else s
  }

  /** Length of an unquoted value: up to the next comma or closing brace. */
  function BareLen(s: bytes): (k: nat)
    ensures k <= |s|
  {
    if s == [] || s[0] == COMMA || s[0] == RBRACE then 0 else 1 + BareLen(s[1..])
  }

  function Drop(s: bytes, k: nat): bytes {
    if k <= |s| then s[k..] else []
  }

  function Take(s: bytes, k: nat): bytes {
    if k <= |s| then s[..k] else s
  }

  /** What a key search finds: no more keys, a key cut short, or a key with the text at its value. */
  datatype KeyAt = NoKey | CutKey | KeyAt(key: bytes, rest: bytes)

  /** The text at the value that follows the next colon. */
  function ValueText(s: bytes): (r: Option<bytes>)
    ensures r.Some? ==> r.value != [] && |r.value| < |s|
  {
    var c := IndexOf(s, COLON);
    if c == |s| then None
    else
      var v := SkipBlanks(s[c + 1..]);
      if v == [] then None else Some(v)
  }

  /** A key whose opening quote has been consumed. */
  function KeyFrom(s: bytes): (r: KeyAt)
    ensures !r.NoKey? && (r.KeyAt? ==> r.rest != [] && |r.rest| < |s|)
  {
    var k := IndexOf(s, QUOTE);
    if k == |s| then CutKey
    else match ValueText(s[k + 1..])
      case None => CutKey
      case Some(v) => KeyAt(s[..k], v)
  }

  function FindKey(s: bytes): (r: KeyAt)
    ensures r.KeyAt? ==> r.rest != [] && |r.rest| < |s|
  {
    var q := IndexOf(s, QUOTE);
    if q == |s| then NoKey else KeyFrom(s[q + 1..])
  }

  /** The value at the head of `s` stored under `key`, and the text after it. */
  function FieldValue(o: Op, key: bytes, s: bytes): (r: (Op, bytes))
    requires s != []
    ensures |r.1| <= |s|
  {
    if s[0] == QUOTE then
      var v := s[1..];
      var (n, escapes) := ScanString(v);
      (SetStr(o, key, StringValue(Take(v, n), escapes)), Drop(v, n + 1))
    else (SetNum(o, key, s[..BareLen(s)]), s[BareLen(s)..])
  }

  /** All fields of `s` folded into `o`; None when a key is cut short. */
  function ParseFields(s: bytes, o: Op): Option<Op>
    decreases |s|
  {
    match FindKey(s)
    case NoKey => Some(o)
    case CutKey => None
    case KeyAt(key, rest) => var (o', rest') := FieldValue(o, key, rest); ParseFields(rest', o')
  }

  function ParseLine(b: bytes): Option<Op> {
    match ParseFields(b, DEFAULT_OP)
    case None => None
    case Some(o) => if o.c != [] || o.h != [] || o.x != [] then Some(o) else None
  }

  // ---- the cursor-driven parser ----

  method Seek(b: bytes, from: nat, c: byte) returns (pos: nat)
    requires from <= |b|
    ensures pos == from + IndexOf(b[from..], c) && pos <= |b|
    ensures b[from..pos] == b[from..][..IndexOf(b[from..], c)]
    ensures pos < |b| ==> b[pos + 1..] == b[from..][IndexOf(b[from..], c) + 1..]
  {
    pos := from;
    while pos < |b| && b[pos] != c
      invariant from <= pos <= |b|
      invariant from + IndexOf(b[from..], c) == pos + IndexOf(b[pos..], c)
    {
      assert b[pos..][1..] == b[pos + 1..];
      pos := pos + 1;
    }
  }

  method SkipBlankBytes(b: bytes, from: nat) returns (pos: nat)
    requires from <= |b|
    ensures from <= pos <= |b| && b[pos..] == SkipBlanks(b[from..])
  {
    pos := from;
    while pos < |b| && (b[pos] == 32 || b[pos] == 9)
      invariant from <= pos <= |b|
      invariant SkipBlanks(b[from..]) == SkipBlanks(b[pos..])
    {
      assert b[pos..][1..] == b[pos + 1..];
      pos := pos + 1;
    }
  }

  method ScanQuoted(b: bytes, from: nat) returns (pos: nat, escapes: bool)
    requires from <= |b|
    ensures from <= pos && (pos - from, escapes) == ScanString(b[from..])
  {
    pos, escapes := from, false;
    ghost var full := ScanString(b[from..]);
    ghost var ahead := full;
    while pos < |b|
      invariant from <= pos <= |b| + 1
      invariant ahead == if pos <= |b| then ScanString(b[pos..]) else (0, false)
      invariant full == (pos - from + ahead.0, escapes || ahead.1)
    {
      ghost var s := b[pos..];
      if b[pos] == BACKSLASH {
        assert |s| >= 2 ==> s[2..] == b[pos + 2..];
        escapes := true;
        pos := pos + 2;
        ahead := if pos <= |b| then ScanString(b[pos..]) else (0, false);
        continue;
      }
      if b[pos] == QUOTE {
        break;
      }
      assert s[1..] == b[pos + 1..];
      pos := pos + 1;
      ahead := ScanString(b[pos..]);
    }
  }

  method BareEnd(b: bytes, from: nat) returns (pos: nat)
    requires from <= |b|
    ensures pos == from + BareLen(b[from..]) && pos <= |b|
  {
    pos := from;
    while pos < |b| && b[pos] != COMMA && b[pos] != RBRACE
      invariant from <= pos <= |b|
      invariant from + BareLen(b[from..]) == pos + BareLen(b[pos..])
    {
      assert b[pos..][1..] == b[pos + 1..];
      pos := pos + 1;
    }
  }

  method SeekValue(b: bytes, from: nat) returns (v: Option<bytes>, pos: nat)
    requires from <= |b|
    ensures v == ValueText(b[from..]) && (v.Some? ==> pos < |b| && v.value == b[pos..])
  {
    pos := Seek(b, from, COLON);
    if pos >= |b| {
      return None, pos;
    }
    pos := SkipBlankBytes(b, pos + 1);
    v := if pos >= |b| then None else Some(b[pos..]);
  }

  method ReadKey(b: bytes, from: nat) returns (found: KeyAt, pos: nat)
    requires from <= |b|
    ensures found == KeyFrom(b[from..])
    ensures found.KeyAt? ==> pos < |b| && found.rest == b[pos..]
  {
    pos := Seek(b, from, QUOTE);
    if pos >= |b| {
      return CutKey, pos;
    }
    var end := pos;
    var v;
    v, pos := SeekValue(b, end + 1);
    KeyIs(b[from..], end - from, b[end + 1..]);
    found := if v.None? then CutKey else KeyAt(b[from..end], v.value);
  }

  lemma KeyIs(s: bytes, k: nat, rest: bytes)
    requires k == IndexOf(s, QUOTE) < |s| && rest == s[k + 1..]
    ensures KeyFrom(s) == match ValueText(rest) case None => CutKey case Some(v) => KeyAt(s[..k], v)
  {
  }

  /** Advance to the next value; `found` is NoKey, CutKey, or the key whose value is at `pos`. */
  method SeekKey(b: bytes, from: nat) returns (found: KeyAt, pos: nat)
    requires from <= |b|
    ensures found == FindKey(b[from..])
    ensures found.KeyAt? ==> pos < |b| && found.rest == b[pos..]
  {
    pos := Seek(b, from, QUOTE);
    if pos >= |b| {
      return NoKey, pos;
    }
    found, pos := ReadKey(b, pos + 1);
  }

  /** The text of a quoted value that starts at `vs` and whose scan ended at `pos`. */
  method QuotedText(b: bytes, vs: nat, pos: nat, escapes: bool) returns (str: bytes)
    requires vs <= |b| && vs <= pos
    ensures str == StringValue(Take(b[vs..], pos - vs), escapes)
  {
    var val := b[vs..if pos <= |b| then pos else |b|];
    assert val == Take(b[vs..], pos - vs);
    if escapes {
      str := Unescape(val);
    } else {
      str := Lossy(val);
    }
  }

  method ReadQuoted(b: bytes, from: nat, key: bytes, o: Op) returns (o': Op, pos: nat)
    requires from < |b| && b[from] == QUOTE
    ensures from <= pos && (o', Drop(b, pos)) == FieldValue(o, key, b[from..])
  {
    var vs := from + 1;
    var end, escapes := ScanQuoted(b, vs);
    var str := QuotedText(b, vs, end, escapes);
    QuotedAt(o, key, b, from, end, escapes);
    pos := end + 1;
    o' := SetStr(o, key, str);
  }

  lemma QuotedAt(o: Op, key: bytes, b: bytes, from: nat, end: nat, escapes: bool)
    requires from < |b| && b[from] == QUOTE && from + 1 <= end &&
      ScanString(b[from + 1..]) == (end - (from + 1), escapes)
    ensures FieldValue(o, key, b[from..]) ==
            (SetStr(o, key, StringValue(Take(b[from + 1..], end - (from + 1)), escapes)), Drop(b, end + 1))
  {
    var s, n := b[from..], end - (from + 1);
    assert s[1..] == b[from + 1..];
    QuotedIs(o, key, s, n, escapes);
    assert Drop(b, end + 1) == Drop(b[from + 1..], n + 1);
  }

  lemma QuotedIs(o: Op, key: bytes, s: bytes, n: nat, escapes: bool)
    requires s != [] && s[0] == QUOTE && ScanString(s[1..]) == (n, escapes)
    ensures FieldValue(o, key, s) == (SetStr(o, key, StringValue(Take(s[1..], n), escapes)), Drop(s[1..], n + 1))
  {
  }

  /** Read the value at `from` into the record and advance past it. */
  method ReadValue(b: bytes, from: nat, key: bytes, o: Op) returns (o': Op, pos: nat)
    requires from < |b|
    ensures from <= pos && (o', Drop(b, pos)) == FieldValue(o, key, b[from..])
  {
    if b[from] == QUOTE {
      o', pos := ReadQuoted(b, from, key, o);
    } else {
      pos := BareEnd(b, from);
      o' := SetNum(o, key, b[from..pos]);
      assert b[from..pos] == b[from..][..BareLen(b[from..])];
    }
  }

  method ParseOp(b: bytes) returns (r: Option<Op>)
    ensures r == ParseLine(b)
  {
    var o := DEFAULT_OP;
    var pos := 0;
    while pos < |b|
      invariant 0 <= pos
      invariant ParseFields(b, DEFAULT_OP) == ParseFields(Drop(b, pos), o)
      decreases |b| - pos
    {
      var found, at := SeekKey(b, pos);
      match found {
        case NoKey => break;
        case CutKey => return None;
        case KeyAt(key, _) => o, pos := ReadValue(b, at, key, o);
      }
    }
    if o.c != [] || o.h != [] || o.x != [] {
      r := Some(o);
    } else {
      r := None;
    }
  }
}
