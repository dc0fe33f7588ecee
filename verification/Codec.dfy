/** The log-line codec: printing rows, hit deltas and tombstones, and parsing them back. */
module Codec {
  import opened Bytes

  // ---- what a log line means ----

  /** One log line: a link row, a hit delta logged by instance `i`, or a tombstone.
      `e == 0` in a row stands for "never expires". */
  datatype LogOp =
    | Row(c: bytes, u: bytes, a: int, e: int, i: int, n: int)
    | Hit(h: bytes, d: int, node: int)
    | Del(x: bytes)
  {
    function Code(): bytes {
      match this
      case Row(c, _, _, _, _, _) => c
      case Hit(h, _, _) => h
      case Del(x) => x
    }
  }

  /** Alphabet and length of codes the API accepts. */
  predicate CodeOk(c: bytes) {
    1 <= |c| <= 64 && forall k :: 0 <= k < |c| ==>
      IsDigit(c[k]) || 65 <= c[k] <= 90 || 97 <= c[k] <= 122 || c[k] == 95 || c[k] == MINUS
  }

  /** Lines the store ever writes: acceptable code, url a Rust string, 64-bit integers. */
  predicate Loggable(op: LogOp) {
    CodeOk(op.Code()) &&
    match op
    case Row(_, u, a, e, i, n) => ValidUtf8(u) && IsI64(a) && IsI64(e) && IsI64(i) && IsI64(n)
    case Hit(_, d, i) => IsI64(d) && IsI64(i)
    case Del(_) => true
  }

  // ---- printing: specification ----

  function HexDigit(v: int): (b: byte)
    requires 0 <= v < 16
  {
    if v < 10 then 48 + v else 87 + v
  }

  function EscByte(c: byte): (r: bytes)
    ensures NL !in r
  {
    if c == QUOTE || c == BACKSLASH then [BACKSLASH, c]
    else if c == NL then [BACKSLASH, 110]
    else if c == CR then [BACKSLASH, 114]
    else if c == 9 then [BACKSLASH, 116]
    else if c == 8 then [BACKSLASH, 98]
    else if c == 12 then [BACKSLASH, 102]
    else if c < 32 then [BACKSLASH, 117, 48, 48, HexDigit(c / 16), HexDigit(c % 16)]
    else [c]
  }

  function Esc(u: bytes): (r: bytes)
    ensures NL !in r
  {
    if u == [] then [] else EscByte(u[0]) + Esc(u[1..])
  }

  /** `p"k":"w"` followed by `rest`, for a one-letter key. */
  function StrField(p: byte, k: byte, w: bytes, rest: bytes): bytes {
    [p, QUOTE, k, QUOTE, COLON, QUOTE] + w + [QUOTE] + rest
  }

  /** `p"k":num` followed by `rest`. */
  function NumField(p: byte, k: byte, num: bytes, rest: bytes): bytes {
    [p, QUOTE, k, QUOTE, COLON] + num + rest
  }

  const NULL_WORD: bytes := [110, 117, 108, 108]

  function ExpiryText(e: int): bytes {
    if e == 0 then NULL_WORD else Decimal(e)
  }

  /** The text of one line, without its newline. */
  function Line(op: LogOp): bytes {
    match op
    case Row(c, u, a, e, i, n) =>
      StrField(LBRACE, 99, c,
      StrField(COMMA, 117, Esc(u),
      NumField(COMMA, 97, Decimal(a),
      NumField(COMMA, 101, ExpiryText(e),
      NumField(COMMA, 105, Decimal(i),
      NumField(COMMA, 110, Decimal(n), [RBRACE]))))))
    case Hit(h, d, i) =>
      StrField(LBRACE, 104, h,
      NumField(COMMA, 100, Decimal(d),
      NumField(COMMA, 105, Decimal(i), [RBRACE])))
    case Del(x) => StrField(LBRACE, 120, x, [RBRACE])
  }

  lemma StrThen(p: byte, k: byte, w: bytes, rest: bytes)
    ensures StrField(p, k, w, rest) == [p, QUOTE, k, QUOTE, COLON, QUOTE] + (w + ([QUOTE] + rest))
  {
  }

  lemma NumThen(p: byte, k: byte, w: bytes, rest: bytes)
    ensures NumField(p, k, w, rest) == [p, QUOTE, k, QUOTE, COLON] + (w + rest)
    ensures [QUOTE] + NumField(p, k, w, rest) == [QUOTE, p, QUOTE, k, QUOTE, COLON] + (w + rest)
  {
  }

  lemma UrlThen(w: bytes, rest: bytes)
    ensures [QUOTE] + StrField(COMMA, 117, w, rest) == Ascii("\",\"u\":\"") + (w + ([QUOTE] + rest))
  {
    assert Ascii("\",\"u\":\"") == [QUOTE, COMMA, QUOTE, 117, QUOTE, COLON, QUOTE];
  }

  lemma Heads()
    ensures Ascii("{\"c\":\"") == [LBRACE, QUOTE, 99, QUOTE, COLON, QUOTE]
    ensures Ascii("{\"h\":\"") == [LBRACE, QUOTE, 104, QUOTE, COLON, QUOTE]
    ensures Ascii("{\"x\":\"") == [LBRACE, QUOTE, 120, QUOTE, COLON, QUOTE]
    ensures Ascii("\",\"a\":") == [QUOTE, COMMA, QUOTE, 97, QUOTE, COLON]
    ensures Ascii("\",\"d\":") == [QUOTE, COMMA, QUOTE, 100, QUOTE, COLON]
    ensures Ascii(",\"e\":") == [COMMA, QUOTE, 101, QUOTE, COLON]
    ensures Ascii(",\"i\":") == [COMMA, QUOTE, 105, QUOTE, COLON]
    ensures Ascii(",\"n\":") == [COMMA, QUOTE, 110, QUOTE, COLON]
    ensures Ascii("}") == [RBRACE] && Ascii("\"}") == [QUOTE, RBRACE] && Ascii("null") == NULL_WORD
  {
  }

  /** A row's line, written out. */
  lemma RowLineText(c: bytes, u: bytes, a: int, e: int, i: int, n: int)
    ensures Line(Row(c, u, a, e, i, n)) ==
            Ascii("{\"c\":\"") + (c + (Ascii("\",\"u\":\"") + (Esc(u) + (Ascii("\",\"a\":") + (Decimal(a) +
            (Ascii(",\"e\":") + ((if e == 0 then Ascii("null") else Decimal(e)) +
            (Ascii(",\"i\":") + (Decimal(i) + (Ascii(",\"n\":") + (Decimal(n) + Ascii("}"))))))))))))
  {
    Heads();
    var atN := NumField(COMMA, 110, Decimal(n), [RBRACE]);
    var atI := NumField(COMMA, 105, Decimal(i), atN);
    var atE := NumField(COMMA, 101, ExpiryText(e), atI);
    var atA := NumField(COMMA, 97, Decimal(a), atE);
    NumThen(COMMA, 110, Decimal(n), [RBRACE]);
    NumThen(COMMA, 105, Decimal(i), atN);
    NumThen(COMMA, 101, ExpiryText(e), atI);
    NumThen(COMMA, 97, Decimal(a), atE);
    UrlThen(Esc(u), atA);
    StrThen(LBRACE, 99, c, StrField(COMMA, 117, Esc(u), atA));
  }

  /** And the lines of a hit and of a tombstone. */
  lemma HitLineText(c: bytes, d: int, i: int)
    ensures Line(Hit(c, d, i)) ==
            Ascii("{\"h\":\"") + (c + (Ascii("\",\"d\":") +
              (Decimal(d) + (Ascii(",\"i\":") + (Decimal(i) + Ascii("}"))))))
    ensures Line(Del(c)) == Ascii("{\"x\":\"") + (c + Ascii("\"}"))
  {
    Heads();
    var atI := NumField(COMMA, 105, Decimal(i), [RBRACE]);
    NumThen(COMMA, 105, Decimal(i), [RBRACE]);
    NumThen(COMMA, 100, Decimal(d), atI);
    StrThen(LBRACE, 104, c, NumField(COMMA, 100, Decimal(d), atI));
    StrThen(LBRACE, 120, c, [RBRACE]);
  }

  /** Texts are escaped byte by byte. */
  lemma EscText(c: byte, rest: bytes)
    ensures Esc([]) == [] && Esc([c] + rest) == EscByte(c) + Esc(rest)
  {
    assert ([c] + rest)[1..] == rest;
  }

  /** The escapes are those of section 7 of RFC 8259. */
  lemma EscByteText(c: byte)
    ensures EscByte(c) == match c
                          case 8 => Ascii("\\b")
                          case 9 => Ascii("\\t")
                          case 10 => Ascii("\\n")
                          case 12 => Ascii("\\f")
                          case 13 => Ascii("\\r")
                          case 34 => Ascii("\\\"")
                          case 92 => Ascii("\\\\")
                          case _ =>
                            if c >= 32 then [c]
                            else Ascii("\\u00") + [Ascii("01")[c / 16], Ascii("0123456789abcdef")[c % 16]]
  {
  }

  // ---- printing: the in-place appenders ----

  method EscInto(dst: bytes, u: bytes) returns (r: bytes)
    ensures r == dst + Esc(u)
  {
    r := dst;
    for k := 0 to |u|
      invariant r + Esc(u[k..]) == dst + Esc(u)
    {
      assert u[k..][1..] == u[k + 1..];
      r := r + EscByte(u[k]);
    }
  }

  lemma Pow10At19()
    ensures Pow10(19) == 10_000_000_000_000_000_000
  {
    assert Pow10(8) == 100_000_000;
    assert Pow10(16) == 10_000_000_000_000_000;
  }

  /** The digit written next, and what is left to print. */
  lemma LastDigit(v: nat, done: bytes, i: nat)
    requires 0 < i && v < Pow10(i)
    ensures v / 10 < Pow10(i - 1)
    ensures NatDigits(v) + done == (if v < 10 then [] else NatDigits(v / 10)) + ([48 + v % 10] + done)
  {
    var front := if v < 10 then [] else NatDigits(v / 10);
    assert NatDigits(v) == front + [48 + v % 10];
    assert (front + [48 + v % 10]) + done == front + ([48 + v % 10] + done);
  }

  /** The 20-byte scratch array is filled from the back; the bounds proofs show that
      no i64, not even the minimum, overruns it. */
  method Itoa(dst: bytes, n: int) returns (r: bytes)
    requires IsI64(n)
    ensures r == dst + Decimal(n)
  {
    var tmp := new byte[20];
    var i := 20;
    var v := if n < 0 then -n else n;
    ghost var all := NatDigits(v);
    ghost var done: bytes := [];
    Pow10At19();
    while i == 20 || v != 0
      invariant 1 <= i <= 20 && 0 <= v < Pow10(i - 1) && tmp[i..] == done
      invariant all == if i < 20 && v == 0 then done else NatDigits(v) + done
      decreases i
    {
      i := i - 1;
      LastDigit(v, done, i);
      tmp[i] := 48 + v % 10;
      done := [48 + v % 10] + done;
      v := v / 10;
    }
    if n < 0 {
      i := i - 1;
      tmp[i] := MINUS;
      assert tmp[i..] == [MINUS] + done;
    }
    r := dst + tmp[i..];
  }

  /** Append `p"k":"w"`; `rest` is what the caller appends afterwards. */
  method PutStr(dst: bytes, p: byte, k: byte, w: bytes, ghost rest: bytes) returns (r: bytes)
    ensures r + rest == dst + StrField(p, k, w, rest)
  {
    r := dst + [p, QUOTE, k, QUOTE, COLON, QUOTE] + w + [QUOTE];
  }

  /** Append `p"k":` and the escaped text of `u` in quotes. */
  method PutEscaped(dst: bytes, p: byte, k: byte, u: bytes, ghost rest: bytes) returns (r: bytes)
    ensures r + rest == dst + StrField(p, k, Esc(u), rest)
  {
    r := EscInto(dst + [p, QUOTE, k, QUOTE, COLON, QUOTE], u);
    r := r + [QUOTE];
  }

  /** Append `p"k":n`. */
  method PutNum(dst: bytes, p: byte, k: byte, n: int, ghost rest: bytes) returns (r: bytes)
    requires IsI64(n)
    ensures r + rest == dst + NumField(p, k, Decimal(n), rest)
  {
    r := Itoa(dst + [p, QUOTE, k, QUOTE, COLON], n);
  }

  method RowLineInto(dst: bytes, c: bytes, u: bytes, a: int, e: int, i: int, n: int) returns (b: bytes)
    requires IsI64(a) && IsI64(e) && IsI64(i) && IsI64(n)
    ensures b == dst + Line(Row(c, u, a, e, i, n))
  {
    ghost var atN := NumField(COMMA, 110, Decimal(n), [RBRACE]);
    ghost var atI := NumField(COMMA, 105, Decimal(i), atN);
    ghost var atE := NumField(COMMA, 101, ExpiryText(e), atI);
    ghost var atA := NumField(COMMA, 97, Decimal(a), atE);
    ghost var atU := StrField(COMMA, 117, Esc(u), atA);
    b := PutStr(dst, LBRACE, 99, c, atU);
    b := PutEscaped(b, COMMA, 117, u, atA);
    b := PutNum(b, COMMA, 97, a, atE);
    if e == 0 {
      ghost var before := b;
      b := b + ([COMMA, QUOTE, 101, QUOTE, COLON] + NULL_WORD);
      assert b + atI == before + atE;
    } else {
      b := PutNum(b, COMMA, 101, e, atI);
    }
    b := PutNum(b, COMMA, 105, i, atN);
    b := PutNum(b, COMMA, 110, n, [RBRACE]);
    b := b + [RBRACE];
  }

  method HitLineInto(dst: bytes, c: bytes, d: int, i: int) returns (b: bytes)
    requires IsI64(d) && IsI64(i)
    ensures b == dst + Line(Hit(c, d, i))
  {
    ghost var atI := NumField(COMMA, 105, Decimal(i), [RBRACE]);
    b := PutStr(dst, LBRACE, 104, c, NumField(COMMA, 100, Decimal(d), atI));
    b := PutNum(b, COMMA, 100, d, atI);
    b := PutNum(b, COMMA, 105, i, [RBRACE]);
    b := b + [RBRACE];
  }

  method DelLine(c: bytes) returns (b: bytes)
    ensures b == Line(Del(c))
  {
    b := PutStr([], LBRACE, 120, c, [RBRACE]);
    b := b + [RBRACE];
  }
}
