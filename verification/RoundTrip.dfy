/** Printing a log line and parsing it gives the line back. */
module RoundTrip {
  import opened Bytes
  import opened Codec
  import opened Parser

  /** What the store's fold sees in a parsed record: tombstone first, then hit, then row. */
  function Classify(o: Op): LogOp {
    if o.x != [] then Del(o.x)
    else if o.h != [] then Hit(o.h, o.d, o.i)
    else Row(o.c, o.u, o.a, if o.hasE then o.e else 0, o.i, o.n)
  }

  function Decode(line: bytes): Option<LogOp> {
    match ParseLine(line)
    case None => None
    case Some(o) => Some(Classify(o))
  }

  // ---- escaped strings ----

  lemma EscByteUnit(c: byte, t: bytes)
    ensures EscapeUnit(EscByte(c) + t) == ([c], |EscByte(c)|)
  {
    var s := EscByte(c) + t;
    if |EscByte(c)| == 6 {
      assert s[2..6] == [48, 48, HexDigit(c / 16), HexDigit(c % 16)];
      assert HexScalar(s[2..6]) == Some(c as int);
    }
  }

  lemma {:induction false} UnescapeInvertsEsc(u: bytes)
    ensures UnescapeBytes(Esc(u)) == u
  {
    if u != [] {
      UnescapeInvertsEsc(u[1..]);
      UnescapeOne(u[0], Esc(u[1..]));
      assert Esc(u) == EscByte(u[0]) + Esc(u[1..]);
      assert [u[0]] + u[1..] == u;
    }
  }

  lemma UnescapeOne(c: byte, t: bytes)
    ensures UnescapeBytes(EscByte(c) + t) == [c] + UnescapeBytes(t)
  {
    EscByteUnit(c, t);
    UnescapeStep(EscByte(c) + t, [c], |EscByte(c)|);
    assert (EscByte(c) + t)[|EscByte(c)|..] == t;
  }

  /** Scanning past one escaped byte. */
  lemma ScanEscByte(c: byte, t: bytes)
    ensures var r, r' := ScanString(t), ScanString(EscByte(c) + t);
      r'.0 == |EscByte(c)| + r.0 && r'.1 == (r.1 || |EscByte(c)| > 1)
  {
    var s := EscByte(c) + t;
    if |EscByte(c)| == 1 {
      assert s[1..] == t;
    } else if |EscByte(c)| == 2 {
      assert s[2..] == t;
    } else {
      var h := [48, 48, HexDigit(c / 16), HexDigit(c % 16)];
      assert s[2..] == h + t;
      ScanPlain(h, t);
    }
  }

  /** Scanning past bytes that are neither quotes nor backslashes. */
  lemma {:induction false} ScanPlain(w: bytes, t: bytes)
    requires QUOTE !in w && BACKSLASH !in w
    ensures var r := ScanString(t); ScanString(w + t) == (|w| + r.0, r.1)
  {
    if w == [] {
      assert w + t == t;
    } else {
      ScanPlain(w[1..], t);
      assert (w + t)[1..] == w[1..] + t;
    }
  }

  /** An escaped text ends at the quote after it; it holds a backslash unless nothing was escaped. */
  lemma {:induction false} ScanEsc(u: bytes, t: bytes)
    ensures ScanString(Esc(u) + [QUOTE] + t).0 == |Esc(u)|
    ensures !ScanString(Esc(u) + [QUOTE] + t).1 ==> Esc(u) == u
  {
    if u == [] {
      assert Esc(u) + [QUOTE] + t == [QUOTE] + t;
    } else {
      ScanEsc(u[1..], t);
      var rest := Esc(u[1..]) + [QUOTE] + t;
      assert Esc(u) + [QUOTE] + t == EscByte(u[0]) + rest;
      ScanEscByte(u[0], rest);
    }
  }

  // ---- one field at a time ----

  lemma FieldKey(p: byte, k: byte, t: bytes)
    requires p != QUOTE && k != QUOTE
    requires t != [] && t[0] != 32 && t[0] != 9
    ensures FindKey([p, QUOTE, k, QUOTE, COLON] + t) == KeyAt([k], t)
  {
    var s := [p, QUOTE, k, QUOTE, COLON] + t;
    IndexOfAt([p], QUOTE, [k, QUOTE, COLON] + t);
    assert s == [p] + [QUOTE] + ([k, QUOTE, COLON] + t);
    var s1 := s[2..];
    IndexOfAt([k], QUOTE, [COLON] + t);
    assert s1 == [k] + [QUOTE] + ([COLON] + t);
    var s2 := s1[2..];
    IndexOfAt([], COLON, t);
    assert s2 == [] + [COLON] + t;
    assert s2[1..] == t;
  }

  lemma StrFieldStep(p: byte, k: byte, w: bytes, rest: bytes, o: Op)
    requires p != QUOTE && k != QUOTE
    requires ScanString(w + [QUOTE] + rest).0 == |w|
    ensures ParseFields(StrField(p, k, w, rest), o)
         == ParseFields(rest, SetStr(o, [k], StringValue(w, ScanString(w + [QUOTE] + rest).1)))
  {
    var v := w + [QUOTE] + rest;
    assert StrField(p, k, w, rest) == [p, QUOTE, k, QUOTE, COLON] + ([QUOTE] + v);
    FieldKey(p, k, [QUOTE] + v);
    assert ([QUOTE] + v)[1..] == v;
    assert Take(v, |w|) == w && Drop(v, |w| + 1) == rest;
  }

  lemma {:induction false} BareLenAt(num: bytes, rest: bytes)
    requires COMMA !in num && RBRACE !in num
    requires rest != [] && (rest[0] == COMMA || rest[0] == RBRACE)
    ensures BareLen(num + rest) == |num|
  {
    if num == [] {
      assert num + rest == rest;
    } else {
      BareLenAt(num[1..], rest);
      assert (num + rest)[1..] == num[1..] + rest;
    }
  }

  lemma NumFieldStep(p: byte, k: byte, num: bytes, rest: bytes, o: Op)
    requires p != QUOTE && k != QUOTE
    requires num != [] && num[0] > 32 && num[0] != QUOTE && COMMA !in num && RBRACE !in num
    requires rest != [] && (rest[0] == COMMA || rest[0] == RBRACE)
    ensures ParseFields(NumField(p, k, num, rest), o) == ParseFields(rest, SetNum(o, [k], num))
  {
    var t := num + rest;
    assert NumField(p, k, num, rest) == [p, QUOTE, k, QUOTE, COLON] + t;
    FieldKey(p, k, t);
    BareLenAt(num, rest);
    assert t[..|num|] == num && t[|num|..] == rest;
  }

  lemma DecimalText(n: int)
    requires IsI64(n)
    ensures NumText(Decimal(n)) == Decimal(n) != NULL_WORD && NumValue(Decimal(n)) == n
  {
    DecimalBytes(n);
    DecimalIsPlain(n);
    DecimalRoundTrip(n);
    assert Decimal(n)[0] != NULL_WORD[0];
  }

  lemma DecimalFieldStep(p: byte, k: byte, n: int, rest: bytes, o: Op)
    requires p != QUOTE && k != QUOTE && IsI64(n)
    requires rest != [] && (rest[0] == COMMA || rest[0] == RBRACE)
    ensures ParseFields(NumField(p, k, Decimal(n), rest), o) == ParseFields(rest, SetNum(o, [k], Decimal(n)))
    ensures NumText(Decimal(n)) == Decimal(n) != NULL_WORD && NumValue(Decimal(n)) == n
  {
    DecimalText(n);
    DecimalBytes(n);
    NumFieldStep(p, k, Decimal(n), rest, o);
  }

  lemma CodeIsPlain(c: bytes)
    requires CodeOk(c)
    ensures QUOTE !in c && BACKSLASH !in c && NL !in c && Lossy(c) == c && c != []
  {
    AsciiIsUtf8(c);
  }

  lemma CodeFieldStep(k: byte, c: bytes, rest: bytes, o: Op)
    requires k != QUOTE && CodeOk(c)
    ensures ParseFields(StrField(LBRACE, k, c, rest), o) == ParseFields(rest, SetStr(o, [k], c))
  {
    CodeIsPlain(c);
    ScanPlain(c, [QUOTE] + rest);
    assert c + ([QUOTE] + rest) == c + [QUOTE] + rest;
    StrFieldStep(LBRACE, k, c, rest, o);
  }

  lemma UrlFieldStep(u: bytes, rest: bytes, o: Op)
    requires ValidUtf8(u)
    ensures ParseFields(StrField(COMMA, 117, Esc(u), rest), o) == ParseFields(rest, o.(u := u))
  {
    ScanEsc(u, rest);
    UnescapeInvertsEsc(u);
    StrFieldStep(COMMA, 117, Esc(u), rest, o);
  }

  lemma ClosingBrace(o: Op)
    ensures ParseFields([RBRACE], o) == Some(o)
  {
    assert IndexOf([RBRACE], QUOTE) == 1;
  }

  // ---- whole lines, from the last field to the first ----

  lemma ParseLast(k: byte, n: int, o: Op)
    requires k != QUOTE && IsI64(n)
    ensures ParseFields(NumField(COMMA, k, Decimal(n), [RBRACE]), o) == Some(SetNum(o, [k], Decimal(n)))
  {
    DecimalFieldStep(COMMA, k, n, [RBRACE], o);
    ClosingBrace(SetNum(o, [k], Decimal(n)));
  }

  lemma ParseThen(k: byte, n: int, rest: bytes, o: Op, r: Option<Op>)
    requires k != QUOTE && IsI64(n)
    requires rest != [] && rest[0] == COMMA
    requires ParseFields(rest, SetNum(o, [k], Decimal(n))) == r
    ensures ParseFields(NumField(COMMA, k, Decimal(n), rest), o) == r
    ensures NumText(Decimal(n)) == Decimal(n) != NULL_WORD && NumValue(Decimal(n)) == n
  {
    DecimalFieldStep(COMMA, k, n, rest, o);
  }

  lemma NumFieldValue(o: Op, k: byte, n: int)
    requires IsI64(n)
    ensures SetNum(o, [k], Decimal(n)) ==
      if k == 97 then o.(a := n)
      else if k == 101 then o.(e := n, hasE := true)
      else if k == 105 then o.(i := n)
      else if k == 110 then o.(n := n)
      else if k == 100 then o.(d := n) else o
  {
    DecimalBytes(n);
    DecimalIsPlain(n);
    DecimalRoundTrip(n);
    assert Decimal(n)[0] != NULL_WORD[0];
  }

  function FromI(i: int, n: int): bytes {
    NumField(COMMA, 105, Decimal(i), NumField(COMMA, 110, Decimal(n), [RBRACE]))
  }

  lemma ParseFromI(i: int, n: int, o: Op)
    requires IsI64(i) && IsI64(n)
    ensures ParseFields(FromI(i, n), o) == Some(o.(i := i, n := n))
  {
    var o1 := o.(i := i);
    NumFieldValue(o, 105, i);
    NumFieldValue(o1, 110, n);
    ParseLast(110, n, o1);
    ParseThen(105, i, NumField(COMMA, 110, Decimal(n), [RBRACE]), o, Some(o1.(n := n)));
  }

  lemma NullFieldStep(rest: bytes, o: Op)
    requires rest != [] && rest[0] == COMMA
    ensures ParseFields(NumField(COMMA, 101, NULL_WORD, rest), o) == ParseFields(rest, o)
  {
    assert NumText(NULL_WORD) == NULL_WORD by {
      AsciiIsUtf8(NULL_WORD);
      TrimKeeps(NULL_WORD);
    }
    NumFieldStep(COMMA, 101, NULL_WORD, rest, o);
  }

  function FromE(e: int, i: int, n: int): bytes {
    NumField(COMMA, 101, ExpiryText(e), FromI(i, n))
  }

  /** A null expiry leaves an expiry read earlier in place. */
  function SetExpiry(o: Op, e: int): Op {
    if e == 0 then o else o.(e := e, hasE := true)
  }

  lemma ParseFromE(e: int, i: int, n: int, o: Op)
    requires IsI64(e) && IsI64(i) && IsI64(n)
    ensures ParseFields(FromE(e, i, n), o) == Some(SetExpiry(o, e).(i := i, n := n))
  {
    var o1 := SetExpiry(o, e);
    ParseFromI(i, n, o1);
    if e == 0 {
      NullFieldStep(FromI(i, n), o);
    } else {
      NumFieldValue(o, 101, e);
      ParseThen(101, e, FromI(i, n), o, Some(o1.(i := i, n := n)));
    }
  }

  function FromA(a: int, e: int, i: int, n: int): bytes {
    NumField(COMMA, 97, Decimal(a), FromE(e, i, n))
  }

  lemma ParseFromA(a: int, e: int, i: int, n: int, o: Op)
    requires IsI64(a) && IsI64(e) && IsI64(i) && IsI64(n)
    ensures ParseFields(FromA(a, e, i, n), o) == Some(SetExpiry(o, e).(a := a, i := i, n := n))
  {
    var o1 := o.(a := a);
    ParseFromE(e, i, n, o1);
    NumFieldValue(o, 97, a);
    ParseThen(97, a, FromE(e, i, n), o, Some(SetExpiry(o1, e).(i := i, n := n)));
  }

  lemma ParseFromU(u: bytes, a: int, e: int, i: int, n: int, o: Op)
    requires ValidUtf8(u) && IsI64(a) && IsI64(e) && IsI64(i) && IsI64(n)
    ensures ParseFields(StrField(COMMA, 117, Esc(u), FromA(a, e, i, n)), o)
         == Some(SetExpiry(o, e).(u := u, a := a, i := i, n := n))
  {
    ParseFromA(a, e, i, n, o.(u := u));
    UrlFieldStep(u, FromA(a, e, i, n), o);
  }

  lemma RowRoundTrip(c: bytes, u: bytes, a: int, e: int, i: int, n: int)
    requires Loggable(Row(c, u, a, e, i, n))
    ensures ParseLine(Line(Row(c, u, a, e, i, n))) == Some(Op(c, u, [], [], a, e, i, n, 0, e != 0))
  {
    var rest := StrField(COMMA, 117, Esc(u), FromA(a, e, i, n));
    ParseFromU(u, a, e, i, n, DEFAULT_OP.(c := c));
    CodeFieldStep(99, c, rest, DEFAULT_OP);
    CodeIsPlain(c);
  }

  lemma ParseFromD(d: int, i: int, o: Op)
    requires IsI64(d) && IsI64(i)
    ensures ParseFields(NumField(COMMA, 100, Decimal(d), NumField(COMMA, 105, Decimal(i), [RBRACE])), o)
         == Some(o.(d := d, i := i))
  {
    var o1 := o.(d := d);
    NumFieldValue(o, 100, d);
    NumFieldValue(o1, 105, i);
    ParseLast(105, i, o1);
    ParseThen(100, d, NumField(COMMA, 105, Decimal(i), [RBRACE]), o, Some(o1.(i := i)));
  }

  lemma HitRoundTrip(c: bytes, d: int, i: int)
    requires Loggable(Hit(c, d, i))
    ensures ParseLine(Line(Hit(c, d, i))) == Some(DEFAULT_OP.(h := c, d := d, i := i))
  {
    ParseFromD(d, i, DEFAULT_OP.(h := c));
    CodeFieldStep(104, c, NumField(COMMA, 100, Decimal(d), NumField(COMMA, 105, Decimal(i), [RBRACE])), DEFAULT_OP);
    CodeIsPlain(c);
  }

  lemma DelFields(c: bytes, rest: bytes, o: Op)
    requires CodeOk(c) && rest == [RBRACE] && o == DEFAULT_OP.(x := c)
    ensures ParseFields(StrField(LBRACE, 120, c, rest), DEFAULT_OP) == Some(o)
  {
    ClosingBrace(o);
    CodeFieldStep(120, c, rest, DEFAULT_OP);
  }

  lemma DelRoundTrip(c: bytes)
    requires Loggable(Del(c))
    ensures ParseLine(Line(Del(c))) == Some(DEFAULT_OP.(x := c))
  {
    DelFields(c, [RBRACE], DEFAULT_OP.(x := c));
    CodeIsPlain(c);
  }

  /** Decoding inverts printing on every line the store writes. */
  lemma LineRoundTrip(op: LogOp)
    requires Loggable(op)
    ensures Decode(Line(op)) == Some(op)
  {
    match op
    case Row(c, u, a, e, i, n) => RowRoundTrip(c, u, a, e, i, n); CodeIsPlain(c);
    case Hit(h, d, i) => HitRoundTrip(h, d, i); CodeIsPlain(h);
    case Del(x) => DelRoundTrip(x); CodeIsPlain(x);
  }

  lemma FieldsKeepNewlineOut(p: byte, k: byte, w: bytes, rest: bytes)
    requires p != NL && k != NL && NL !in w && NL !in rest
    ensures NL !in StrField(p, k, w, rest) && NL !in NumField(p, k, w, rest)
  {
  }

  lemma DecimalNoNewline(n: int)
    ensures NL !in Decimal(n)
  {
    DecimalBytes(n);
  }

  /** A printed line is nonempty and holds no newline, so the log splits exactly at its lines. */
  lemma LineIsOneLine(op: LogOp)
    requires Loggable(op)
    ensures Line(op) != [] && NL !in Line(op)
  {
    match op
    case Row(c, u, a, e, i, n) =>
      CodeIsPlain(c);
      DecimalNoNewline(a);
      DecimalNoNewline(e);
      DecimalNoNewline(i);
      DecimalNoNewline(n);
      var atN := NumField(COMMA, 110, Decimal(n), [RBRACE]);
      var atI := NumField(COMMA, 105, Decimal(i), atN);
      var atE := NumField(COMMA, 101, ExpiryText(e), atI);
      var atA := NumField(COMMA, 97, Decimal(a), atE);
      FieldsKeepNewlineOut(COMMA, 110, Decimal(n), [RBRACE]);
      FieldsKeepNewlineOut(COMMA, 105, Decimal(i), atN);
      FieldsKeepNewlineOut(COMMA, 101, ExpiryText(e), atI);
      FieldsKeepNewlineOut(COMMA, 97, Decimal(a), atE);
      FieldsKeepNewlineOut(COMMA, 117, Esc(u), atA);
      FieldsKeepNewlineOut(LBRACE, 99, c, StrField(COMMA, 117, Esc(u), atA));
    case Hit(h, d, i) =>
      CodeIsPlain(h);
      DecimalNoNewline(d);
      DecimalNoNewline(i);
      var atI := NumField(COMMA, 105, Decimal(i), [RBRACE]);
      FieldsKeepNewlineOut(COMMA, 105, Decimal(i), [RBRACE]);
      FieldsKeepNewlineOut(COMMA, 100, Decimal(d), atI);
      FieldsKeepNewlineOut(LBRACE, 104, h, NumField(COMMA, 100, Decimal(d), atI));
    case Del(x) =>
      CodeIsPlain(x);
      FieldsKeepNewlineOut(LBRACE, 120, x, [RBRACE]);
  }
}
