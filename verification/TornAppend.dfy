/** Appending to a log whose last line a crash has cut: the first record appended is glued to the
    torn piece, and the parser is lenient. Exactly when does it still read that record? */
module TornAppend {
  import opened Bytes
  import opened Codec
  import opened Parser
  import opened RoundTrip
  import opened Aof

  // ---- a line as a list of fields ----

  datatype Field = Field(key: byte, quoted: bool, text: bytes)

  function FieldsOf(op: LogOp): seq<Field> {
    match op
    case Row(c, u, a, e, i, n) =>
      [Field(99, true, c), Field(117, true, Esc(u)), Field(97, false, Decimal(a)),
       Field(101, false, ExpiryText(e)), Field(105, false, Decimal(i)), Field(110, false, Decimal(n))]
    case Hit(h, d, i) => [Field(104, true, h), Field(100, false, Decimal(d)), Field(105, false, Decimal(i))]
    case Del(x) => [Field(120, true, x)]
  }

  /** The fields from `i` on, each behind its separator, and the closing brace. */
  function Text(fs: seq<Field>, i: nat): (s: bytes)
    ensures s != [] && (0 < i ==> s[0] == COMMA || s[0] == RBRACE)
    decreases |fs| - i
  {
    if i >= |fs| then [RBRACE]
    else
      var p := if i == 0 then LBRACE else COMMA;
      if fs[i].quoted then StrField(p, fs[i].key, fs[i].text, Text(fs, i + 1))
      else NumField(p, fs[i].key, fs[i].text, Text(fs, i + 1))
  }

  lemma LineIsText(op: LogOp)
    ensures Line(op) == Text(FieldsOf(op), 0)
  {
    var fs := FieldsOf(op);
    if op.Row? {
      assert Text(fs, 6) == [RBRACE];
      assert Text(fs, 4) == FromI(op.i, op.n);
      assert Text(fs, 2) == FromA(op.a, op.e, op.i, op.n);
    } else if op.Hit? {
      assert Text(fs, 3) == [RBRACE];
      assert Text(fs, 1) == NumField(COMMA, 100, Decimal(op.d), NumField(COMMA, 105, Decimal(op.node), [RBRACE]));
    }
  }

  // ---- where a cut falls ----

  /** Between two fields; after the quote that opens a key; inside or after a key; where an unquoted
      value is read; inside a quoted value of which `raw` is left. */
  datatype Tear = Between | Nameless | UnderKey | Unquoted | InText(raw: bytes)

  /** How many fields a cut leaves whole, and what it does to the next one. */
  datatype Cut = Cut(whole: nat, tear: Tear)

  /** A cut `q` bytes into the fields from `i` on. A number is whole only with the separator behind it. */
  function CutAt(fs: seq<Field>, i: nat, q: nat): (r: Cut)
    decreases |fs| - i
  {
    if i >= |fs| || q <= 1 then Cut(i, Between)
    else if q == 2 then Cut(i, Nameless)
    else if q <= 4 then Cut(i, UnderKey)
    else if q == 5 then Cut(i, Unquoted)
    else
      var n := |fs[i].text|;
      if fs[i].quoted then if q <= n + 6 then Cut(i, InText(fs[i].text[..q - 6])) else CutAt(fs, i + 1, q - (n + 7))
      else if q <= n + 5 then Cut(i, Unquoted) else CutAt(fs, i + 1, q - (n + 5))
  }

  /** What the parser holds after the first `w` fields of a line. */
  function Held(op: LogOp, w: nat): Op {
    match op
    case Row(c, u, a, e, i, n) =>
      Op(if w >= 1 then c else [], if w >= 2 then u else [], [], [], if w >= 3 then a else 0, if w >= 4 then e else 0,
         if w >= 5 then i else 0, if w >= 6 then n else 0, 0, w >= 4 && e != 0)
    case Hit(h, d, i) =>
      Op([], [], if w >= 1 then h else [], [], 0, 0, if w >= 3 then i else 0, 0, if w >= 2 then d else 0, false)
    case Del(x) => Op([], [], [], if w >= 1 then x else [], 0, 0, 0, 0, 0, false)
  }

  // ---- the appended line ----

  function CodeKey(op: LogOp): byte {
    match op case Row(_, _, _, _, _, _) => 99 case Hit(_, _, _) => 104 case Del(_) => 120
  }

  /** Everything after the code field. */
  function Rest(op: LogOp): bytes {
    match op
    case Row(_, u, a, e, i, n) => StrField(COMMA, 117, Esc(u), FromA(a, e, i, n))
    case Hit(_, d, i) => NumField(COMMA, 100, Decimal(d), NumField(COMMA, 105, Decimal(i), [RBRACE]))
    case Del(_) => [RBRACE]
  }

  function Head(op: LogOp): bytes {
    [LBRACE, QUOTE, CodeKey(op), QUOTE, COLON, QUOTE] + op.Code() + [QUOTE]
  }

  lemma LineParts(op: LogOp)
    ensures Line(op) == StrField(LBRACE, CodeKey(op), op.Code(), Rest(op)) == Head(op) + Rest(op)
    ensures Rest(op)[0] == COMMA || Rest(op)[0] == RBRACE
  {
  }

  /** The fields after the code, stored over what the parser holds already. */
  function RestSet(op: LogOp, o: Op): Op {
    match op
    case Row(_, u, a, e, i, n) => SetExpiry(o, e).(u := u, a := a, i := i, n := n)
    case Hit(_, d, i) => o.(d := d, i := i)
    case Del(_) => o
  }

  lemma RestParsed(op: LogOp, o: Op)
    requires Loggable(op)
    ensures ParseFields(Rest(op), o) == Some(RestSet(op, o))
  {
    match op
    case Row(_, u, a, e, i, n) => ParseFromU(u, a, e, i, n, o);
    case Hit(_, d, i) => ParseFromD(d, i, o);
    case Del(_) => ClosingBrace(o);
  }

  // ---- reading across the seam ----

  lemma SkipByte(p: byte, s: bytes, o: Op)
    requires p != QUOTE
    ensures ParseFields([p] + s, o) == ParseFields(s, o)
  {
    var t := [p] + s;
    assert t[1..] == s;
    assert IndexOf(t, QUOTE) == 1 + IndexOf(s, QUOTE);
    if IndexOf(s, QUOTE) < |s| {
      assert t[IndexOf(t, QUOTE) + 1..] == s[IndexOf(s, QUOTE) + 1..];
    }
  }

  lemma ValueFound(skipped: bytes, t: bytes)
    requires COLON !in skipped && t != [] && t[0] != 32 && t[0] != 9
    ensures ValueText(skipped + [COLON] + t) == Some(t)
  {
    IndexOfAt(skipped, COLON, t);
    assert (skipped + [COLON] + t)[|skipped| + 1..] == t;
  }

  lemma KeyRead(key: bytes, s: bytes, t: bytes)
    requires QUOTE !in key && ValueText(s) == Some(t)
    ensures KeyFrom(key + [QUOTE] + s) == KeyAt(key, t)
  {
    IndexOfAt(key, QUOTE, s);
    assert (key + [QUOTE] + s)[|key| + 1..] == s && (key + [QUOTE] + s)[..|key|] == key;
  }

  /** Whatever stands between a key and the next colon is skipped. */
  lemma KeyFound(pre: bytes, key: bytes, skipped: bytes, t: bytes)
    requires QUOTE !in pre && QUOTE !in key && COLON !in skipped
    requires t != [] && t[0] != 32 && t[0] != 9
    ensures FindKey(pre + [QUOTE] + (key + [QUOTE] + (skipped + [COLON] + t))) == KeyAt(key, t)
  {
    ValueFound(skipped, t);
    var s := key + [QUOTE] + (skipped + [COLON] + t);
    KeyRead(key, skipped + [COLON] + t, t);
    IndexOfAt(pre, QUOTE, s);
    assert (pre + [QUOTE] + s)[|pre| + 1..] == s;
  }

  /** A quoted value and what follows it. */
  function Quoted(c: bytes, rest: bytes): bytes {
    [QUOTE] + c + [QUOTE] + rest
  }

  /** One field read. */
  lemma FieldRead(s: bytes, key: bytes, t: bytes, o: Op, o': Op, rest: bytes)
    requires FindKey(s) == KeyAt(key, t) && t != [] && FieldValue(o, key, t) == (o', rest)
    ensures ParseFields(s, o) == ParseFields(rest, o')
  {
  }

  lemma QuotedValue(key: bytes, w: bytes, rest: bytes, escapes: bool, o: Op)
    requires ScanString(w + [QUOTE] + rest) == (|w|, escapes)
    ensures FieldValue(o, key, Quoted(w, rest)) == (SetStr(o, key, StringValue(w, escapes)), rest)
  {
    var v := w + [QUOTE] + rest;
    assert Quoted(w, rest)[1..] == v;
    assert Take(v, |w|) == w && Drop(v, |w| + 1) == rest;
  }

  /** The code field read under `key`. */
  lemma CodeUnder(pre: bytes, key: bytes, skipped: bytes, c: bytes, rest: bytes, o: Op)
    requires QUOTE !in pre && QUOTE !in key && COLON !in skipped && CodeOk(c)
    ensures ParseFields(pre + [QUOTE] + (key + [QUOTE] + (skipped + [COLON] + Quoted(c, rest))), o)
         == ParseFields(rest, SetStr(o, key, c))
  {
    KeyFound(pre, key, skipped, Quoted(c, rest));
    CodeScanned(c, rest);
    QuotedValue(key, c, rest, false, o);
    FieldRead(pre + [QUOTE] + (key + [QUOTE] + (skipped + [COLON] + Quoted(c, rest))), key, Quoted(c, rest),
              o, SetStr(o, key, c), rest);
  }

  lemma CodeScanned(c: bytes, rest: bytes)
    requires CodeOk(c)
    ensures ScanString(c + [QUOTE] + rest) == (|c|, false) && StringValue(c, false) == c
  {
    CodeIsPlain(c);
    ScanPlain(c, [QUOTE] + rest);
    assert c + ([QUOTE] + rest) == c + [QUOTE] + rest;
  }

  lemma Shape(next: LogOp)
    ensures Line(next) == [LBRACE, QUOTE, CodeKey(next), QUOTE, COLON] + Quoted(next.Code(), Rest(next))
  {
    LineParts(next);
    var k, c, rest := CodeKey(next), next.Code(), Rest(next);
    assert [LBRACE, QUOTE, k, QUOTE, COLON, QUOTE] == [LBRACE, QUOTE, k, QUOTE, COLON] + [QUOTE];
    Spread([LBRACE, QUOTE, k, QUOTE, COLON], [QUOTE], c, [QUOTE], rest);
  }

  lemma Spread(a: bytes, b: bytes, c: bytes, d: bytes, e: bytes)
    ensures (a + b) + c + d + e == a + (b + c + d + e)
  {
  }

  lemma InKeyShape(p: byte, key: bytes, k: byte, t: bytes)
    ensures [p, QUOTE] + key + ([LBRACE, QUOTE, k, QUOTE, COLON] + t) ==
            [p] + [QUOTE] + ((key + [LBRACE]) + [QUOTE] + ([k, QUOTE] + [COLON] + t))
  {
  }

  lemma AfterKeyShape(p: byte, key: byte, k: byte, t: bytes)
    ensures [p, QUOTE, key, QUOTE] + ([LBRACE, QUOTE, k, QUOTE, COLON] + t) ==
            [p] + [QUOTE] + ([key] + [QUOTE] + ([LBRACE, QUOTE, k, QUOTE] + [COLON] + t))
  {
  }

  /** Cut inside a key: the appended code goes under a key that starts with what is left. */
  lemma InKey(p: byte, key: bytes, next: LogOp, o: Op)
    requires p != QUOTE && QUOTE !in key && Loggable(next)
    ensures ParseFields([p, QUOTE] + key + Line(next), o) ==
            Some(RestSet(next, SetStr(o, key + [LBRACE], next.Code())))
  {
    var k, c, rest := CodeKey(next), next.Code(), Rest(next);
    Shape(next);
    InKeyShape(p, key, k, Quoted(c, rest));
    CodeUnder([p], key + [LBRACE], [k, QUOTE], c, rest, o);
    RestParsed(next, SetStr(o, key + [LBRACE], c));
  }

  lemma AfterKey(p: byte, key: byte, next: LogOp, o: Op)
    requires p != QUOTE && key != QUOTE && Loggable(next)
    ensures ParseFields([p, QUOTE, key, QUOTE] + Line(next), o) == Some(RestSet(next, SetStr(o, [key], next.Code())))
  {
    var k, c, rest := CodeKey(next), next.Code(), Rest(next);
    Shape(next);
    AfterKeyShape(p, key, k, Quoted(c, rest));
    CodeUnder([p], [key], [LBRACE, QUOTE, k, QUOTE], c, rest, o);
    RestParsed(next, SetStr(o, [key], c));
  }

  /** Storing an unreadable number. */
  function Spoiled(o: Op, key: byte): Op {
    if key == 97 then o.(a := 0)
    else if key == 101 then o.(e := 0, hasE := true)
    else if key == 105 then o.(i := 0)
    else if key == 110 then o.(n := 0)
    else if key == 100 then o.(d := 0)
    else o
  }

  predicate NumberPiece(num: bytes) {
    AllAscii(num) &&
    forall k :: 0 <= k < |num| ==> num[k] > 34 && num[k] != COMMA && num[k] != RBRACE && num[k] != LBRACE
  }

  lemma HeadText(next: LogOp)
    requires CodeOk(next.Code())
    ensures var h := Head(next);
      AllAscii(h) && |h| >= 2 && h[0] == LBRACE && h[|h| - 1] == QUOTE && COMMA !in h && RBRACE !in h
  {
  }

  lemma UnreadableText(num: bytes, h: bytes)
    requires NumberPiece(num) && AllAscii(h) && h != [] && h[0] == LBRACE && h[|h| - 1] == QUOTE && COMMA !in h &&
      RBRACE !in h
    ensures var t := num + h; AllAscii(t) && t[0] > 34 && t[|t| - 1] == QUOTE && t[|num|] == LBRACE
    ensures COMMA !in num + h && RBRACE !in num + h
  {
  }

  lemma NotDigits(t: bytes, m: nat)
    requires m < |t| && t[m] == LBRACE
    ensures ParseI64(t) == None
  {
    var body := Unsigned(t);
    assert body[m - (|t| - |body|)] == LBRACE;
    assert !IsDigit(LBRACE);
  }

  lemma NoNumber(t: bytes, m: nat)
    requires m < |t| && AllAscii(t) && t[0] > 34 && t[|t| - 1] == QUOTE && t[m] == LBRACE
    ensures NumText(t) == t != NULL_WORD && NumValue(t) == 0
  {
    AsciiIsUtf8(t);
    TrimKeeps(t);
    NotDigits(t, m);
  }

  lemma Unreadable(num: bytes, next: LogOp, o: Op, key: byte)
    requires NumberPiece(num) && CodeOk(next.Code())
    ensures SetNum(o, [key], num + Head(next)) == Spoiled(o, key)
  {
    HeadText(next);
    UnreadableText(num, Head(next));
    NoNumber(num + Head(next), |num|);
    NumberStored(o, key, num + Head(next));
  }

  lemma NumberStored(o: Op, key: byte, t: bytes)
    requires NumText(t) == t != NULL_WORD && NumValue(t) == 0
    ensures SetNum(o, [key], t) == Spoiled(o, key)
  {
  }

  lemma NumberShape(p: byte, key: byte, num: bytes, head: bytes, rest: bytes)
    ensures NumField(p, key, num + head, rest) == [p, QUOTE, key, QUOTE, COLON] + num + (head + rest)
  {
  }

  /** Cut where an unquoted value is read: the appended code field is swallowed. */
  lemma InNumber(p: byte, key: byte, num: bytes, next: LogOp, o: Op)
    requires p != QUOTE && key != QUOTE && NumberPiece(num) && Loggable(next)
    ensures ParseFields([p, QUOTE, key, QUOTE, COLON] + num + Line(next), o) == Some(RestSet(next, Spoiled(o, key)))
  {
    LineParts(next);
    HeadText(next);
    UnreadableText(num, Head(next));
    NumFieldStep(p, key, num + Head(next), Rest(next), o);
    NumberShape(p, key, num, Head(next), Rest(next));
    Unreadable(num, next, o, key);
    RestParsed(next, Spoiled(o, key));
  }

  /** The text of a quoted value that was cut: the brace of the appended line ends up in it. */
  function TornText(raw: bytes): bytes {
    Lossy(UnescapeBytes(raw + [LBRACE]))
  }

  /** Out of step with the quotes, the parser reads the appended record from its second field's value on. */
  function Misread(next: LogOp, o: Op): Option<Op> {
    match next
    case Row(_, _, a, e, i, n) => Some(SetExpiry(o, e).(a := a, i := i, n := n))
    case Hit(_, _, i) => Some(o.(i := i))
    case Del(_) => None
  }

  lemma MisreadShape(k: byte, c: bytes, k2: byte, t: bytes)
    ensures [k, QUOTE, COLON] + Quoted(c, [COMMA, QUOTE, k2, QUOTE, COLON] + t) ==
            [k] + [QUOTE] + ([COLON] + [QUOTE] + ((c + [QUOTE, COMMA, QUOTE, k2, QUOTE]) + [COLON] + t))
  {
  }

  lemma MisreadKey(k: byte, c: bytes, k2: byte, t: bytes)
    requires k != QUOTE && k2 != COLON && CodeOk(c) && t != [] && t[0] != 32 && t[0] != 9
    ensures FindKey([k, QUOTE, COLON] + Quoted(c, [COMMA, QUOTE, k2, QUOTE, COLON] + t)) == KeyAt([COLON], t)
  {
    var skipped := c + [QUOTE, COMMA, QUOTE, k2, QUOTE];
    assert COLON !in skipped;
    KeyFound([k], [COLON], skipped, t);
    MisreadShape(k, c, k2, t);
  }

  /** A value under a key no field has. */
  lemma MisreadText(s: bytes, w: bytes, rest: bytes, o: Op)
    requires FindKey(s) == KeyAt([COLON], Quoted(w, rest)) && ScanString(w + [QUOTE] + rest).0 == |w|
    ensures ParseFields(s, o) == ParseFields(rest, o)
  {
    UnkeyedText(w, rest, o);
    FieldRead(s, [COLON], Quoted(w, rest), o, o, rest);
  }

  lemma UnkeyedText(w: bytes, rest: bytes, o: Op)
    requires ScanString(w + [QUOTE] + rest).0 == |w|
    ensures FieldValue(o, [COLON], Quoted(w, rest)) == (o, rest)
  {
    var escapes := ScanString(w + [QUOTE] + rest).1;
    QuotedValue([COLON], w, rest, escapes, o);
    assert SetStr(o, [COLON], StringValue(w, escapes)) == o;
  }

  lemma MisreadRow(c: bytes, next: LogOp, o: Op)
    requires next.Row? && Loggable(next) && c == next.c
    ensures ParseFields([99, QUOTE, COLON] + Quoted(c, Rest(next)), o) == Misread(next, o)
  {
    var w, rest := Esc(next.u), FromA(next.a, next.e, next.i, next.n);
    MisreadKey(99, c, 117, Quoted(w, rest));
    RowRest(w, rest);
    ScanEsc(next.u, rest);
    MisreadText([99, QUOTE, COLON] + Quoted(c, Rest(next)), w, rest, o);
    ParseFromA(next.a, next.e, next.i, next.n, o);
  }

  lemma RowRest(w: bytes, rest: bytes)
    ensures StrField(COMMA, 117, w, rest) == [COMMA, QUOTE, 117, QUOTE, COLON] + Quoted(w, rest)
  {
    Spread([COMMA, QUOTE, 117, QUOTE, COLON], [QUOTE], w, [QUOTE], rest);
    assert [COMMA, QUOTE, 117, QUOTE, COLON, QUOTE] == [COMMA, QUOTE, 117, QUOTE, COLON] + [QUOTE];
  }

  lemma MisreadNumber(s: bytes, num: bytes, rest: bytes, o: Op)
    requires FindKey(s) == KeyAt([COLON], num + rest) && num != [] && num[0] != QUOTE && COMMA !in num && RBRACE !in num
    requires rest != [] && (rest[0] == COMMA || rest[0] == RBRACE)
    ensures ParseFields(s, o) == ParseFields(rest, o)
  {
    UnkeyedNumber(num, rest, o);
    FieldRead(s, [COLON], num + rest, o, o, rest);
  }

  lemma UnkeyedNumber(num: bytes, rest: bytes, o: Op)
    requires num != [] && num[0] != QUOTE && COMMA !in num && RBRACE !in num
    requires rest != [] && (rest[0] == COMMA || rest[0] == RBRACE)
    ensures FieldValue(o, [COLON], num + rest) == (o, rest)
  {
    BareLenAt(num, rest);
    assert (num + rest)[..|num|] == num && (num + rest)[|num|..] == rest;
  }

  lemma MisreadHit(c: bytes, next: LogOp, o: Op)
    requires next.Hit? && Loggable(next) && c == next.h
    ensures ParseFields([104, QUOTE, COLON] + Quoted(c, Rest(next)), o) == Misread(next, o)
  {
    var num, rest := Decimal(next.d), NumField(COMMA, 105, Decimal(next.node), [RBRACE]);
    DecimalBytes(next.d);
    MisreadKey(104, c, 100, num + rest);
    NumberShape(COMMA, 100, [], num, rest);
    assert Rest(next) == [COMMA, QUOTE, 100, QUOTE, COLON] + (num + rest);
    MisreadNumber([104, QUOTE, COLON] + Quoted(c, Rest(next)), num, rest, o);
    ParseLast(105, next.node, o);
    NumFieldValue(o, 105, next.node);
  }

  lemma MisreadDel(c: bytes, o: Op)
    requires CodeOk(c)
    ensures ParseFields([120, QUOTE, COLON] + Quoted(c, [RBRACE]), o) == None
  {
    var s3 := c + [QUOTE] + [RBRACE];
    var s2 := [COLON] + [QUOTE] + s3;
    var s1 := [120] + [QUOTE] + s2;
    assert [120, QUOTE, COLON] + Quoted(c, [RBRACE]) == s1;
    IndexOfAt([120], QUOTE, s2);
    assert s1[2..] == s2;
    IndexOfAt([COLON], QUOTE, s3);
    assert s2[2..] == s3;
    NoIndex(s3, COLON);
  }

  lemma QuotesShape(p: byte, key: byte, raw: bytes, k: byte, t: bytes)
    ensures StrField(p, key, raw + [LBRACE], [k, QUOTE, COLON] + t) ==
            [p, QUOTE, key, QUOTE, COLON, QUOTE] + raw + ([LBRACE, QUOTE, k, QUOTE, COLON] + t)
  {
  }

  /** Cut inside a quoted value, where the scan runs on to the quote behind the appended brace. */
  lemma InQuotes(p: byte, key: byte, raw: bytes, next: LogOp, o: Op)
    requires p != QUOTE && key != QUOTE && Loggable(next)
    requires forall t: bytes :: ScansTo(raw, t)
    ensures ParseFields([p, QUOTE, key, QUOTE, COLON, QUOTE] + raw + Line(next), o) ==
            Misread(next, SetStr(o, [key], TornText(raw)))
  {
    Shape(next);
    var k, c := CodeKey(next), next.Code();
    var t := Quoted(c, Rest(next));
    QuotesShape(p, key, raw, k, t);
    assert ScansTo(raw, [k, QUOTE, COLON] + t);
    StrFieldStep(p, key, raw + [LBRACE], [k, QUOTE, COLON] + t, o);
    var o1 := SetStr(o, [key], TornText(raw));
    match next
    case Row(_, _, _, _, _, _) => MisreadRow(c, next, o1);
    case Hit(_, _, _) => MisreadHit(c, next, o1);
    case Del(_) => MisreadDel(c, o1);
  }

  predicate ScansTo(raw: bytes, t: bytes) {
    var (n, escapes) := ScanString(raw + [LBRACE] + [QUOTE] + t);
    n == |raw| + 1 && StringValue(raw + [LBRACE], escapes) == TornText(raw)
  }

  // ---- cut texts ----

  lemma {:induction false} NoEscapes(s: bytes)
    requires BACKSLASH !in s
    ensures UnescapeBytes(s) == s
  {
    if s != [] {
      NoEscapes(s[1..]);
      UnescapeStep(s, [s[0]], 1);
    }
  }

  lemma CodeCut(c: bytes, q: nat, t: bytes)
    requires CodeOk(c) && q <= |c|
    ensures ScansTo(c[..q], t) && TornText(c[..q]) == c[..q] + [LBRACE]
  {
    var w := c[..q] + [LBRACE];
    CodeIsPlain(c);
    ScanPlain(w, [QUOTE] + t);
    assert w + ([QUOTE] + t) == w + [QUOTE] + t;
    AsciiIsUtf8(w);
    NoEscapes(w);
  }

  predicate EndsAtQuote(w: bytes, t: bytes) {
    var (n, escapes) := ScanString(w + [QUOTE] + t);
    n == |w| && (!escapes ==> UnescapeBytes(w) == w)
  }

  lemma UnitScanned(c: byte, w: bytes, t: bytes)
    ensures var r, r' := ScanString(w + [QUOTE] + t), ScanString((EscByte(c) + w) + [QUOTE] + t);
      r'.0 == |EscByte(c)| + r.0 && r'.1 == (r.1 || |EscByte(c)| > 1)
  {
    ScanEscByte(c, w + [QUOTE] + t);
    Regroup(EscByte(c), w + [QUOTE], t);
    Regroup(EscByte(c), w, [QUOTE]);
  }

  lemma UnitBefore(c: byte, w: bytes, t: bytes)
    requires EndsAtQuote(w, t)
    ensures EndsAtQuote(EscByte(c) + w, t)
  {
    UnitScanned(c, w, t);
    UnescapeOne(c, w);
    assert |EscByte(c)| == 1 ==> EscByte(c) == [c];
  }

  /** A cut escaped text ends at the quote that follows the swallowed brace. */
  lemma {:induction false} UrlCut(u: bytes, q: nat, t: bytes)
    requires q <= |Esc(u)|
    ensures EndsAtQuote(Esc(u)[..q] + [LBRACE], t)
    decreases |u|
  {
    if u == [] {
      PieceCut([], 0, t);
    } else if q < |EscByte(u[0])| {
      assert Esc(u)[..q] == EscByte(u[0])[..q];
      PieceCut(EscByte(u[0])[..q], u[0], t);
    } else {
      var n := |EscByte(u[0])|;
      UrlCut(u[1..], q - n, t);
      UnitBefore(u[0], Esc(u[1..])[..q - n] + [LBRACE], t);
      assert Esc(u)[..q] + [LBRACE] == EscByte(u[0]) + (Esc(u[1..])[..q - n] + [LBRACE]);
    }
  }

  /** Part of one escape. */
  lemma PieceCut(piece: bytes, c: byte, t: bytes)
    requires |piece| < |EscByte(c)| && piece <= EscByte(c)
    ensures EndsAtQuote(piece + [LBRACE], t)
  {
    var w := piece + [LBRACE];
    var s := w + [QUOTE] + t;
    if piece == [] {
      ScanPlain(w, [QUOTE] + t);
      assert w + ([QUOTE] + t) == s;
      NoEscapes(w);
    } else {
      assert s[0] == piece[0] == BACKSLASH;
      var tail := w[2..];
      assert s[2..] == tail + ([QUOTE] + t);
      assert forall k :: 0 <= k < |tail| ==> tail[k] == LBRACE || tail[k] == piece[k + 2];
      ScanPlain(tail, [QUOTE] + t);
    }
  }

  lemma UrlCutText(u: bytes, q: nat, t: bytes)
    requires q <= |Esc(u)|
    ensures ScansTo(Esc(u)[..q], t)
  {
    UrlCut(u, q, t);
  }

  // ---- the glued line ----

  /** What the parser, holding `o`, makes of a field torn at `tear` and the line appended to it. */
  function GlueAt(o: Op, key: byte, tear: Tear, next: LogOp): Option<Op> {
    match tear
    case Between => Some(RestSet(next, SetStr(o, [CodeKey(next)], next.Code())))
    case Nameless => Some(RestSet(next, o))
    case UnderKey => Some(RestSet(next, SetStr(o, [key], next.Code())))
    case Unquoted => Some(RestSet(next, Spoiled(o, key)))
    case InText(raw) => Misread(next, SetStr(o, [key], TornText(raw)))
  }

  function FieldCount(op: LogOp): nat {
    match op case Row(_, _, _, _, _, _) => 6 case Hit(_, _, _) => 3 case Del(_) => 1
  }

  function KeyOf(op: LogOp, i: nat): (k: byte)
    ensures k != QUOTE
  {
    if i == 0 then CodeKey(op)
    else if i >= FieldCount(op) then RBRACE
    else if op.Hit? then (if i == 1 then 100 else 105)
    else if i == 1 then 117 else if i == 2 then 97 else if i == 3 then 101 else if i == 4 then 105 else 110
  }

  lemma KeysOf(op: LogOp, i: nat)
    ensures |FieldsOf(op)| == FieldCount(op)
    ensures i < FieldCount(op) ==> FieldsOf(op)[i].key == KeyOf(op, i)
  {
  }

  function Glue(op: LogOp, cut: Cut, next: LogOp): Option<Op> {
    GlueAt(Held(op, cut.whole), KeyOf(op, cut.whole), cut.tear, next)
  }

  lemma LineOver(next: LogOp, o: Op)
    requires Loggable(next)
    ensures ParseFields(Line(next), o) == Some(RestSet(next, SetStr(o, [CodeKey(next)], next.Code())))
  {
    LineParts(next);
    CodeFieldStep(CodeKey(next), next.Code(), Rest(next), o);
    RestParsed(next, SetStr(o, [CodeKey(next)], next.Code()));
  }

  // ---- the induction over the fields ----

  /** Field `i` of a line, followed by `rest`. */
  function FieldThen(fs: seq<Field>, i: nat, rest: bytes): bytes
    requires i < |fs|
  {
    var p := if i == 0 then LBRACE else COMMA;
    if fs[i].quoted then StrField(p, fs[i].key, fs[i].text, rest) else NumField(p, fs[i].key, fs[i].text, rest)
  }

  /** Stepping over a field that the cut leaves whole. */
  lemma WholeField(op: LogOp, i: nat, rest: bytes)
    requires Loggable(op) && i < |FieldsOf(op)| && rest != []
    requires !FieldsOf(op)[i].quoted ==> rest[0] == if i + 1 < |FieldsOf(op)| then COMMA else RBRACE
    ensures ParseFields(FieldThen(FieldsOf(op), i, rest), Held(op, i)) == ParseFields(rest, Held(op, i + 1))
  {
    if i == 0 {
      WholeCode(op, rest);
    } else if op.Row? && i == 1 {
      WholeUrl(op, rest);
    } else if op.Row? && i == 3 && op.e == 0 {
      WholeNull(op, rest);
    } else {
      WholeNumber(op, i, rest);
    }
  }

  lemma WholeCode(op: LogOp, rest: bytes)
    requires Loggable(op)
    ensures ParseFields(FieldThen(FieldsOf(op), 0, rest), Held(op, 0)) == ParseFields(rest, Held(op, 1))
  {
    CodeFieldStep(CodeKey(op), op.Code(), rest, Held(op, 0));
  }

  lemma WholeUrl(op: LogOp, rest: bytes)
    requires Loggable(op) && op.Row?
    ensures ParseFields(FieldThen(FieldsOf(op), 1, rest), Held(op, 1)) == ParseFields(rest, Held(op, 2))
  {
    UrlFieldStep(op.u, rest, Held(op, 1));
  }

  lemma WholeNull(op: LogOp, rest: bytes)
    requires Loggable(op) && op.Row? && op.e == 0 && rest != [] && rest[0] == COMMA
    ensures ParseFields(FieldThen(FieldsOf(op), 3, rest), Held(op, 3)) == ParseFields(rest, Held(op, 4))
  {
    NullFieldStep(rest, Held(op, 3));
  }

  lemma WholeNumber(op: LogOp, i: nat, rest: bytes)
    requires Loggable(op) && 0 < i < |FieldsOf(op)| && !(op.Row? && (i == 1 || (i == 3 && op.e == 0)))
    requires rest != [] && (rest[0] == COMMA || rest[0] == RBRACE)
    ensures ParseFields(FieldThen(FieldsOf(op), i, rest), Held(op, i)) == ParseFields(rest, Held(op, i + 1))
  {
    var f := FieldsOf(op)[i];
    var n := if op.Hit? then (if i == 1 then op.d else op.node)
             else if i == 2 then op.a else if i == 3 then op.e else if i == 4 then op.i else op.n;
    DecimalFieldStep(COMMA, f.key, n, rest, Held(op, i));
    NumFieldValue(Held(op, i), f.key, n);
  }

  /** The first `q` bytes of a field, up to its colon. */
  function KeyPiece(p: byte, key: byte, q: nat): bytes {
    if q <= 1 then [p]
    else if q == 2 then [p, QUOTE]
    else if q == 3 then [p, QUOTE, key]
    else if q == 4 then [p, QUOTE, key, QUOTE]
    else [p, QUOTE, key, QUOTE, COLON]
  }

  /** The first `q` bytes of a field and what follows it. */
  lemma TakeKey(fs: seq<Field>, i: nat, q: nat, rest: bytes)
    requires i < |fs| && 1 <= q <= 5
    ensures |FieldThen(fs, i, rest)| == FieldLen(fs[i]) + |rest| &&
      FieldThen(fs, i, rest)[..q] == KeyPiece(if i == 0 then LBRACE else COMMA, fs[i].key, q)
  {
  }

  function FieldLen(f: Field): nat {
    |f.text| + if f.quoted then 7 else 5
  }

  lemma TakeQuoted(fs: seq<Field>, i: nat, q: nat, rest: bytes)
    requires i < |fs| && fs[i].quoted && 6 <= q <= |fs[i].text| + 6
    ensures FieldThen(fs, i, rest)[..q] ==
            [if i == 0 then LBRACE else COMMA, QUOTE, fs[i].key, QUOTE, COLON, QUOTE] + fs[i].text[..q - 6]
  {
  }

  lemma TakeNumber(fs: seq<Field>, i: nat, q: nat, rest: bytes)
    requires i < |fs| && !fs[i].quoted && 6 <= q <= |fs[i].text| + 5
    ensures FieldThen(fs, i, rest)[..q] ==
            [if i == 0 then LBRACE else COMMA, QUOTE, fs[i].key, QUOTE, COLON] + fs[i].text[..q - 5]
  {
  }

  /** A cut behind field `i` leaves it whole. */
  lemma TakeBeyond(fs: seq<Field>, i: nat, q: nat, rest: bytes, more: bytes)
    requires i < |fs|
    requires FieldLen(fs[i]) <= q <= FieldLen(fs[i]) + |rest|
    ensures var n := FieldLen(fs[i]);
      |FieldThen(fs, i, rest)| == n + |rest| &&
      FieldThen(fs, i, rest)[..q] + more == FieldThen(fs, i, rest[..q - n] + more)
  {
  }

  lemma NumberPieces(op: LogOp, i: nat, m: nat)
    requires i < |FieldsOf(op)| && !FieldsOf(op)[i].quoted && m <= |FieldsOf(op)[i].text|
    ensures NumberPiece(FieldsOf(op)[i].text[..m])
  {
    var n := if op.Hit? then (if i == 1 then op.d else op.node)
             else if i == 2 then op.a else if i == 3 then op.e else if i == 4 then op.i else op.n;
    DecimalBytes(n);
    assert FieldsOf(op)[i].text == Decimal(n) || FieldsOf(op)[i].text == NULL_WORD;
  }

  function KeyTear(q: nat): Tear {
    if q <= 1 then Between else if q == 2 then Nameless else if q <= 4 then UnderKey else Unquoted
  }

  lemma SeparatorTorn(p: byte, key: byte, next: LogOp, o: Op)
    requires p != QUOTE && Loggable(next)
    ensures ParseFields([p] + Line(next), o) == GlueAt(o, key, Between, next)
  {
    SkipByte(p, Line(next), o);
    LineOver(next, o);
  }

  lemma NamelessTorn(p: byte, key: byte, next: LogOp, o: Op)
    requires p != QUOTE && Loggable(next)
    ensures ParseFields([p, QUOTE] + Line(next), o) == GlueAt(o, key, Nameless, next)
  {
    InKey(p, [], next, o);
    assert [p, QUOTE] + [] == [p, QUOTE];
    OddKey([], next.Code(), o);
  }

  /** Only the first byte of a key matters, and a brace is no field's key. */
  lemma OddKey(key: bytes, c: bytes, o: Op)
    ensures SetStr(o, key + [LBRACE], c) == if key == [] then o else SetStr(o, [key[0]], c)
  {
  }

  lemma LetterTorn(p: byte, key: byte, next: LogOp, o: Op)
    requires p != QUOTE && key != QUOTE && Loggable(next)
    ensures ParseFields([p, QUOTE, key] + Line(next), o) == GlueAt(o, key, UnderKey, next)
  {
    InKey(p, [key], next, o);
    assert [p, QUOTE] + [key] == [p, QUOTE, key];
    OddKey([key], next.Code(), o);
  }

  lemma ColonTorn(p: byte, key: byte, next: LogOp, o: Op)
    requires p != QUOTE && key != QUOTE && Loggable(next)
    ensures ParseFields([p, QUOTE, key, QUOTE, COLON] + Line(next), o) == GlueAt(o, key, Unquoted, next)
  {
    InNumber(p, key, [], next, o);
    assert [p, QUOTE, key, QUOTE, COLON] + [] == [p, QUOTE, key, QUOTE, COLON];
  }

  /** The cut falls on the separator, the key or the colon of a field. */
  lemma KeyTorn(p: byte, key: byte, q: nat, next: LogOp, o: Op, r: Option<Op>)
    requires p != QUOTE && key != QUOTE && Loggable(next) && 1 <= q <= 5 && r == GlueAt(o, key, KeyTear(q), next)
    ensures ParseFields(KeyPiece(p, key, q) + Line(next), o) == r
  {
    if q == 1 {
      SeparatorTorn(p, key, next, o);
    } else if q == 2 {
      NamelessTorn(p, key, next, o);
    } else if q == 3 {
      LetterTorn(p, key, next, o);
    } else if q == 4 {
      AfterKey(p, key, next, o);
    } else {
      ColonTorn(p, key, next, o);
    }
  }

  lemma TornKey(op: LogOp, i: nat, q: nat, next: LogOp)
    requires Loggable(op) && Loggable(next) && i < |FieldsOf(op)| && 1 <= q <= 5
    ensures ParseFields(Text(FieldsOf(op), i)[..q] + Line(next), Held(op, i)) ==
      Glue(op, CutAt(FieldsOf(op), i, q), next)
  {
    var fs := FieldsOf(op);
    TextIs(fs, i);
    KeysOf(op, i);
    TakeKey(fs, i, q, Text(fs, i + 1));
    KeyTorn(if i == 0 then LBRACE else COMMA, KeyOf(op, i), q, next, Held(op, i), Glue(op, Cut(i, KeyTear(q)), next));
    assert CutAt(fs, i, q) == Cut(i, KeyTear(q));
  }

  /** The cut falls inside a number. */
  lemma TornNumber(op: LogOp, i: nat, q: nat, next: LogOp)
    requires Loggable(op) && Loggable(next) && i < |FieldsOf(op)| && 6 <= q
    requires !FieldsOf(op)[i].quoted && q <= |FieldsOf(op)[i].text| + 5
    ensures ParseFields(Text(FieldsOf(op), i)[..q] + Line(next), Held(op, i)) ==
            GlueAt(Held(op, i), KeyOf(op, i), Unquoted, next)
  {
    NumberCut(op, i, q);
    NumberTorn(op, i, q - 5, next, Held(op, i));
  }

  lemma NumberCut(op: LogOp, i: nat, q: nat)
    requires i < |FieldsOf(op)| && !FieldsOf(op)[i].quoted && 6 <= q <= |FieldsOf(op)[i].text| + 5
    ensures Text(FieldsOf(op), i)[..q] ==
            [if i == 0 then LBRACE else COMMA, QUOTE, KeyOf(op, i), QUOTE, COLON] + FieldsOf(op)[i].text[..q - 5]
  {
    TextIs(FieldsOf(op), i);
    KeysOf(op, i);
    TakeNumber(FieldsOf(op), i, q, Text(FieldsOf(op), i + 1));
  }

  lemma CutInNumber(fs: seq<Field>, i: nat, q: nat)
    requires i < |fs| && !fs[i].quoted && 6 <= q <= |fs[i].text| + 5
    ensures CutAt(fs, i, q) == Cut(i, Unquoted)
  {
  }

  lemma NumberTorn(op: LogOp, i: nat, m: nat, next: LogOp, o: Op)
    requires Loggable(op) && Loggable(next) && i < |FieldsOf(op)| && !FieldsOf(op)[i].quoted &&
      m <= |FieldsOf(op)[i].text|
    ensures var p := if i == 0 then LBRACE else COMMA;
      ParseFields([p, QUOTE, KeyOf(op, i), QUOTE, COLON] + FieldsOf(op)[i].text[..m] + Line(next), o) ==
      GlueAt(o, KeyOf(op, i), Unquoted, next)
  {
    NumberPieces(op, i, m);
    InNumber(if i == 0 then LBRACE else COMMA, KeyOf(op, i), FieldsOf(op)[i].text[..m], next, o);
  }

  /** The cut falls inside a quoted value. */
  lemma TornQuotes(op: LogOp, i: nat, q: nat, next: LogOp)
    requires Loggable(op) && Loggable(next) && i < |FieldsOf(op)| && 6 <= q
    requires FieldsOf(op)[i].quoted && q <= |FieldsOf(op)[i].text| + 6
    ensures ParseFields(Text(FieldsOf(op), i)[..q] + Line(next), Held(op, i)) ==
            GlueAt(Held(op, i), KeyOf(op, i), InText(FieldsOf(op)[i].text[..q - 6]), next)
  {
    QuotedCut(op, i, q);
    QuotesTorn(op, i, q - 6, next, Held(op, i));
  }

  lemma QuotedCut(op: LogOp, i: nat, q: nat)
    requires i < |FieldsOf(op)| && FieldsOf(op)[i].quoted && 6 <= q <= |FieldsOf(op)[i].text| + 6
    ensures Text(FieldsOf(op), i)[..q] ==
            [if i == 0 then LBRACE else COMMA, QUOTE, KeyOf(op, i), QUOTE, COLON, QUOTE] + FieldsOf(op)[i].text[..q - 6]
  {
    TextIs(FieldsOf(op), i);
    KeysOf(op, i);
    TakeQuoted(FieldsOf(op), i, q, Text(FieldsOf(op), i + 1));
  }

  lemma QuotesTorn(op: LogOp, i: nat, m: nat, next: LogOp, o: Op)
    requires Loggable(op) && Loggable(next) && i < |FieldsOf(op)| && FieldsOf(op)[i].quoted &&
      m <= |FieldsOf(op)[i].text|
    ensures var p, raw := if i == 0 then LBRACE else COMMA, FieldsOf(op)[i].text[..m];
      ParseFields([p, QUOTE, KeyOf(op, i), QUOTE, COLON, QUOTE] + raw + Line(next), o) ==
      GlueAt(o, KeyOf(op, i), InText(raw), next)
  {
    var raw := FieldsOf(op)[i].text[..m];
    forall t: bytes ensures ScansTo(raw, t) {
      TextCut(op, i, m, t);
    }
    InQuotes(if i == 0 then LBRACE else COMMA, KeyOf(op, i), raw, next, o);
  }

  lemma CutInText(fs: seq<Field>, i: nat, q: nat)
    requires i < |fs| && fs[i].quoted && 6 <= q <= |fs[i].text| + 6
    ensures CutAt(fs, i, q) == Cut(i, InText(fs[i].text[..q - 6]))
  {
  }

  lemma TextCut(op: LogOp, i: nat, m: nat, t: bytes)
    requires Loggable(op) && i < |FieldsOf(op)| && FieldsOf(op)[i].quoted && m <= |FieldsOf(op)[i].text|
    ensures ScansTo(FieldsOf(op)[i].text[..m], t)
  {
    if i == 0 {
      CodeCut(op.Code(), m, t);
    } else {
      UrlCutText(op.u, m, t);
    }
  }

  /** The cut falls inside the value of field `i`. */
  lemma TornValue(op: LogOp, i: nat, q: nat, next: LogOp, r: Option<Op>)
    requires Loggable(op) && Loggable(next) && i < |FieldsOf(op)|
    requires 6 <= q <= |FieldsOf(op)[i].text| + if FieldsOf(op)[i].quoted then 6 else 5
    requires r == Glue(op, CutAt(FieldsOf(op), i, q), next)
    ensures ParseFields(Text(FieldsOf(op), i)[..q] + Line(next), Held(op, i)) == r
  {
    if FieldsOf(op)[i].quoted {
      CutInText(FieldsOf(op), i, q);
      TornQuotes(op, i, q, next);
    } else {
      CutInNumber(FieldsOf(op), i, q);
      TornNumber(op, i, q, next);
    }
  }

  /** Nothing of field `i` is left, or only the closing brace is. */
  lemma TornNowhere(op: LogOp, i: nat, q: nat, next: LogOp)
    requires Loggable(next) && (q == 0 || (q == 1 && i >= |FieldsOf(op)|)) && q <= |Text(FieldsOf(op), i)|
    ensures ParseFields(Text(FieldsOf(op), i)[..q] + Line(next), Held(op, i)) == Glue(op, Cut(i, Between), next)
  {
    if q == 0 {
      assert Text(FieldsOf(op), i)[..0] + Line(next) == Line(next);
      LineOver(next, Held(op, i));
    } else {
      assert Text(FieldsOf(op), i)[..1] == [RBRACE];
      SeparatorTorn(RBRACE, KeyOf(op, i), next, Held(op, i));
    }
  }

  lemma {:induction false} GluedFrom(op: LogOp, i: nat, q: nat, next: LogOp, r: Option<Op>)
    requires Loggable(op) && Loggable(next) && i <= |FieldsOf(op)| && q <= |Text(FieldsOf(op), i)|
    requires r == Glue(op, CutAt(FieldsOf(op), i, q), next)
    ensures ParseFields(Text(FieldsOf(op), i)[..q] + Line(next), Held(op, i)) == r
    decreases |FieldsOf(op)| - i
  {
    var fs := FieldsOf(op);
    if q == 0 || i == |fs| {
      TornNowhere(op, i, q, next);
    } else if q <= 5 {
      TornKey(op, i, q, next);
    } else if q <= |fs[i].text| + if fs[i].quoted then 6 else 5 {
      TornValue(op, i, q, next, r);
    } else {
      BeyondField(op, i, q, next);
      GluedFrom(op, i + 1, q - FieldLen(fs[i]), next, r);
    }
  }

  lemma BeyondField(op: LogOp, i: nat, q: nat, next: LogOp)
    requires Loggable(op) && i < |FieldsOf(op)| && 6 <= q <= |Text(FieldsOf(op), i)|
    requires q > |FieldsOf(op)[i].text| + if FieldsOf(op)[i].quoted then 6 else 5
    ensures var fs := FieldsOf(op);
      var n := FieldLen(fs[i]);
      n <= q <= n + |Text(fs, i + 1)| && CutAt(fs, i, q) == CutAt(fs, i + 1, q - n) &&
      ParseFields(Text(fs, i)[..q] + Line(next), Held(op, i)) ==
      ParseFields(Text(fs, i + 1)[..q - n] + Line(next), Held(op, i + 1))
  {
    var fs := FieldsOf(op);
    TextIs(fs, i);
    CutBeyond(fs, i, q);
    ParseBeyond(op, i, q, Text(fs, i + 1), Line(next));
  }

  lemma CutBeyond(fs: seq<Field>, i: nat, q: nat)
    requires i < |fs| && q > |fs[i].text| + if fs[i].quoted then 6 else 5
    ensures FieldLen(fs[i]) <= q && CutAt(fs, i, q) == CutAt(fs, i + 1, q - FieldLen(fs[i]))
  {
  }

  lemma ParseBeyond(op: LogOp, i: nat, q: nat, tail: bytes, more: bytes)
    requires Loggable(op) && i < |FieldsOf(op)| && tail != [] && more != []
    requires tail[0] == if i + 1 < |FieldsOf(op)| then COMMA else RBRACE
    requires var f := FieldsOf(op)[i]; |f.text| + (if f.quoted then 6 else 5) < q <= FieldLen(f) + |tail|
    ensures ParseFields(FieldThen(FieldsOf(op), i, tail)[..q] + more, Held(op, i)) ==
            ParseFields(tail[..q - FieldLen(FieldsOf(op)[i])] + more, Held(op, i + 1))
  {
    var fs := FieldsOf(op);
    TakeBeyond(fs, i, q, tail, more);
    SeamByte(tail, q - FieldLen(fs[i]), more);
    WholeField(op, i, tail[..q - FieldLen(fs[i])] + more);
  }

  lemma TextIs(fs: seq<Field>, i: nat)
    requires i < |fs|
    ensures Text(fs, i) == FieldThen(fs, i, Text(fs, i + 1)) && |Text(fs, i)| == FieldLen(fs[i]) + |Text(fs, i + 1)|
    ensures Text(fs, i + 1)[0] == if i + 1 < |fs| then COMMA else RBRACE
  {
  }

  lemma SeamByte(tail: bytes, m: nat, more: bytes)
    requires m <= |tail| && tail != [] && more != []
    ensures tail[..m] + more != [] && (m > 0 ==> (tail[..m] + more)[0] == tail[0])
  {
  }

  // ---- which appended record survives ----

  function Kind(op: LogOp): nat {
    match op case Row(_, _, _, _, _, _) => 0 case Hit(_, _, _) => 1 case Del(_) => 2
  }

  /** A row without an expiry takes over the one the torn row had already stated. */
  predicate Inherits(op: LogOp, whole: nat, next: LogOp) {
    op.Row? && next.Row? && whole >= 4 && op.e != 0 && next.e == 0
  }

  /** A record appended after a torn line `op` is read back as itself: a cut between fields spares
      any record of at least the torn one's kind; a cut inside a later field makes the parser keep
      the torn line's code, and one inside the torn url that url as well; a cut inside the first
      field spares it only where its own code ends up under the same key. */
  predicate Survives(op: LogOp, cut: Cut, next: LogOp) {
    var alike := Kind(op) == Kind(next) && op.Code() == next.Code();
    match cut.tear
    case Between => cut.whole == 0 || (Kind(op) <= Kind(next) && !Inherits(op, cut.whole, next))
    case UnderKey => (if cut.whole == 0 then Kind(op) == Kind(next) else alike) && !Inherits(op, cut.whole, next)
    case Nameless => cut.whole > 0 && alike && !Inherits(op, cut.whole, next)
    case Unquoted => cut.whole > 0 && alike && !Inherits(op, cut.whole, next)
    case InText(raw) => cut.whole == 1 && alike && next.Row? && next.u == TornText(raw)
  }

  function Decoded(r: Option<Op>): Option<LogOp> {
    match r
    case None => None
    case Some(o) => if o.c != [] || o.h != [] || o.x != [] then Some(Classify(o)) else None
  }

  lemma Glued(op: LogOp, q: nat, next: LogOp)
    requires Loggable(op) && Loggable(next) && q <= |Line(op)|
    ensures Decode(Line(op)[..q] + Line(next)) == Decoded(Glue(op, CutAt(FieldsOf(op), 0, q), next))
  {
    LineIsText(op);
    assert Held(op, 0) == DEFAULT_OP;
    GluedFrom(op, 0, q, next, Glue(op, CutAt(FieldsOf(op), 0, q), next));
  }

  /** The fields a cut can fall in, and what is left of a quoted one. */
  lemma {:induction false} CutRange(op: LogOp, i: nat, q: nat)
    requires i <= |FieldsOf(op)|
    ensures var cut := CutAt(FieldsOf(op), i, q);
      i <= cut.whole <= |FieldsOf(op)| && (!cut.tear.Between? ==> cut.whole < |FieldsOf(op)|) &&
      (cut.tear.InText? ==> FieldsOf(op)[cut.whole].quoted && cut.tear.raw <= FieldsOf(op)[cut.whole].text)
    decreases |FieldsOf(op)| - i
  {
    var fs := FieldsOf(op);
    if i < |fs| && q > |fs[i].text| + if fs[i].quoted then 6 else 5 {
      CutRange(op, i + 1, q - FieldLen(fs[i]));
    }
  }

  lemma BetweenIff(op: LogOp, w: nat, next: LogOp)
    requires op.Code() != [] && next.Code() != [] && w <= FieldCount(op)
    ensures Decoded(Glue(op, Cut(w, Between), next)) == Some(next) <==> Survives(op, Cut(w, Between), next)
  {
  }

  lemma FirstKeyIff(op: LogOp, next: LogOp)
    requires op.Code() != [] && next.Code() != []
    ensures Decoded(Glue(op, Cut(0, UnderKey), next)) == Some(next) <==> Kind(op) == Kind(next)
  {
  }

  lemma LaterKeyIff(op: LogOp, w: nat, next: LogOp)
    requires op.Code() != [] && next.Code() != [] && 0 < w < FieldCount(op)
    ensures Decoded(Glue(op, Cut(w, UnderKey), next)) == Some(next) <==> Survives(op, Cut(w, UnderKey), next)
  {
    var o := SetStr(Held(op, w), [KeyOf(op, w)], next.Code());
    assert o.c == Held(op, w).c && o.h == Held(op, w).h && o.x == Held(op, w).x;
    assert o.e == Held(op, w).e && o.hasE == Held(op, w).hasE;
  }

  lemma UnderKeyIff(op: LogOp, w: nat, next: LogOp)
    requires op.Code() != [] && next.Code() != [] && w < FieldCount(op)
    ensures Decoded(Glue(op, Cut(w, UnderKey), next)) == Some(next) <==> Survives(op, Cut(w, UnderKey), next)
  {
    if w == 0 {
      FirstKeyIff(op, next);
    } else {
      LaterKeyIff(op, w, next);
    }
  }

  lemma NamelessIff(op: LogOp, w: nat, next: LogOp)
    requires op.Code() != [] && next.Code() != [] && w < FieldCount(op)
    ensures Decoded(Glue(op, Cut(w, Nameless), next)) == Some(next) <==> Survives(op, Cut(w, Nameless), next)
  {
  }

  lemma UnquotedIff(op: LogOp, w: nat, next: LogOp)
    requires op.Code() != [] && next.Code() != [] && w < FieldCount(op)
    ensures Decoded(Glue(op, Cut(w, Unquoted), next)) == Some(next) <==> Survives(op, Cut(w, Unquoted), next)
  {
  }

  lemma BraceInCode(raw: bytes, c: bytes)
    requires CodeOk(c)
    ensures raw + [LBRACE] != c
  {
    assert (raw + [LBRACE])[|raw|] == LBRACE;
  }

  lemma CodeTornNever(op: LogOp, raw: bytes, next: LogOp)
    requires TornText(raw) != [] && TornText(raw) != next.Code()
    ensures Decoded(Glue(op, Cut(0, InText(raw)), next)) != Some(next)
  {
  }

  lemma UrlTornIff(op: LogOp, raw: bytes, next: LogOp)
    requires op.Code() != [] && next.Code() != [] && op.Row?
    ensures Decoded(Glue(op, Cut(1, InText(raw)), next)) == Some(next) <==> Survives(op, Cut(1, InText(raw)), next)
  {
  }

  /** Only the code and the url are quoted. */
  lemma QuotedFields(op: LogOp, w: nat)
    requires w < |FieldsOf(op)| && FieldsOf(op)[w].quoted
    ensures w == 0 || (w == 1 && op.Row?)
    ensures w == 0 ==> FieldsOf(op)[w].text == op.Code()
  {
  }

  lemma InTextIff(op: LogOp, w: nat, raw: bytes, next: LogOp)
    requires Loggable(op) && Loggable(next) && w < |FieldsOf(op)| && FieldsOf(op)[w].quoted &&
      raw <= FieldsOf(op)[w].text
    ensures Decoded(Glue(op, Cut(w, InText(raw)), next)) == Some(next) <==> Survives(op, Cut(w, InText(raw)), next)
  {
    QuotedFields(op, w);
    if w == 0 {
      CodeCut(op.Code(), |raw|, []);
      assert op.Code()[..|raw|] == raw;
      BraceInCode(raw, next.Code());
      CodeTornNever(op, raw, next);
    } else {
      UrlTornIff(op, raw, next);
    }
  }

  /** The glued line means the appended record exactly when the cut spares it. */
  lemma GluedRecordIff(op: LogOp, q: nat, next: LogOp)
    requires Loggable(op) && Loggable(next) && q <= |Line(op)|
    ensures Decode(Line(op)[..q] + Line(next)) == Some(next) <==> Survives(op, CutAt(FieldsOf(op), 0, q), next)
  {
    Glued(op, q, next);
    CutRange(op, 0, q);
    KeysOf(op, 0);
    var cut := CutAt(FieldsOf(op), 0, q);
    match cut.tear
    case Between => BetweenIff(op, cut.whole, next);
    case Nameless => NamelessIff(op, cut.whole, next);
    case UnderKey => UnderKeyIff(op, cut.whole, next);
    case Unquoted => UnquotedIff(op, cut.whole, next);
    case InText(raw) => InTextIff(op, cut.whole, raw, next);
  }

  // ---- which record is read instead ----

  /** The first `w` fields of `op`, its code and url replaced, with the fields of `next` behind its code
      stored over them: what a record of `op`'s kind can hold of them. */
  function Overlaid(op: LogOp, w: nat, code: bytes, url: bytes, next: LogOp): LogOp {
    match op
    case Row(_, u, a, e, i, n) =>
      var held := Row(code, if w >= 2 then u else url, if w >= 3 then a else 0, if w >= 4 then e else 0,
                      if w >= 5 then i else 0, if w >= 6 then n else 0);
      (match next
       case Row(_, _, _, e', _, _) => next.(c := code, e := if e' != 0 then e' else held.e)
       case Hit(_, _, node) => held.(i := node)
       case Del(_) => held)
    case Hit(_, d, i) =>
      var held := Hit(code, if w >= 2 then d else 0, if w >= 3 then i else 0);
      (match next
       case Row(_, _, _, _, i', _) => held.(node := i')
       case Hit(_, d', node) => Hit(code, d', node)
       case Del(_) => held)
    case Del(_) => Del(code)
  }

  /** The same when the cut is inside a quoted value: only the numbers behind the second key arrive. */
  function Misplaced(op: LogOp, code: bytes, url: bytes, next: LogOp): Option<LogOp> {
    if next.Del? then None
    else
      match op
      case Row(_, _, _, _, _, _) =>
        if next.Row? then Some(next.(c := code, u := url)) else Some(Row(code, url, 0, 0, next.node, 0))
      case Hit(_, _, _) => Some(Hit(code, 0, if next.Row? then next.i else next.node))
      case Del(_) => Some(Del(code))
  }

  /** The record read when `next` is appended behind `op` torn at `cut`, or none. */
  function Fused(op: LogOp, cut: Cut, next: LogOp): Option<LogOp> {
    var w := cut.whole;
    match cut.tear
    case Between =>
      if w == 0 then Some(next)
      else if Kind(op) > Kind(next) then Some(Overlaid(op, w, op.Code(), [], next))
      else Some(if Inherits(op, w, next) then next.(e := op.e) else next)
    case UnderKey =>
      if w == 0 then Some(Overlaid(op, 0, next.Code(), [], next))
      else Some(Overlaid(op, w, op.Code(), if w == 1 then next.Code() else [], next))
    case Nameless => if w == 0 then None else Some(Overlaid(op, w, op.Code(), [], next))
    case Unquoted => if w == 0 then None else Some(Overlaid(op, w, op.Code(), [], next))
    case InText(raw) =>
      if w == 0 then Misplaced(op, TornText(raw), [], next) else Misplaced(op, op.Code(), TornText(raw), next)
  }

  lemma BetweenGives(op: LogOp, w: nat, next: LogOp)
    requires op.Code() != [] && next.Code() != [] && w <= FieldCount(op)
    ensures Decoded(Glue(op, Cut(w, Between), next)) == Fused(op, Cut(w, Between), next)
  {
  }

  lemma UnderKeyGives(op: LogOp, w: nat, next: LogOp)
    requires op.Code() != [] && next.Code() != [] && w < FieldCount(op)
    ensures Decoded(Glue(op, Cut(w, UnderKey), next)) == Fused(op, Cut(w, UnderKey), next)
  {
    var o := SetStr(Held(op, w), [KeyOf(op, w)], next.Code());
    assert w > 0 ==> o.c == Held(op, w).c && o.h == Held(op, w).h && o.x == Held(op, w).x;
    assert o.e == Held(op, w).e && o.hasE == Held(op, w).hasE;
  }

  lemma NamelessGives(op: LogOp, w: nat, next: LogOp)
    requires op.Code() != [] && next.Code() != [] && w < FieldCount(op)
    ensures Decoded(Glue(op, Cut(w, Nameless), next)) == Fused(op, Cut(w, Nameless), next)
  {
  }

  lemma UnquotedGives(op: LogOp, w: nat, next: LogOp)
    requires op.Code() != [] && next.Code() != [] && w < FieldCount(op)
    ensures Decoded(Glue(op, Cut(w, Unquoted), next)) == Fused(op, Cut(w, Unquoted), next)
  {
  }

  lemma CodeTornGives(op: LogOp, raw: bytes, next: LogOp)
    requires TornText(raw) != []
    ensures Decoded(Glue(op, Cut(0, InText(raw)), next)) == Fused(op, Cut(0, InText(raw)), next)
  {
  }

  lemma UrlTornGives(op: LogOp, raw: bytes, next: LogOp)
    requires op.Code() != [] && op.Row?
    ensures Decoded(Glue(op, Cut(1, InText(raw)), next)) == Fused(op, Cut(1, InText(raw)), next)
  {
  }

  lemma InTextGives(op: LogOp, w: nat, raw: bytes, next: LogOp)
    requires Loggable(op) && w < |FieldsOf(op)| && FieldsOf(op)[w].quoted && raw <= FieldsOf(op)[w].text
    ensures Decoded(Glue(op, Cut(w, InText(raw)), next)) == Fused(op, Cut(w, InText(raw)), next)
  {
    QuotedFields(op, w);
    if w == 0 {
      CodeCut(op.Code(), |raw|, []);
      assert op.Code()[..|raw|] == raw;
      CodeTornGives(op, raw, next);
    } else {
      UrlTornGives(op, raw, next);
    }
  }

  /** The record read from the glued line, wherever in the torn line the cut fell. */
  lemma GluedRecord(op: LogOp, q: nat, next: LogOp)
    requires Loggable(op) && Loggable(next) && q <= |Line(op)|
    ensures Decode(Line(op)[..q] + Line(next)) == Fused(op, CutAt(FieldsOf(op), 0, q), next)
  {
    Glued(op, q, next);
    CutRange(op, 0, q);
    KeysOf(op, 0);
    var cut := CutAt(FieldsOf(op), 0, q);
    match cut.tear
    case Between => BetweenGives(op, cut.whole, next);
    case Nameless => NamelessGives(op, cut.whole, next);
    case UnderKey => UnderKeyGives(op, cut.whole, next);
    case Unquoted => UnquotedGives(op, cut.whole, next);
    case InText(raw) => InTextGives(op, cut.whole, raw, next);
  }

  /** A cut between fields before a record of at least the torn one's kind gives that record back,
      but a row without an expiry comes back with the expiry of the torn row. */
  lemma ExpiryInherited(op: LogOp, q: nat, next: LogOp)
    requires Loggable(op) && Loggable(next) && q <= |Line(op)|
    requires CutAt(FieldsOf(op), 0, q).tear.Between? && Kind(op) <= Kind(next)
    ensures Decode(Line(op)[..q] + Line(next)) ==
            Some(if Inherits(op, CutAt(FieldsOf(op), 0, q).whole, next) then next.(e := op.e) else next)
  {
    GluedRecord(op, q, next);
  }

  /** A cut inside a field behind the url gives the code of the torn row the url of the appended one,
      and its expiry if the appended one has none. */
  lemma UrlTakenOver(op: LogOp, q: nat, next: LogOp)
    requires Loggable(op) && Loggable(next) && q <= |Line(op)| && op.Row? && next.Row?
    requires var cut := CutAt(FieldsOf(op), 0, q); cut.whole >= 2 && !cut.tear.Between?
    ensures Decode(Line(op)[..q] + Line(next)) ==
            Some(next.(c := op.c, e := if Inherits(op, CutAt(FieldsOf(op), 0, q).whole, next) then op.e else next.e))
  {
    GluedRecord(op, q, next);
    CutRange(op, 0, q);
    KeysOf(op, 0);
    if CutAt(FieldsOf(op), 0, q).tear.InText? {
      QuotedFields(op, CutAt(FieldsOf(op), 0, q).whole);
    }
  }

  /** A cut inside the first key of a row makes a row of a hit appended behind it: a row for the hit's
      code, with an empty url. */
  lemma HitBecomesRow(op: LogOp, q: nat, next: LogOp)
    requires Loggable(op) && Loggable(next) && op.Row? && next.Hit? && (q == 3 || q == 4)
    ensures q <= |Line(op)| && Decode(Line(op)[..q] + Line(next)) == Some(Row(next.h, [], 0, 0, next.node, 0))
  {
    LineParts(op);
    GluedRecord(op, q, next);
    assert FieldsOf(op)[0] == Field(99, true, op.c);
    assert CutAt(FieldsOf(op), 0, q) == Cut(0, UnderKey);
  }

  // ---- the whole log ----

  /** What the fold gets of one line. */
  function Read(line: bytes): (ops: seq<LogOp>)
    ensures |ops| <= 1
  {
    match Decode(line) case Some(op) => [op] case None => []
  }

  lemma OneLine(line: bytes)
    ensures DecodeAll([line]) == Read(line)
  {
    assert [line][..0] == [];
    assert FilterMap(Decode, [line][..0]) == [];
  }

  /** Splitting a file that ends in a torn line and goes on with whole ones. */
  lemma SplitGlued(kept: seq<bytes>, torn: bytes, more: seq<bytes>)
    requires AllLines(kept) && AllLines(more) && more != [] && NL !in torn
    ensures Feed(NO_LINES, (Unlines(kept) + torn) + Unlines(more)).lines == kept + ([torn + more[0]] + more[1..])
  {
    var glued := [torn + more[0]] + more[1..];
    GlueFirst(torn, more);
    UnlinesAppend(kept, glued);
    Regroup(Unlines(kept), torn, Unlines(more));
    SplitOfUnlines(kept + glued);
  }

  lemma GluedLines(ops: seq<LogOp>, torn: bytes, more: seq<LogOp>)
    requires AllLoggable(ops) && AllLoggable(more) && more != [] && NL !in torn
    ensures FileOps((EncodeLog(ops) + torn) + EncodeLog(more)) ==
            ops + (Read(torn + Line(more[0])) + more[1..])
  {
    LinesOfLog(ops);
    LinesOfLog(more);
    SplitGlued(LinesOf(ops), torn, LinesOf(more));
    DecodeGlued(LinesOf(ops), torn + Line(more[0]), LinesOf(more)[1..]);
    DecodeTail(more);
  }

  lemma DecodeTail(more: seq<LogOp>)
    requires AllLoggable(more) && more != []
    ensures DecodeAll(LinesOf(more)[1..]) == more[1..] && LinesOf(more)[0] == Line(more[0])
  {
    assert LinesOf(more)[1..] == LinesOf(more[1..]);
    LinesOfLog(more[1..]);
  }

  lemma DecodeGlued(a: seq<bytes>, line: bytes, b: seq<bytes>)
    ensures DecodeAll(a + ([line] + b)) ==
            DecodeAll(a) + (Read(line) + DecodeAll(b))
  {
    FilterMapAppend(Decode, a, [line] + b);
    FilterMapAppend(Decode, [line], b);
    OneLine(line);
  }

  lemma SameTail(a: seq<LogOp>, one: seq<LogOp>, more: seq<LogOp>)
    requires more != [] && |one| <= 1
    ensures a + (one + more[1..]) == a + more <==> one == [more[0]]
  {
    var s, t := a + (one + more[1..]), a + more;
    assert t[|a|] == more[0];
    if |one| == 1 {
      assert s[|a|] == one[0];
      assert more == [more[0]] + more[1..];
    } else {
      assert |s| < |t|;
    }
  }

  lemma TornOf(ops: seq<LogOp>, cut: nat) returns (torn: bytes)
    requires AllLoggable(ops) && cut <= |EncodeLog(ops)|
    ensures var m := Completed(ops, cut);
      EncodeLog(ops)[..cut] == EncodeLog(ops[..m]) + torn && NL !in torn &&
      (if m < |ops| then torn <= Line(ops[m]) else torn == [])
  {
    LinesOfLog(ops);
    torn := TornPart(LinesOf(ops), cut);
    LinesOfSlice(ops, 0, Completed(ops, cut));
    assert ops[0..Completed(ops, cut)] == ops[..Completed(ops, cut)];
    assert LinesOf(ops)[0..Completed(ops, cut)] == LinesOf(ops)[..Completed(ops, cut)];
  }

  /** How many bytes of the first unfinished line a cut leaves. */
  function TornBytes(ops: seq<LogOp>, cut: nat): int {
    cut - |EncodeLog(ops[..Completed(ops, cut)])|
  }

  /** A log cut at any byte and reopened for append: everything completed before the cut and
      everything appended is read back if and only if the cut fell between two lines or the torn
      piece spares the first record appended, which is decided by where in the line the cut fell.
      Otherwise that one record is read as another or not at all, and all the others are read back. */
  lemma RecordsAfterCut(ops: seq<LogOp>, cut: nat, more: seq<LogOp>)
    requires AllLoggable(ops) && AllLoggable(more) && more != [] && cut <= |EncodeLog(ops)|
    ensures var m, q := Completed(ops, cut), TornBytes(ops, cut);
      var read := FileOps(EncodeLog(ops)[..cut] + EncodeLog(more));
      q >= 0 &&
      (read == ops[..m] + more <==>
        q == 0 || (m < |ops| && Survives(ops[m], CutAt(FieldsOf(ops[m]), 0, q), more[0]))) &&
      read == ops[..m] + (FirstOf(ops, m, q, more[0]) + more[1..])
  {
    var m, q := Completed(ops, cut), TornBytes(ops, cut);
    var torn := TornOf(ops, cut);
    assert |torn| == q by {
      assert |EncodeLog(ops)[..cut]| == cut;
    }
    GluedLines(ops[..m], torn, more);
    SameTail(ops[..m], Read(torn + Line(more[0])), more);
    FirstRead(ops, m, q, torn, more[0]);
  }

  /** What is read where the first appended record was glued to the torn piece. */
  function FirstOf(ops: seq<LogOp>, m: nat, q: nat, next: LogOp): seq<LogOp> {
    if q == 0 || m >= |ops| then [next]
    else match Fused(ops[m], CutAt(FieldsOf(ops[m]), 0, q), next) case Some(op) => [op] case None => []
  }

  lemma FirstRead(ops: seq<LogOp>, m: nat, q: nat, torn: bytes, next: LogOp)
    requires AllLoggable(ops) && Loggable(next) && m <= |ops| && |torn| == q
    requires if m < |ops| then torn <= Line(ops[m]) else torn == []
    ensures Read(torn + Line(next)) == [next] <==>
            q == 0 || (m < |ops| && Survives(ops[m], CutAt(FieldsOf(ops[m]), 0, q), next))
    ensures Read(torn + Line(next)) == FirstOf(ops, m, q, next)
  {
    if q == 0 {
      assert torn + Line(next) == Line(next);
      LineRoundTrip(next);
    } else {
      assert torn == Line(ops[m])[..q];
      GluedRecordIff(ops[m], q, next);
      GluedRecord(ops[m], q, next);
    }
  }
}
