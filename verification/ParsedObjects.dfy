/** What the parser reads from lines it did not print itself: objects with their fields in any order,
    blanks between the parts, unknown keys and repeated ones. */
module ParsedObjects {
  import opened Bytes
  import opened Codec
  import opened Parser
  import opened RoundTrip

  /** `before "key" gap : blanks value`, where the value is a text in quotes or anything bare. */
  datatype Field =
    | Text(before: bytes, key: bytes, gap: bytes, blanks: bytes, text: bytes)
    | Bare(before: bytes, key: bytes, gap: bytes, blanks: bytes, word: bytes)
  {
    function Value(): bytes {
      match this
      case Text(_, _, _, _, text) => [QUOTE] + Esc(text) + [QUOTE]
      case Bare(_, _, _, _, word) => word
    }

    /** The field's text, followed by `rest`. */
    function Shown(rest: bytes): bytes {
      before + [QUOTE] + (key + [QUOTE] + (gap + [COLON] + (blanks + (Value() + rest))))
    }
  }

  function ObjectText(fs: seq<Field>, tail: bytes): bytes {
    if fs == [] then tail else fs[0].Shown(ObjectText(fs[1..], tail))
  }

  predicate Blank(s: bytes) {
    forall k :: 0 <= k < |s| ==> s[k] == ' ' as int || s[k] == '\t' as int
  }

  /** A bare value ends at a comma, at a closing brace, or with the line. */
  predicate EndsBare(rest: bytes) {
    rest == [] || rest[0] == ',' as int || rest[0] == '}' as int
  }

  predicate FieldOk(f: Field, rest: bytes) {
    QUOTE !in f.before && f.key != [] && QUOTE !in f.key && COLON !in f.gap && Blank(f.blanks) &&
    match f
    case Text(_, _, _, _, text) => ValidUtf8(text)
    case Bare(_, _, _, _, word) =>
      word != [] && word[0] != QUOTE && !Blank(word[..1]) && COMMA !in word && RBRACE !in word && EndsBare(rest)
  }

  predicate ObjectOk(fs: seq<Field>, tail: bytes) {
    if fs == [] then QUOTE !in tail
    else FieldOk(fs[0], ObjectText(fs[1..], tail)) && ObjectOk(fs[1..], tail)
  }

  // ---- what the fields say ----

  /** The last text under a key that starts with `k`. */
  function LastText(fs: seq<Field>, k: char, otherwise: bytes): bytes
    requires forall x :: 0 <= x < |fs| ==> fs[x].key != []
  {
    if fs == [] then otherwise
    else
      LastText(fs[1..], k, if fs[0].Text? && fs[0].key[0] == k as int then fs[0].text else otherwise)
  }

  /** A bare value as a number; anything that is not a 64-bit integer counts as zero. */
  function Number(word: bytes): int {
    match ParseI64(if ValidUtf8(word) then Trim(word) else [])
    case Some(n) => n
    case None => 0
  }

  predicate IsNull(word: bytes) {
    ValidUtf8(word) && Trim(word) == Ascii("null")
  }

  /** The last bare value under a key that starts with `k`; a null under the key of the expiry does not count. */
  function LastBare(fs: seq<Field>, k: char, otherwise: Option<int>): Option<int>
    requires forall x :: 0 <= x < |fs| ==> fs[x].key != []
  {
    if fs == [] then otherwise
    else
      var says := fs[0].Bare? && fs[0].key[0] == k as int && !(k == 'e' && IsNull(fs[0].word));
      LastBare(fs[1..], k, if says then Some(Number(fs[0].word)) else otherwise)
  }

  function OrZero(n: Option<int>): int {
    match n case None => 0 case Some(v) => v
  }

  // ---- one field ----

  lemma {:induction false} SkipsBlanks(s: bytes, v: bytes)
    requires Blank(s) && v != [] && !Blank(v[..1])
    ensures SkipBlanks(s + v) == v
  {
    if s == [] {
      assert s + v == v;
      assert v[..1][0] == v[0];
    } else {
      assert (s + v)[1..] == s[1..] + v;
      SkipsBlanks(s[1..], v);
    }
  }

  lemma ValueAt(gap: bytes, blanks: bytes, v: bytes)
    requires COLON !in gap && Blank(blanks) && v != [] && !Blank(v[..1])
    ensures ValueText(gap + [COLON] + (blanks + v)) == Some(v)
  {
    var s := gap + [COLON] + (blanks + v);
    IndexOfAt(gap, COLON, blanks + v);
    assert s[|gap| + 1..] == blanks + v;
    SkipsBlanks(blanks, v);
  }

  lemma KeyFound(before: bytes, key: bytes, gap: bytes, blanks: bytes, v: bytes)
    requires QUOTE !in before && QUOTE !in key && COLON !in gap && Blank(blanks) && v != [] && !Blank(v[..1])
    ensures FindKey(before + [QUOTE] + (key + [QUOTE] + (gap + [COLON] + (blanks + v)))) == KeyAt(key, v)
  {
    var t := gap + [COLON] + (blanks + v);
    var s := key + [QUOTE] + t;
    IndexOfAt(before, QUOTE, s);
    assert (before + [QUOTE] + s)[|before| + 1..] == s;
    IndexOfAt(key, QUOTE, t);
    assert s[..|key|] == key && s[|key| + 1..] == t;
    ValueAt(gap, blanks, v);
  }

  lemma TextRead(o: Op, key: bytes, text: bytes, rest: bytes)
    requires ValidUtf8(text)
    ensures FieldValue(o, key, [QUOTE] + Esc(text) + [QUOTE] + rest) == (SetStr(o, key, text), rest)
  {
    var v := Esc(text) + [QUOTE] + rest;
    assert [QUOTE] + Esc(text) + [QUOTE] + rest == [QUOTE] + v;
    assert ([QUOTE] + v)[1..] == v;
    ScanEsc(text, rest);
    UnescapeInvertsEsc(text);
    assert Take(v, |Esc(text)|) == Esc(text) && Drop(v, |Esc(text)| + 1) == rest;
  }

  lemma {:induction false} BareEndsAt(word: bytes, rest: bytes)
    requires COMMA !in word && RBRACE !in word && EndsBare(rest)
    ensures BareLen(word + rest) == |word|
  {
    if word == [] {
      assert word + rest == rest;
    } else {
      BareEndsAt(word[1..], rest);
      assert (word + rest)[1..] == word[1..] + rest;
    }
  }

  lemma BareRead(o: Op, key: bytes, word: bytes, rest: bytes)
    requires word != [] && word[0] != QUOTE && COMMA !in word && RBRACE !in word && EndsBare(rest)
    ensures FieldValue(o, key, word + rest) == (SetNum(o, key, word), rest)
  {
    BareEndsAt(word, rest);
    assert (word + rest)[..|word|] == word && (word + rest)[|word|..] == rest;
  }

  function Stored(o: Op, f: Field): Op {
    match f
    case Text(_, key, _, _, text) => SetStr(o, key, text)
    case Bare(_, key, _, _, word) => SetNum(o, key, word)
  }

  lemma FieldRead(f: Field, rest: bytes, o: Op)
    requires FieldOk(f, rest)
    ensures ParseFields(f.Shown(rest), o) == ParseFields(rest, Stored(o, f))
  {
    var v := f.Value() + rest;
    match f {
      case Text(_, key, _, _, text) =>
        assert v[..1] == [QUOTE];
        TextRead(o, key, text, rest);
      case Bare(_, key, _, _, word) =>
        assert v[..1] == word[..1];
        BareRead(o, key, word, rest);
    }
    KeyFound(f.before, f.key, f.gap, f.blanks, v);
  }

  // ---- all fields ----

  /** `r` is `o` with the fields stored over it, the last one of each kind winning. */
  predicate Says(fs: seq<Field>, o: Op, r: Op)
    requires forall x :: 0 <= x < |fs| ==> fs[x].key != []
  {
    r.c == LastText(fs, 'c', o.c) && r.u == LastText(fs, 'u', o.u) &&
    r.h == LastText(fs, 'h', o.h) && r.x == LastText(fs, 'x', o.x) &&
    Some(r.a) == LastBare(fs, 'a', Some(o.a)) && Some(r.i) == LastBare(fs, 'i', Some(o.i)) &&
    Some(r.n) == LastBare(fs, 'n', Some(o.n)) && Some(r.d) == LastBare(fs, 'd', Some(o.d)) &&
    (if r.hasE then Some(r.e) else None) == LastBare(fs, 'e', if o.hasE then Some(o.e) else None)
  }

  lemma StoredSays(o: Op, f: Field)
    requires f.key != [] && (!o.hasE ==> o.e == 0)
    ensures var r := Stored(o, f);
            (!r.hasE ==> r.e == 0) &&
            r.c == (if f.Text? && f.key[0] == 'c' as int then f.text else o.c) &&
            r.u == (if f.Text? && f.key[0] == 'u' as int then f.text else o.u) &&
            r.h == (if f.Text? && f.key[0] == 'h' as int then f.text else o.h) &&
            r.x == (if f.Text? && f.key[0] == 'x' as int then f.text else o.x) &&
            r.a == (if f.Bare? && f.key[0] == 'a' as int then Number(f.word) else o.a) &&
            r.i == (if f.Bare? && f.key[0] == 'i' as int then Number(f.word) else o.i) &&
            r.n == (if f.Bare? && f.key[0] == 'n' as int then Number(f.word) else o.n) &&
            r.d == (if f.Bare? && f.key[0] == 'd' as int then Number(f.word) else o.d) &&
            (r.hasE, r.e) == if f.Bare? && f.key[0] == 'e' as int && !IsNull(f.word) then (true, Number(f.word))
                             else (o.hasE, o.e)
  {
    assert Ascii("null") == NULL_WORD;
    assert NumText([]) != NULL_WORD;
  }

  lemma {:induction false} FieldsRead(fs: seq<Field>, tail: bytes, o: Op) returns (r: Op)
    requires ObjectOk(fs, tail) && (!o.hasE ==> o.e == 0)
    ensures ParseFields(ObjectText(fs, tail), o) == Some(r) && (!r.hasE ==> r.e == 0)
    ensures (forall x :: 0 <= x < |fs| ==> fs[x].key != []) && Says(fs, o, r)
  {
    if fs == [] {
      NoIndex(tail, QUOTE);
      r := o;
    } else {
      FieldRead(fs[0], ObjectText(fs[1..], tail), o);
      StoredSays(o, fs[0]);
      r := FieldsRead(fs[1..], tail, Stored(o, fs[0]));
      assert forall x :: 0 < x < |fs| ==> fs[x] == fs[1..][x - 1];
    }
  }

  /** Whatever the order of the fields and the blanks around them: the parser reads the last text or number
      given for each first letter of a key, ignores all other keys, and rejects exactly the objects that
      name no code. */
  lemma ObjectRead(fs: seq<Field>, tail: bytes)
    requires ObjectOk(fs, tail)
    ensures forall x :: 0 <= x < |fs| ==> fs[x].key != []
    ensures var c, h, x := LastText(fs, 'c', []), LastText(fs, 'h', []), LastText(fs, 'x', []);
            ParseLine(ObjectText(fs, tail)) ==
            if c == [] && h == [] && x == [] then None
            else Some(Op(c, LastText(fs, 'u', []), h, x,
                         OrZero(LastBare(fs, 'a', Some(0))), OrZero(LastBare(fs, 'e', None)),
                         OrZero(LastBare(fs, 'i', Some(0))), OrZero(LastBare(fs, 'n', Some(0))),
                         OrZero(LastBare(fs, 'd', Some(0))), LastBare(fs, 'e', None).Some?))
  {
    var r := FieldsRead(fs, tail, DEFAULT_OP);
  }

  // ---- texts with other escapes ----

  /** A hexadecimal digit of either case. */
  predicate HexIs(b: byte, v: int) {
    if v < 10 then b == '0' as int + v else b == 'a' as int - 10 + v || b == 'A' as int - 10 + v
  }

  /** Section 7 of RFC 8259: what one escape stands for. A backslash before any other character stands for
      that character. */
  lemma EscapeRead(c: byte, rest: bytes)
    requires c != 'u' as int
    ensures UnescapeBytes(Ascii("\\") + [c] + rest) ==
            (if c == 'n' as int then Ascii("\n") else if c == 'r' as int then Ascii("\r")
             else if c == 't' as int then Ascii("\t") else if c == 'b' as int then [8]
             else if c == 'f' as int then [12] else [c]) + UnescapeBytes(rest)
  {
    var s := Ascii("\\") + [c] + rest;
    assert s[0] == BACKSLASH && s[1] == c && s[2..] == rest;
    assert Ascii("\n") == [NL] && Ascii("\r") == [CR] && Ascii("\t") == [9];
  }

  lemma ScalarOf(h: bytes, v: seq<int>)
    requires |h| == |v| == 4 && forall k :: 0 <= k < 4 ==> 0 <= v[k] < 16 && HexIs(h[k], v[k])
    ensures var n := v[0] * 4096 + v[1] * 256 + v[2] * 16 + v[3];
            HexScalar(h) == if 0xD800 <= n < 0xE000 then None else Some(n)
  {
    assert forall k :: 0 <= k < 4 ==> HexValue(h[k]) == v[k];
  }

  lemma UnitAt(h: bytes, rest: bytes, n: int)
    requires |h| == 4 && HexScalar(h) == if 0xD800 <= n < 0xE000 then None else Some(n)
    ensures var s := Ascii("\\u") + (h + rest);
            s[2..] == h + rest && (|s| >= 6 && s[6..] == rest) && Ascii("u") == [117] &&
            EscapeUnit(s) == if 0xD800 <= n < 0xE000 then ([117], 2) else (EncodeScalar(n), 6)
  {
    var s := Ascii("\\u") + (h + rest);
    assert s[0] == BACKSLASH && s[1] == 117 && s[2..6] == h;
  }

  /** Four digits stand for the UTF-8 bytes of their scalar value; half a surrogate pair is none, and is
      read as a letter and four characters. */
  lemma ScalarRead(h: bytes, v: seq<int>, rest: bytes)
    requires |h| == |v| == 4 && forall k :: 0 <= k < 4 ==> 0 <= v[k] < 16 && HexIs(h[k], v[k])
    ensures var n := v[0] * 4096 + v[1] * 256 + v[2] * 16 + v[3];
            UnescapeBytes(Ascii("\\u") + (h + rest)) ==
            if 0xD800 <= n < 0xE000 then Ascii("u") + UnescapeBytes(h + rest)
            else (if n < 0x80 then [n]
                  else if n < 0x800 then [0xC0 + n / 0x40, 0x80 + n % 0x40]
                  else [0xE0 + n / 0x1000, 0x80 + n / 0x40 % 0x40, 0x80 + n % 0x40]) + UnescapeBytes(rest)
  {
    var s := Ascii("\\u") + (h + rest);
    var n := v[0] * 4096 + v[1] * 256 + v[2] * 16 + v[3];
    ScalarOf(h, v);
    UnitAt(h, rest, n);
    UnescapeStep(s, EscapeUnit(s).0, EscapeUnit(s).1);
  }
}
