/** Replies cut short by the end of the stream: which of them the reader takes for a value, and for
    which value. Everything else is reported as an error. */
module CutReplies {
  import opened Bytes
  import opened Resp

  // ---- what a cut reply reads as ----

  /** How many digits of the number are missing when only `j` bytes of its text arrived. */
  function Missing(n: int, j: nat): nat {
    if j < |Decimal(n)| then |Decimal(n)| - j else 0
  }

  /** The number without its last digits, sign kept. */
  function Shortened(n: int, missing: nat): int {
    if n >= 0 then n / Pow10(missing) else -((-n) / Pow10(missing))
  }

  /** What arrived of a line's text is taken for the whole line. */
  function CutText(t: bytes, j: nat): Read<bytes>
    requires j <= |t| + 2
  {
    if ValidUtf8((t + CRLF)[..j]) then Got(TrimEnd((t + CRLF)[..j]), []) else Failed
  }

  /** The reading of a reply of which only the first `k` bytes arrived. */
  function CutRead(v: Resp, k: nat): Read<Resp>
    requires k < |Encode(v)|
    decreases v, 0
  {
    if k == 0 then Failed
    else
      match v
      case Simple(t) => AsSimple(CutText(t, k - 1))
      case Err(t) => AsErr(CutText(t, k - 1))
      case Int(n) => Got(Int(Shortened(n, Missing(n, k - 1))), [])
      case Bulk(None) => Got(Bulk(None), [])
      case Bulk(Some(_)) => if k == 1 then Got(Bulk(None), []) else Failed
      case Arr(items) =>
        var header := 3 + |Decimal(|items|)|;
        if k == 1 || items == [] then Got(Arr([]), [])
        else if k <= header then Failed
        else AsArr(CutReadAll(items, k - header))
  }

  /** Only a cut inside the last item can go unnoticed. */
  function CutReadAll(vs: seq<Resp>, k: nat): Read<seq<Resp>>
    requires k < |EncodeAll(vs)|
    decreases vs, 1
  {
    var n := |Encode(vs[0])|;
    if k >= n then Before(vs[0], CutReadAll(vs[1..], k - n))
    else
      match CutRead(vs[0], k)
      case Failed => Failed
      case Got(v, _) => if |vs| == 1 then Got([v], []) else Failed
  }

  // ---- lines ----

  lemma LastLine(s: bytes)
    requires NL !in s
    ensures ReadLine(s) == if ValidUtf8(s) then Got(TrimEnd(s), []) else Failed
  {
    NoIndex(s, NL);
    assert s[..|s|] == s && s[|s|..] == [];
  }

  lemma CutLineText(t: bytes, j: nat)
    requires NL !in t && j <= |t| + 1
    ensures ReadLine((t + CRLF)[..j]) == CutText(t, j)
  {
    LastLine((t + CRLF)[..j]);
  }

  lemma CutTagged(tag: byte, t: bytes, k: nat)
    requires 1 <= k <= |t| + 2
    ensures var s := ([tag] + t + CRLF)[..k]; s != [] && s[0] == tag && s[1..] == (t + CRLF)[..k - 1]
  {
  }

  // ---- numbers ----

  lemma TrimEndReturn(p: bytes)
    ensures TrimEnd(p + [CR]) == TrimEnd(p)
  {
    var q := p + [CR];
    assert q[|p|..] == [CR] && q[..|p|] == p;
  }

  /** What the reader makes of the part of a number's text that arrived. */
  function PartValue(p: bytes, otherwise: int): int {
    match ParseI64(p) case Some(n) => n case None => otherwise
  }

  lemma DecimalPart(n: int, j: nat)
    requires 1 <= j <= |Decimal(n)|
    ensures var p := Decimal(n)[..j]; AllAscii(p) && TrimEnd(p) == p && ValidUtf8(p) && ValidUtf8(p + [CR])
  {
    DecimalBytes(n);
    var p := Decimal(n)[..j];
    AsciiIsUtf8(p);
    AsciiIsUtf8(p + [CR]);
    TrimEndKeeps(p);
  }

  lemma TakeLine(d: bytes, j: nat)
    requires j <= |d| + 1
    ensures (d + CRLF)[..j] == if j <= |d| then d[..j] else d + [CR]
  {
  }

  lemma CutNumberText(n: int, j: nat)
    requires j <= |Decimal(n)| + 1
    ensures var p := if j < |Decimal(n)| then Decimal(n)[..j] else Decimal(n);
      CutText(Decimal(n), j) == Got(p, [])
  {
    var d := Decimal(n);
    TakeLine(d, j);
    if j > |d| {
      DecimalPart(n, |d|);
      assert d[..|d|] == d;
      TrimEndReturn(d);
    } else if j > 0 {
      DecimalPart(n, j);
      assert d[..|d|] == d;
    }
  }

  lemma CutNumber(n: int, j: nat, otherwise: int)
    requires j <= |Decimal(n)| + 1
    ensures var p := if j < |Decimal(n)| then Decimal(n)[..j] else Decimal(n);
      ReadNumber((Decimal(n) + CRLF)[..j], otherwise) == Got(PartValue(p, otherwise), [])
  {
    DecimalBytes(n);
    CutLineText(Decimal(n), j);
    CutNumberText(n, j);
  }

  lemma DigitsParse(p: bytes)
    requires p != [] && AllDigits(p) && DigitsValue(p) <= I64_MAX
    ensures ParseI64(p) == Some(DigitsValue(p))
  {
    assert IsDigit(p[0]);
    assert Unsigned(p) == p;
  }

  lemma QuotientFits(n: nat, p: nat)
    requires p >= 1
    ensures 0 <= n / p <= n
  {
  }

  lemma CutNatural(n: nat, j: nat)
    requires n <= I64_MAX && j <= |Decimal(n)|
    ensures PartValue(Decimal(n)[..j], 0) == Shortened(n, |Decimal(n)| - j)
  {
    var p := Decimal(n)[..j];
    LeadingDigits(n, j);
    QuotientFits(n, Pow10(|Decimal(n)| - j));
    if j > 0 {
      DigitsParse(p);
    }
  }

  lemma NegativeParse(p: bytes)
    requires p != [] && AllDigits(p) && DigitsValue(p) <= -I64_MIN
    ensures ParseI64([MINUS] + p) == Some(-(DigitsValue(p) as int))
  {
    assert Unsigned([MINUS] + p) == p;
  }

  lemma TooManyDigits(n: nat)
    ensures n / Pow10(|NatDigits(n)| + 1) == 0
  {
    LeadingDigits(n, 0);
    var p := Pow10(|NatDigits(n)|);
    DivideTwice(n, p);
    assert n / p == 0;
    assert n / 10 / p == 0 by {
      QuotientFits(n, 10);
      SmallQuotient(n, p);
      Quotient(n / 10, p, 0, n / 10);
    }
  }

  lemma SmallQuotient(n: nat, p: nat)
    requires p >= 1 && n / p == 0
    ensures n < p
  {
    assert n == p * (n / p) + n % p;
  }

  lemma CutMinus(d: bytes, m: nat, j: nat)
    requires j <= |d| && d == NatDigits(m) && m <= -I64_MIN
    ensures PartValue([MINUS] + d[..j], 0) == -(m / Pow10(|d| - j))
  {
    LeadingDigits(m, j);
    QuotientFits(m, Pow10(|d| - j));
    if j > 0 {
      NegativeParse(d[..j]);
    } else {
      assert Unsigned([MINUS] + d[..0]) == [];
    }
  }

  lemma CutNegative(n: int, j: nat)
    requires I64_MIN <= n < 0 && j <= |Decimal(n)|
    ensures PartValue(Decimal(n)[..j], 0) == Shortened(n, |Decimal(n)| - j)
  {
    if j == 0 {
      TooManyDigits(-n);
    } else {
      assert Decimal(n)[..j] == [MINUS] + NatDigits(-n)[..j - 1];
      CutMinus(NatDigits(-n), -n, j - 1);
    }
  }

  lemma PartOfNumber(n: int, j: nat)
    requires IsI64(n) && j <= |Decimal(n)| + 1
    ensures PartValue(if j < |Decimal(n)| then Decimal(n)[..j] else Decimal(n), 0) == Shortened(n, Missing(n, j))
  {
    var i := if j < |Decimal(n)| then j else |Decimal(n)|;
    assert Decimal(n)[..|Decimal(n)|] == Decimal(n);
    if n >= 0 {
      CutNatural(n, i);
    } else {
      CutNegative(n, i);
    }
  }

  // ---- one-line replies ----

  /** A line value: text without a newline, or a 64-bit number. */
  predicate IsLine(v: Resp) {
    (v.Simple? && NL !in v.text) || (v.Err? && NL !in v.text) || (v.Int? && IsI64(v.n))
  }

  lemma CutTextLine(tag: byte, t: bytes, k: nat)
    requires NL !in t && 1 <= k <= |t| + 2 && (tag == PLUS || tag == MINUS)
    ensures ReadResp(([tag] + t + CRLF)[..k]) ==
            if tag == PLUS then AsSimple(CutText(t, k - 1)) else AsErr(CutText(t, k - 1))
  {
    CutTagged(tag, t, k);
    CutLineText(t, k - 1);
  }

  lemma CutNumberLine(n: int, k: nat)
    requires IsI64(n) && 1 <= k <= |Decimal(n)| + 2
    ensures ReadResp(([COLON] + Decimal(n) + CRLF)[..k]) == Got(Int(Shortened(n, Missing(n, k - 1))), [])
  {
    CutTagged(COLON, Decimal(n), k);
    CutNumber(n, k - 1, 0);
    PartOfNumber(n, k - 1);
  }

  /** A one-line reply cut by the end of the stream is read as what arrived of it: a number without
      its last digits, a text without its last characters. It is reported as an error only if the cut
      falls inside a character. */
  lemma CutLine(v: Resp, k: nat)
    requires IsLine(v) && 1 <= k < |Encode(v)|
    ensures ReadResp(Encode(v)[..k]) == CutRead(v, k)
    ensures ReadResp(Encode(v)[..k]).Failed? <==> !v.Int? && !ValidUtf8((v.text + CRLF)[..k - 1])
  {
    match v
    case Simple(t) => CutTextLine(PLUS, t, k);
    case Err(t) => CutTextLine(MINUS, t, k);
    case Int(n) => CutNumberLine(n, k);
  }

  // ---- lengths ----

  /** The digits of a length that arrived, if any, are a smaller length, and not zero unless it is. */
  lemma CutLength(n: nat, j: nat, otherwise: int)
    requires n <= I64_MAX && 1 <= j <= |Decimal(n)| + 1
    ensures exists m: nat ::
              (n > 0 ==> m > 0) && (n == 0 ==> m == 0) && ReadNumber((Decimal(n) + CRLF)[..j], otherwise) == Got(m, [])
  {
    var i := if j < |Decimal(n)| then j else |Decimal(n)|;
    CutNumber(n, j, otherwise);
    assert Decimal(n)[..|Decimal(n)|] == Decimal(n);
    LeadingDigits(n, i);
    QuotientFits(n, Pow10(|Decimal(n)| - i));
    DigitsParse(Decimal(n)[..i]);
    if n > 0 {
      FirstDigit(n, i);
    }
    var m: nat := DigitsValue(Decimal(n)[..i]);
    assert ReadNumber((Decimal(n) + CRLF)[..j], otherwise) == Got(m, []);
  }

  lemma {:induction false} FirstDigit(n: nat, i: nat)
    requires 1 <= i <= |NatDigits(n)| && n > 0
    ensures DigitsValue(NatDigits(n)[..i]) > 0
  {
    var d := NatDigits(n);
    if i == |d| {
      assert d[..i] == d;
      DigitsRoundTrip(n);
    } else {
      FirstDigit(n / 10, i);
      assert d[..i] == NatDigits(n / 10)[..i];
    }
  }

  // ---- bulk replies ----

  lemma NoBody(s: bytes, n: nat)
    requires s != [] && s[0] == DOLLAR && ReadNumber(s[1..], -1) == Got(n, [])
    ensures ReadResp(s).Failed?
  {
  }

  lemma NothingRead()
    ensures ReadLine([]) == Got([], [])
  {
  }

  lemma TagOnly(otherwise: int)
    ensures ReadNumber([], otherwise) == Got(otherwise, [])
  {
    NothingRead();
    assert ParseI64([]) == None;
  }

  /** A bulk reply cut by the end of the stream is reported as an error unless the cut falls right
      after its tag byte, where it reads as the null bulk string. */
  lemma CutBulk(b: bytes, k: nat)
    requires k < |Encode(Bulk(Some(b)))| && |b| <= I64_MAX
    ensures ReadResp(Encode(Bulk(Some(b)))[..k]).Failed? <==> k != 1
    ensures ReadResp(Encode(Bulk(Some(b)))[..k]) == CutRead(Bulk(Some(b)), k)
  {
    var d := Decimal(|b|);
    var s := Encode(Bulk(Some(b)))[..k];
    BulkParts(b, k);
    if k == 1 {
      TagOnly(-1);
    } else if 2 <= k <= |d| + 2 {
      CutLength(|b|, k - 1, -1);
      var m: nat :| ReadNumber((d + CRLF)[..k - 1], -1) == Got(m, []);
      NoBody(s, m);
    } else if k > 0 {
      NumberBack(|b|, -1, (b + CRLF)[..k - (|d| + 3)]);
      ShortBody(s, |b|, (b + CRLF)[..k - (|d| + 3)]);
    }
  }

  lemma ShortBody(s: bytes, n: nat, part: bytes)
    requires s != [] && s[0] == DOLLAR && ReadNumber(s[1..], -1) == Got(n, part) && |part| < n + 2
    ensures ReadResp(s).Failed?
  {
  }

  lemma BulkParts(b: bytes, k: nat)
    requires k < |Encode(Bulk(Some(b)))|
    ensures var d := Decimal(|b|);
      var s := Encode(Bulk(Some(b)))[..k];
      |Encode(Bulk(Some(b)))| == |d| + |b| + 5 && (k == 1 ==> s[0] == DOLLAR && s[1..] == []) &&
      (2 <= k <= |d| + 2 ==> s[0] == DOLLAR && s[1..] == (d + CRLF)[..k - 1]) &&
      (k >= |d| + 3 ==> s[0] == DOLLAR && s[1..] == d + CRLF + (b + CRLF)[..k - (|d| + 3)])
  {
    TakeItems([DOLLAR] + Decimal(|b|) + CRLF, b + CRLF, k);
    if 1 <= k <= |Decimal(|b|)| + 2 {
      CutTagged(DOLLAR, Decimal(|b|), k);
    }
  }

  lemma TakeItems(a: bytes, b: bytes, k: nat)
    requires k <= |a| + |b|
    ensures (a + b)[..k] == if k < |a| then a[..k] else a + b[..k - |a|]
  {
  }

  lemma NullPart(j: nat)
    requires j <= 3
    ensures |Decimal(-1)| == 2 && PartValue(if j < 2 then Decimal(-1)[..j] else Decimal(-1), -1) == -1
  {
    assert NatDigits(1) == [49];
    DecimalRoundTrip(-1);
    assert Decimal(-1)[..0] == [] && Decimal(-1)[..1] == [MINUS];
    assert Unsigned([]) == [] && Unsigned([MINUS]) == [];
  }

  lemma NullRead(s: bytes)
    requires s != [] && s[0] == DOLLAR && ReadNumber(s[1..], -1) == Got(-1, [])
    ensures ReadResp(s) == Got(Bulk(None), [])
  {
  }

  lemma CutNull(k: nat)
    requires 1 <= k < |Encode(Bulk(None))|
    ensures ReadResp(Encode(Bulk(None))[..k]) == Got(Bulk(None), [])
  {
    NullPart(k - 1);
    CutTagged(DOLLAR, Decimal(-1), k);
    CutNumber(-1, k - 1, -1);
    NullRead(Encode(Bulk(None))[..k]);
  }

  // ---- arrays ----

  lemma HeaderOnly(s: bytes, n: int)
    requires s != [] && s[0] == STAR && ReadNumber(s[1..], 0) == Got(n, []) && n >= 0
    ensures ReadResp(s) == if n == 0 then Got(Arr([]), []) else Failed
  {
    StarRead(s, n, []);
  }

  lemma ArrParts(items: seq<Resp>, k: nat)
    requires k < |Encode(Arr(items))|
    ensures var d := Decimal(|items|);
      var s := Encode(Arr(items))[..k];
      |Encode(Arr(items))| == |d| + 3 + |EncodeAll(items)| &&
      s == if k < |d| + 3 then ([STAR] + d + CRLF)[..k] else [STAR] + d + CRLF + EncodeAll(items)[..k - (|d| + 3)]
  {
    TakeItems([STAR] + Decimal(|items|) + CRLF, EncodeAll(items), k);
  }

  lemma CutHeader(n: nat, k: nat)
    requires n <= I64_MAX && 1 <= k <= |Decimal(n)| + 2
    ensures ReadResp(([STAR] + Decimal(n) + CRLF)[..k]) == if k == 1 || n == 0 then Got(Arr([]), []) else Failed
  {
    var s := ([STAR] + Decimal(n) + CRLF)[..k];
    CutTagged(STAR, Decimal(n), k);
    if k == 1 {
      TagOnly(0);
      HeaderOnly(s, 0);
    } else {
      CutLength(n, k - 1, 0);
      var m: nat :| (n > 0 ==> m > 0) && (n == 0 ==> m == 0) &&
                    ReadNumber((Decimal(n) + CRLF)[..k - 1], 0) == Got(m, []);
      HeaderOnly(s, m);
    }
  }

  lemma AfterHeader(items: seq<Resp>, part: bytes)
    requires |items| <= I64_MAX
    ensures ReadResp([STAR] + Decimal(|items|) + CRLF + part) == AsArr(ReadMany(part, |items|))
  {
    var s := [STAR] + Decimal(|items|) + CRLF + part;
    Tagged(STAR, Decimal(|items|), part);
    NumberBack(|items|, 0, part);
    StarRead(s, |items|, part);
  }

  lemma ManyLast(s: bytes, n: int, r: Read<Resp>)
    requires n > 0 && ReadResp(s) == r && (r.Got? ==> r.rest == [])
    ensures ReadMany(s, n) == if r.Failed? || n > 1 then Failed else Got([r.value], [])
  {
    if r.Got? {
      assert ReadResp([]).Failed?;
      assert ReadMany([], n - 1) == if n > 1 then Failed else Got([], []);
      assert [r.value] + [] == [r.value];
    }
  }

  lemma ManyMore(s: bytes, n: int, v: Resp, more: bytes)
    requires n > 0 && ReadResp(s) == Got(v, more)
    ensures ReadMany(s, n) == Before(v, ReadMany(more, n - 1))
  {
  }

  lemma {:induction false} CutItems(vs: seq<Resp>, k: nat)
    requires AllCanonical(vs) && k < |EncodeAll(vs)|
    ensures ReadMany(EncodeAll(vs)[..k], |vs|) == CutReadAll(vs, k)
    decreases vs, 2
  {
    var head, tail := Encode(vs[0]), EncodeAll(vs[1..]);
    TakeItems(head, tail, k);
    if k < |head| {
      CutReply(vs[0], k);
      CutRests(vs[0], k);
      ManyLast(head[..k], |vs|, CutRead(vs[0], k));
    } else {
      var more := tail[..k - |head|];
      RoundTrip(vs[0], more);
      ManyMore(head + more, |vs|, vs[0], more);
      CutItems(vs[1..], k - |head|);
    }
  }

  /** Nothing is left over after a cut reply. */
  lemma {:induction false} CutRests(v: Resp, k: nat)
    requires k < |Encode(v)|
    ensures CutRead(v, k).Got? ==> CutRead(v, k).rest == []
    decreases v, 0
  {
    if v.Arr? && v.items != [] && k > 3 + |Decimal(|v.items|)| {
      CutRestsAll(v.items, k - (3 + |Decimal(|v.items|)|));
    }
  }

  lemma {:induction false} CutRestsAll(vs: seq<Resp>, k: nat)
    requires k < |EncodeAll(vs)|
    ensures CutReadAll(vs, k).Got? ==> CutReadAll(vs, k).rest == []
    decreases vs, 1
  {
    if k >= |Encode(vs[0])| {
      CutRestsAll(vs[1..], k - |Encode(vs[0])|);
    }
  }

  lemma NoItems(n: nat)
    ensures ReadMany([], n) == if n == 0 then Got([], []) else Failed
  {
  }

  lemma ArrayRead(items: seq<Resp>, k: nat)
    requires 1 <= k < |Encode(Arr(items))|
    ensures var header := 3 + |Decimal(|items|)|;
      |Encode(Arr(items))| == header + |EncodeAll(items)| &&
      CutRead(Arr(items), k) ==
        if k < header then (if k == 1 || items == [] then Got(Arr([]), []) else Failed)
        else if k == header then Failed
        else AsArr(CutReadAll(items, k - header))
  {
    ArrParts(items, k);
    if k == 3 + |Decimal(|items|)| {
      assert items != [];
    }
  }

  lemma CutArray(items: seq<Resp>, k: nat)
    requires Canonical(Arr(items)) && 1 <= k < |Encode(Arr(items))|
    ensures ReadResp(Encode(Arr(items))[..k]) == CutRead(Arr(items), k)
    decreases Arr(items), 0
  {
    var header := 3 + |Decimal(|items|)|;
    ArrayRead(items, k);
    ArrParts(items, k);
    if k < header {
      CutHeader(|items|, k);
    } else {
      AfterHeader(items, EncodeAll(items)[..k - header]);
      if k == header {
        assert EncodeAll(items)[..0] == [] && items != [];
        NoItems(|items|);
      } else {
        CutItems(items, k - header);
      }
    }
  }

  /** Any canonical reply, nested to any depth and cut anywhere by the end of the stream: it is read as
      a value exactly when the cut falls in a line that can pass for a shorter one, right after the tag
      of a bulk string or an array, or so within the last item of an array; otherwise it is reported as
      an error. The value read is spelled out. */
  lemma {:induction false} CutReply(v: Resp, k: nat)
    requires Canonical(v) && k < |Encode(v)|
    ensures ReadResp(Encode(v)[..k]) == CutRead(v, k)
    decreases v, 1
  {
    if k == 0 {
      assert Encode(v)[..0] == [];
    } else {
      match v
      case Simple(_) => CutLine(v, k);
      case Err(_) => CutLine(v, k);
      case Int(_) => CutLine(v, k);
      case Bulk(None) => CutNull(k);
      case Bulk(Some(b)) => CutBulk(b, k);
      case Arr(items) => CutArray(items, k);
    }
  }
}
