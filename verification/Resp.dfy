/** The RESP2 wire protocol as the KV client speaks it: printing commands, parsing replies, and
    why pipelined replies stay aligned with their commands. */
module Resp {
  import opened Bytes

  datatype Resp =
    | Simple(text: bytes)
    | Int(n: int)
    | Bulk(data: Option<bytes>)
    | Arr(items: seq<Resp>)
    | Err(text: bytes)

  const CRLF: bytes := [CR, NL]
  const DOLLAR: byte := 36
  const STAR: byte := 42

  /** A read from the reply stream: what was read and the bytes after it, or an I/O error. */
  datatype Read<T> = Got(value: T, rest: bytes) | Failed

  // ---- printing ----

  function Encode(v: Resp): (s: bytes)
    ensures |s| >= 1
    decreases v, 0
  {
    match v
    case Simple(t) => [PLUS] + t + CRLF
    case Err(t) => [MINUS] + t + CRLF
    case Int(n) => [COLON] + Decimal(n) + CRLF
    case Bulk(None) => [DOLLAR] + Decimal(-1) + CRLF
    case Bulk(Some(b)) => [DOLLAR] + Decimal(|b|) + CRLF + (b + CRLF)
    case Arr(items) => [STAR] + Decimal(|items|) + CRLF + EncodeAll(items)
  }

  function EncodeAll(vs: seq<Resp>): bytes
    decreases vs, 1
  {
    if vs == [] then [] else Encode(vs[0]) + EncodeAll(vs[1..])
  }

  // ---- parsing ----

  /** BufRead::read_line into a String, then trim_end; the end of the stream ends a line too. */
  function ReadLine(s: bytes): (r: Read<bytes>)
    ensures r.Got? ==> |r.rest| <= |s|
  {
    var k := IndexOf(s, NL);
    var n := if k < |s| then k + 1 else k;
    if ValidUtf8(s[..n]) then Got(TrimEnd(s[..n]), s[n..]) else Failed
  }

  function ReadNumber(s: bytes, otherwise: int): (r: Read<int>)
    ensures r.Got? ==> |r.rest| <= |s|
  {
    match ReadLine(s)
    case Failed => Failed
    case Got(t, rest) => Got(match ParseI64(t) case Some(n) => n case None => otherwise, rest)
  }

  /** `n` bytes and two more, whatever these are. */
  function ReadBody(s: bytes, n: nat): (r: Read<bytes>)
    ensures r.Got? ==> |r.rest| <= |s|
  {
    if |s| < n + 2 then Failed else Got(s[..n], s[n + 2..])
  }

  function ReadResp(s: bytes): (r: Read<Resp>)
    ensures r.Got? ==> |r.rest| < |s|
    decreases |s|, 0
  {
    if s == [] then Failed
    else if s[0] == PLUS then AsSimple(ReadLine(s[1..]))
    else if s[0] == MINUS then AsErr(ReadLine(s[1..]))
    else if s[0] == COLON then AsInt(ReadNumber(s[1..], 0))
    else if s[0] == DOLLAR then AsBulk(ReadNumber(s[1..], -1))
    else if s[0] == STAR then
      match ReadNumber(s[1..], 0)
      case Failed => Failed
      case Got(n, rest) => AsArr(ReadMany(rest, n))
    else Failed
  }

  function ReadMany(s: bytes, n: int): (r: Read<seq<Resp>>)
    ensures r.Got? ==> |r.rest| <= |s| && |r.value| == if n < 0 then 0 else n
    decreases |s|, 1
  {
    if n <= 0 then Got([], s)
    else
      match ReadResp(s)
      case Failed => Failed
      case Got(v, rest) => Before(v, ReadMany(rest, n - 1))
  }

  function Before(v: Resp, r: Read<seq<Resp>>): Read<seq<Resp>> {
    match r case Failed => Failed case Got(vs, rest) => Got([v] + vs, rest)
  }

  function AsSimple(r: Read<bytes>): Read<Resp> {
    match r case Failed => Failed case Got(t, rest) => Got(Simple(t), rest)
  }

  function AsErr(r: Read<bytes>): Read<Resp> {
    match r case Failed => Failed case Got(t, rest) => Got(Err(t), rest)
  }

  function AsInt(r: Read<int>): Read<Resp> {
    match r case Failed => Failed case Got(n, rest) => Got(Int(n), rest)
  }

  function AsArr(r: Read<seq<Resp>>): Read<Resp> {
    match r case Failed => Failed case Got(vs, rest) => Got(Arr(vs), rest)
  }

  /** A negative length is the null bulk string, which has no body. */
  function AsBulk(r: Read<int>): (b: Read<Resp>)
    ensures b.Got? ==> r.Got? && |b.rest| <= |r.rest|
  {
    match r
    case Failed => Failed
    case Got(n, rest) =>
      if n < 0 then Got(Bulk(None), rest)
      else match ReadBody(rest, n) case Failed => Failed case Got(b, more) => Got(Bulk(Some(b)), more)
  }

  // ---- what survives the trip ----

  /** Text a RESP line can carry: UTF-8, no newline, no white space at its end. */
  predicate LineText(t: bytes) {
    ValidUtf8(t) && NL !in t && TrimEnd(t) == t
  }

  predicate Canonical(v: Resp)
    decreases v, 0
  {
    match v
    case Simple(t) => LineText(t)
    case Err(t) => LineText(t)
    case Int(n) => IsI64(n)
    case Bulk(None) => true
    case Bulk(Some(b)) => |b| <= I64_MAX
    case Arr(items) => |items| <= I64_MAX && AllCanonical(items)
  }

  predicate AllCanonical(vs: seq<Resp>)
    decreases vs, 1
  {
    vs == [] || (Canonical(vs[0]) && AllCanonical(vs[1..]))
  }

  lemma {:induction false} Utf8Append(a: bytes, b: bytes)
    requires AllAscii(b)
    ensures ValidUtf8(a + b) <==> ValidUtf8(a)
    decreases |a|
  {
    if a == [] {
      assert a + b == b;
      AsciiIsUtf8(b);
    } else {
      StepAppend(a, b);
      var n := Utf8Step(a).1;
      if Utf8Step(a).0 {
        assert (a + b)[n..] == a[n..] + b;
        Utf8Append(a[n..], b);
      }
    }
  }

  lemma StepAppend(a: bytes, b: bytes)
    requires a != [] && AllAscii(b)
    ensures Utf8Step(a + b) == Utf8Step(a)
  {
    var s := a + b;
    assert forall i :: 0 <= i < |s| ==> s[i] == if i < |a| then a[i] else b[i - |a|];
  }

  lemma TrimEndCrlf(t: bytes)
    ensures TrimEnd(t + CRLF) == TrimEnd(t)
  {
    var s := t + CRLF;
    assert s[|s| - 1..] == [NL];
    assert s[..|s| - 1] == t + [CR];
    assert (t + [CR])[|t|..] == [CR];
    assert (t + [CR])[..|t|] == t;
  }

  /** Reading back a printed line succeeds exactly on text without newlines that is UTF-8, and
      trims it. */
  lemma LineBack(t: bytes, tail: bytes)
    requires NL !in t
    ensures ReadLine(t + CRLF + tail) == if ValidUtf8(t) then Got(TrimEnd(t), tail) else Failed
  {
    var s := t + CRLF + tail;
    assert s == (t + [CR]) + [NL] + tail;
    IndexOfAt(t + [CR], NL, tail);
    assert s[..|t| + 2] == t + CRLF && s[|t| + 2..] == tail;
    Utf8Append(t, CRLF);
    TrimEndCrlf(t);
  }

  lemma LineTrip(t: bytes, tail: bytes)
    ensures ReadLine(t + CRLF + tail) == Got(t, tail) <==> LineText(t)
    ensures var r := ReadLine(t + CRLF + tail); !LineText(t) ==> r.Failed? || r.value != t
  {
    if NL !in t {
      LineBack(t, tail);
    } else {
      CutAtNewline(t, CRLF + tail);
      assert t + CRLF + tail == t + (CRLF + tail);
    }
  }

  /** A newline inside the text ends the line early: strictly less text comes back. */
  lemma CutAtNewline(t: bytes, tail: bytes)
    requires NL in t
    ensures var r := ReadLine(t + tail); r.Failed? || |r.value| < |t|
  {
    var s := t + tail;
    var k := IndexOf(s, NL);
    IndexOfBound(t, tail, NL);
    assert s[..k + 1] == s[..k] + [NL];
    TrimEndNewline(s[..k]);
  }

  lemma TrimEndNewline(x: bytes)
    ensures |TrimEnd(x + [NL])| <= |x|
  {
    var s := x + [NL];
    assert s[|s| - 1..] == [NL];
    assert s[..|s| - 1] == x;
  }

  lemma {:induction false} IndexOfBound(t: bytes, tail: bytes, c: byte)
    requires c in t
    ensures IndexOf(t + tail, c) < |t| && (t + tail)[IndexOf(t + tail, c)] == c
  {
    if t[0] != c {
      assert (t + tail)[1..] == t[1..] + tail;
      IndexOfBound(t[1..], tail, c);
    }
  }

  lemma NumberBack(n: int, otherwise: int, tail: bytes)
    ensures ReadNumber(Decimal(n) + CRLF + tail, otherwise) == Got(if IsI64(n) then n else otherwise, tail)
  {
    DecimalIsPlain(n);
    DecimalBytes(n);
    LineBack(Decimal(n), tail);
    TrimEndKeeps(Decimal(n));
    if IsI64(n) {
      DecimalRoundTrip(n);
    } else {
      TooBig(n);
    }
  }

  lemma TooBig(n: int)
    requires !IsI64(n)
    ensures ParseI64(Decimal(n)).None?
  {
    if n < 0 {
      DigitsRoundTrip(-n);
      assert Decimal(n)[1..] == NatDigits(-n);
    } else {
      DigitsRoundTrip(n);
    }
  }

  /** A nested value and any trailing bytes: the parser returns the value that was printed and
      stops exactly at its end. */
  lemma {:induction false} RoundTrip(v: Resp, tail: bytes)
    requires Canonical(v)
    ensures ReadResp(Encode(v) + tail) == Got(v, tail)
    decreases v, 0
  {
    if v.Bulk? && v.data.Some? {
      BulkBack(v.data.value, tail);
    } else if v.Arr? {
      RoundTripAll(v.items, tail);
      ArrHeader(v.items, EncodeAll(v.items), tail);
    } else {
      LineValueBack(v, tail);
    }
  }

  lemma LineValueBack(v: Resp, tail: bytes)
    requires Canonical(v) && !v.Arr? && (v.Bulk? ==> v.data.None?)
    ensures ReadResp(Encode(v) + tail) == Got(v, tail)
  {
    match v
    case Simple(t) => TextBack(t, tail);
    case Err(t) => TextBack(t, tail);
    case Int(n) => IntBack(n, tail);
    case Bulk(_) => NullBack(tail);
  }

  lemma TextBack(t: bytes, tail: bytes)
    requires LineText(t)
    ensures ReadResp([PLUS] + t + CRLF + tail) == Got(Simple(t), tail)
    ensures ReadResp([MINUS] + t + CRLF + tail) == Got(Err(t), tail)
  {
    LineTrip(t, tail);
    Tagged(PLUS, t, tail);
    Tagged(MINUS, t, tail);
  }

  lemma IntBack(n: int, tail: bytes)
    requires IsI64(n)
    ensures ReadResp([COLON] + Decimal(n) + CRLF + tail) == Got(Int(n), tail)
  {
    NumberBack(n, 0, tail);
    Tagged(COLON, Decimal(n), tail);
  }

  lemma NullBack(tail: bytes)
    ensures ReadResp([DOLLAR] + Decimal(-1) + CRLF + tail) == Got(Bulk(None), tail)
  {
    NumberBack(-1, -1, tail);
    Tagged(DOLLAR, Decimal(-1), tail);
  }

  lemma Tagged(tag: byte, t: bytes, tail: bytes)
    ensures var s := [tag] + t + CRLF + tail; s != [] && s[0] == tag && s[1..] == t + CRLF + tail
  {
  }

  lemma BulkBack(b: bytes, tail: bytes)
    requires |b| <= I64_MAX
    ensures ReadResp(Encode(Bulk(Some(b))) + tail) == Got(Bulk(Some(b)), tail)
  {
    var s := Encode(Bulk(Some(b))) + tail;
    assert s[1..] == Decimal(|b|) + CRLF + (b + CRLF + tail);
    NumberBack(|b|, -1, b + CRLF + tail);
    BodyBack(b, tail);
  }

  /** An array header: what follows is read as that many replies. */
  lemma ArrHeader(items: seq<Resp>, all: bytes, tail: bytes)
    requires all == EncodeAll(items)
    ensures ReadResp(Encode(Arr(items)) + tail) ==
            AsArr(ReadMany(all + tail, if |items| <= I64_MAX then |items| else 0))
  {
    var n, body := |items|, all + tail;
    var s := [STAR] + Decimal(n) + CRLF + body;
    assert Encode(Arr(items)) + tail == s;
    Tagged(STAR, Decimal(n), body);
    NumberBack(n, 0, body);
    StarRead(s, if n <= I64_MAX then n else 0, body);
  }

  lemma StarRead(s: bytes, n: int, body: bytes)
    requires s != [] && s[0] == STAR && ReadNumber(s[1..], 0) == Got(n, body)
    ensures ReadResp(s) == AsArr(ReadMany(body, n))
  {
  }

  lemma BodyBack(b: bytes, tail: bytes)
    ensures ReadBody(b + CRLF + tail, |b|) == Got(b, tail)
  {
    var s := b + CRLF + tail;
    assert s[..|b|] == b && s[|b| + 2..] == tail;
  }

  lemma {:induction false} RoundTripAll(vs: seq<Resp>, tail: bytes)
    requires AllCanonical(vs)
    ensures ReadMany(EncodeAll(vs) + tail, |vs|) == Got(vs, tail)
    decreases vs, 1
  {
    if vs == [] {
      assert EncodeAll(vs) + tail == tail;
    } else {
      var more := EncodeAll(vs[1..]) + tail;
      RoundTrip(vs[0], more);
      RoundTripAll(vs[1..], tail);
      EncodeAllCons(vs, tail);
      ManyNext(Encode(vs[0]) + more, |vs|, vs[0], more, vs[1..], tail);
      assert [vs[0]] + vs[1..] == vs;
    }
  }

  lemma EncodeAllCons(vs: seq<Resp>, tail: bytes)
    requires vs != []
    ensures EncodeAll(vs) + tail == Encode(vs[0]) + (EncodeAll(vs[1..]) + tail)
  {
  }

  lemma ManyNext(s: bytes, n: int, v: Resp, more: bytes, vs: seq<Resp>, rest: bytes)
    requires n > 0 && ReadResp(s) == Got(v, more) && ReadMany(more, n - 1) == Got(vs, rest)
    ensures ReadMany(s, n) == Got([v] + vs, rest)
  {
  }

  lemma TextNotBack(v: Resp, tail: bytes)
    requires !Canonical(v) && (v.Simple? || v.Err?)
    ensures var r := ReadResp(Encode(v) + tail); r.Failed? || r.value != v
  {
    var s := Encode(v) + tail;
    assert s[1..] == v.text + CRLF + tail;
    LineTrip(v.text, tail);
  }

  lemma NumberNotBack(v: Resp, tail: bytes)
    requires !Canonical(v) && (v.Int? || v.Bulk?)
    ensures var r := ReadResp(Encode(v) + tail); r.Failed? || r.value != v
  {
    var s := Encode(v) + tail;
    match v
    case Int(n) =>
      assert s[1..] == Decimal(n) + CRLF + tail;
      NumberBack(n, 0, tail);
    case Bulk(_) =>
      var b := v.data.value;
      assert s[1..] == Decimal(|b|) + CRLF + (b + CRLF + tail);
      NumberBack(|b|, -1, b + CRLF + tail);
  }

  /** The converse: a value that is not canonical never comes back. */
  lemma {:induction false} OnlyCanonical(v: Resp, tail: bytes)
    requires !Canonical(v)
    ensures var r := ReadResp(Encode(v) + tail); r.Failed? || r.value != v
    decreases v, 0
  {
    if v.Arr? {
      ArrHeader(v.items, EncodeAll(v.items), tail);
      if |v.items| <= I64_MAX {
        OnlyAllCanonical(v.items, tail);
      }
    } else if v.Simple? || v.Err? {
      TextNotBack(v, tail);
    } else {
      NumberNotBack(v, tail);
    }
  }

  lemma {:induction false} OnlyAllCanonical(vs: seq<Resp>, tail: bytes)
    requires !AllCanonical(vs)
    ensures var r := ReadMany(EncodeAll(vs) + tail, |vs|); r.Failed? || r.value != vs
    decreases vs, 1
  {
    var more := EncodeAll(vs[1..]) + tail;
    EncodeAllCons(vs, tail);
    if Canonical(vs[0]) {
      RoundTrip(vs[0], more);
      OnlyAllCanonical(vs[1..], tail);
    } else {
      OnlyCanonical(vs[0], more);
    }
  }

  /** Parsing inverts printing exactly on canonical values. */
  lemma RoundTripIff(v: Resp, tail: bytes)
    ensures ReadResp(Encode(v) + tail) == Got(v, tail) <==> Canonical(v)
  {
    if Canonical(v) {
      RoundTrip(v, tail);
    } else {
      OnlyCanonical(v, tail);
    }
  }

  // ---- on the wire ----

  lemma Tags()
    ensures Ascii("\r\n") == CRLF && Ascii("+") == [PLUS] && Ascii("-") == [MINUS] && Ascii(":") == [COLON]
    ensures Ascii("$") == [DOLLAR] && Ascii("*") == [STAR]
  {
  }

  /** The kinds of replies, written out. */
  lemma LineReplyText(t: bytes, n: int)
    ensures Encode(Simple(t)) == Ascii("+") + t + Ascii("\r\n") && Encode(Err(t)) == Ascii("-") + t + Ascii("\r\n")
    ensures Encode(Int(n)) == Ascii(":") + Decimal(n) + Ascii("\r\n")
  {
    Tags();
  }

  lemma BulkText(t: bytes)
    ensures Encode(Bulk(None)) == Ascii("$-1\r\n")
    ensures Encode(Bulk(Some(t))) == Ascii("$") + Decimal(|t|) + Ascii("\r\n") + (t + Ascii("\r\n"))
  {
    Tags();
    assert Decimal(-1) == [MINUS, 49];
    assert Ascii("$-1\r\n") == [DOLLAR, MINUS, 49] + CRLF;
  }

  /** An array is its header and then its items. */
  lemma ArrayText(items: seq<Resp>)
    ensures Encode(Arr(items)) == Ascii("*") + Decimal(|items|) + Ascii("\r\n") + EncodeAll(items)
    ensures EncodeAll([]) == [] && (items != [] ==> EncodeAll(items) == Encode(items[0]) + EncodeAll(items[1..]))
  {
    Tags();
  }

  /** A reply that starts with anything else, or does not start, is an error. */
  lemma OtherTag(s: bytes)
    requires s == [] || s[0] !in Ascii("+-:$*")
    ensures ReadResp(s).Failed?
  {
    assert Ascii("+-:$*") == [PLUS, MINUS, COLON, DOLLAR, STAR];
  }

  /** What a line that holds no 64-bit integer means after each tag: zero, the null string, no items. */
  lemma NoNumber(t: bytes, tail: bytes)
    requires NL !in t && ValidUtf8(t) && ParseI64(TrimEnd(t)).None?
    ensures ReadResp([COLON] + t + CRLF + tail) == Got(Int(0), tail)
    ensures ReadResp([DOLLAR] + t + CRLF + tail) == Got(Bulk(None), tail)
    ensures ReadResp([STAR] + t + CRLF + tail) == Got(Arr([]), tail)
  {
    LineBack(t, tail);
    Tagged(COLON, t, tail);
    Tagged(DOLLAR, t, tail);
    Tagged(STAR, t, tail);
  }

  /** A negative length is the null string or no items, and a body may be followed by any two bytes. */
  lemma OddLengths(n: int, b: bytes, x: byte, y: byte, tail: bytes)
    requires IsI64(n) && n < 0 && |b| <= I64_MAX
    ensures ReadResp([DOLLAR] + Decimal(n) + CRLF + tail) == Got(Bulk(None), tail)
    ensures ReadResp([STAR] + Decimal(n) + CRLF + tail) == Got(Arr([]), tail)
    ensures ReadResp([DOLLAR] + Decimal(|b|) + CRLF + (b + [x, y] + tail)) == Got(Bulk(Some(b)), tail)
  {
    NumberBack(n, -1, tail);
    NumberBack(n, 0, tail);
    Tagged(DOLLAR, Decimal(n), tail);
    Tagged(STAR, Decimal(n), tail);
    var body := b + [x, y] + tail;
    NumberBack(|b|, -1, body);
    Tagged(DOLLAR, Decimal(|b|), body);
    assert body[..|b|] == b && body[|b| + 2..] == tail;
  }

  // ---- the stateful reader ----

  method FindNewline(s: bytes) returns (k: nat)
    ensures k == IndexOf(s, NL)
  {
    k := 0;
    while k < |s| && s[k] != NL
      invariant k <= |s| && k + IndexOf(s[k..], NL) == IndexOf(s, NL)
    {
      assert s[k..][1..] == s[k + 1..];
      k := k + 1;
    }
  }

  class Stream {
    /** Everything the server will have sent on this connection that was not read yet. */
    var rest: bytes

    constructor (s: bytes)
      ensures rest == s
    {
      rest := s;
    }

    method TakeLine() returns (t: Option<bytes>)
      modifies this
      ensures match ReadLine(old(rest))
              case Failed => t == None
              case Got(x, more) => t == Some(x) && rest == more
    {
      var k := FindNewline(rest);
      if k < |rest| {
        k := k + 1;
      }
      var line := rest[..k];
      rest := rest[k..];
      t := if ValidUtf8(line) then Some(TrimEnd(line)) else None;
    }

    method TakeNumber(otherwise: int) returns (n: Option<int>)
      modifies this
      ensures match ReadNumber(old(rest), otherwise)
              case Failed => n == None
              case Got(x, more) => n == Some(x) && rest == more
    {
      var t := TakeLine();
      match t {
        case None => n := None;
        case Some(line) =>
          var p := ParseI64(line);
          n := Some(match p case Some(x) => x case None => otherwise);
      }
    }

    method TakeBody(n: nat) returns (b: Option<bytes>)
      modifies this
      ensures match ReadBody(old(rest), n)
              case Failed => b == None
              case Got(x, more) => b == Some(x) && rest == more
    {
      if |rest| < n + 2 {
        rest := [];
        return None;
      }
      b := Some(rest[..n]);
      rest := rest[n + 2..];
    }

    /** One reply: tag byte, then whatever the tag calls for; arrays recurse. */
    method TakeResp() returns (v: Option<Resp>)
      modifies this
      ensures match ReadResp(old(rest))
              case Failed => v == None
              case Got(x, more) => v == Some(x) && rest == more
      decreases |rest|, 0
    {
      if rest == [] {
        return None;
      }
      var tag := rest[0];
      rest := rest[1..];
      if tag == PLUS || tag == MINUS {
        var t := TakeLine();
        v := if t.None? then None else Some(if tag == PLUS then Simple(t.value) else Err(t.value));
      } else if tag == COLON {
        var n := TakeNumber(0);
        v := if n.None? then None else Some(Int(n.value));
      } else if tag == DOLLAR {
        var n := TakeNumber(-1);
        if n.None? || n.value < 0 {
          v := if n.None? then None else Some(Bulk(None));
        } else {
          var b := TakeBody(n.value);
          v := if b.None? then None else Some(Bulk(b));
        }
      } else if tag == STAR {
        var n := TakeNumber(0);
        if n.None? {
          return None;
        }
        var items := TakeMany(n.value);
        v := if items.None? then None else Some(Arr(items.value));
      } else {
        v := None;
      }
    }

    /** The next of `left` replies; `ahead` is what the others will be. */
    method TakeOne(ghost left: int) returns (v: Option<Resp>, ghost ahead: Read<seq<Resp>>)
      requires left > 0
      modifies this
      ensures v.None? ==> ReadMany(old(rest), left).Failed?
      ensures v.Some? ==> |rest| < |old(rest)| && ahead == ReadMany(rest, left - 1) &&
                          ReadMany(old(rest), left) == Before(v.value, ahead)
      decreases |rest|, 1
    {
      v := TakeResp();
      ahead := if v.Some? then ReadMany(rest, left - 1) else Failed;
    }

    /** The next `n` replies, in order; an error ends the reading. */
    method TakeMany(n: int) returns (vs: Option<seq<Resp>>)
      modifies this
      ensures match ReadMany(old(rest), n)
              case Failed => vs == None
              case Got(x, more) => vs == Some(x) && rest == more
      decreases |rest|, 2
    {
      var items, left := [], n;
      ghost var start, whole := rest, ReadMany(rest, n);
      ghost var ahead := whole;
      AfterNone(whole);
      while left > 0
        invariant |rest| <= |start| && whole == After(items, ahead) && ahead == ReadMany(rest, left)
        decreases left
      {
        var v;
        v, ahead := TakeOne(left);
        if v.None? {
          return None;
        }
        AfterBefore(items, v.value, ahead);
        items, left := items + [v.value], left - 1;
      }
      AllRead(items, rest, left);
      vs := Some(items);
    }
  }

  lemma AllRead(vs: seq<Resp>, s: bytes, n: int)
    requires n <= 0
    ensures After(vs, ReadMany(s, n)) == Got(vs, s)
  {
    assert vs + [] == vs;
  }

  function After(vs: seq<Resp>, r: Read<seq<Resp>>): Read<seq<Resp>> {
    match r case Failed => Failed case Got(more, rest) => Got(vs + more, rest)
  }

  lemma AfterNone(r: Read<seq<Resp>>)
    ensures After([], r) == r
  {
    assert r.Got? ==> [] + r.value == r.value;
  }

  lemma AfterBefore(vs: seq<Resp>, v: Resp, r: Read<seq<Resp>>)
    ensures After(vs, Before(v, r)) == After(vs + [v], r)
  {
    if r.Got? {
      assert vs + ([v] + r.value) == vs + [v] + r.value;
    }
  }

  // ---- commands ----

  function BulkOf(a: bytes): Resp {
    Bulk(Some(a))
  }

  function Bulks(args: seq<bytes>): seq<Resp> {
    if args == [] then [] else [BulkOf(args[0])] + Bulks(args[1..])
  }

  /** A command is an array of bulk strings. */
  method WriteCmd(out: bytes, args: seq<bytes>) returns (r: bytes)
    ensures r == out + Encode(Arr(Bulks(args)))
  {
    r := out + [STAR] + Decimal(|args|) + CRLF;
    HeaderWritten(out, args);
    for k := 0 to |args|
      invariant r + EncodeAll(Bulks(args[k..])) == out + Encode(Arr(Bulks(args)))
    {
      ArgWritten(r, args, k);
      r := r + [DOLLAR] + Decimal(|args[k]|) + CRLF + args[k] + CRLF;
    }
    assert r + EncodeAll(Bulks([])) == r;
  }

  lemma HeaderWritten(out: bytes, args: seq<bytes>)
    ensures (out + [STAR] + Decimal(|args|) + CRLF) + EncodeAll(Bulks(args[0..])) == out + Encode(Arr(Bulks(args)))
  {
    BulksLength(args);
    assert args[0..] == args;
    Header(out, Decimal(|args|), Bulks(args), EncodeAll(Bulks(args)));
  }

  lemma Header(out: bytes, d: bytes, items: seq<Resp>, all: bytes)
    requires d == Decimal(|items|) && all == EncodeAll(items)
    ensures (out + [STAR] + d + CRLF) + all == out + Encode(Arr(items))
  {
    assert Encode(Arr(items)) == [STAR] + d + CRLF + all;
    Prepended(out, [STAR], d, CRLF, all);
  }

  lemma Prepended(out: bytes, a: bytes, b: bytes, c: bytes, d: bytes)
    ensures (out + a + b + c) + d == out + (a + b + c + d)
  {
  }

  lemma ArgWritten(r: bytes, args: seq<bytes>, k: nat)
    requires k < |args|
    ensures (r + [DOLLAR] + Decimal(|args[k]|) + CRLF + args[k] + CRLF) + EncodeAll(Bulks(args[k + 1..])) ==
            r + EncodeAll(Bulks(args[k..]))
  {
    var a, d := args[k], Decimal(|args[k]|);
    assert args[k..][1..] == args[k + 1..] && args[k..][0] == a;
    BulksNext(args[k..]);
    assert r + [DOLLAR] + d + CRLF + a + CRLF == r + Encode(BulkOf(a));
    Regroup(r, Encode(BulkOf(a)), EncodeAll(Bulks(args[k + 1..])));
  }

  lemma {:induction false} BulksLength(args: seq<bytes>)
    ensures |Bulks(args)| == |args|
  {
    if args != [] {
      BulksLength(args[1..]);
    }
  }

  lemma BulksNext(args: seq<bytes>)
    requires args != []
    ensures EncodeAll(Bulks(args)) == Encode(BulkOf(args[0])) + EncodeAll(Bulks(args[1..]))
  {
    assert Bulks(args)[1..] == Bulks(args[1..]);
  }

  /** Every command with 64-bit lengths parses back as itself on the server's side. */
  lemma CommandRoundTrip(args: seq<bytes>, tail: bytes)
    requires |args| <= I64_MAX && forall k :: 0 <= k < |args| ==> |args[k]| <= I64_MAX
    ensures ReadResp(Encode(Arr(Bulks(args))) + tail) == Got(Arr(Bulks(args)), tail)
  {
    BulksLength(args);
    BulksCanonical(args);
    RoundTrip(Arr(Bulks(args)), tail);
  }

  lemma {:induction false} BulksCanonical(args: seq<bytes>)
    requires forall k :: 0 <= k < |args| ==> |args[k]| <= I64_MAX
    ensures AllCanonical(Bulks(args))
  {
    if args != [] {
      BulksCanonical(args[1..]);
      assert Bulks(args)[1..] == Bulks(args[1..]);
    }
  }
}
