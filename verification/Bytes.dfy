/** Byte strings, and the UTF-8 rules the Rust standard library applies to them. */
module Bytes {
  type byte = b: int | 0 <= b < 256
  type bytes = seq<byte>

  datatype Option<+T> = None | Some(value: T)

  const NL: byte := 10
  const CR: byte := 13
  const QUOTE: byte := 34
  const PLUS: byte := 43
  const COMMA: byte := 44
  const MINUS: byte := 45
  const COLON: byte := 58
  const BACKSLASH: byte := 92
  const LBRACE: byte := 123
  const BAR: byte := 124
  const RBRACE: byte := 125

  /** The bytes of a text in ASCII. */
  function Ascii(s: string): (b: bytes)
    requires forall k :: 0 <= k < |s| ==> s[k] as int < 128
    ensures |b| == |s| && forall k :: 0 <= k < |s| ==> b[k] == s[k] as int
  {
    seq(|s|, k requires 0 <= k < |s| => s[k] as int)
  }

  const I64_MIN: int := -0x8000_0000_0000_0000
  const I64_MAX: int := 0x7fff_ffff_ffff_ffff

  predicate IsI64(n: int) {
    I64_MIN <= n <= I64_MAX
  }

  /** Position of the first `c` in `s`, or `|s|` when there is none. */
  function IndexOf(s: bytes, c: byte): (k: nat)
    ensures k <= |s|
  {
    if s == [] || s[0] == c then 0 else 1 + IndexOf(s[1..], c)
  }

  lemma {:induction false} IndexOfAt(p: bytes, c: byte, t: bytes)
    requires c !in p
    ensures IndexOf(p + [c] + t, c) == |p|
  {
    var s := p + [c] + t;
    if p != [] {
      assert s[1..] == p[1..] + [c] + t;
      IndexOfAt(p[1..], c, t);
    }
  }

  lemma {:induction false} NoIndex(s: bytes, c: byte)
    requires c !in s
    ensures IndexOf(s, c) == |s|
  {
    if s != [] {
      NoIndex(s[1..], c);
    }
  }

  lemma Regroup(a: bytes, b: bytes, c: bytes)
    ensures (a + b) + c == a + (b + c)
  {
  }

  lemma DropDrop(s: bytes, a: nat, b: nat)
    requires a + b <= |s|
    ensures s[a..][b..] == s[a + b..]
  {
  }

  // ---- UTF-8 ----

  predicate Cont(s: bytes, i: nat) {
    i < |s| && 0x80 <= s[i] < 0xC0
  }

  predicate SecondOk(s: bytes) {
    |s| >= 2 && match s[0]
    case 0xE0 => 0xA0 <= s[1] <= 0xBF
    case 0xED => 0x80 <= s[1] <= 0x9F
    case 0xF0 => 0x90 <= s[1] <= 0xBF
    case 0xF4 => 0x80 <= s[1] <= 0x8F
    case _ => 0x80 <= s[1] <= 0xBF
  }

  /** One step of the standard decoder: is the head of `s` a well-formed scalar,
      and how many bytes does it (or the maximal ill-formed part) take. */
  function Utf8Step(s: bytes): (r: (bool, nat))
    requires s != []
    ensures 1 <= r.1 <= |s|
  {
    var b := s[0];
    if b < 0x80 then (true, 1)
    else if 0xC2 <= b <= 0xDF then (if Cont(s, 1) then (true, 2) else (false, 1))
    else if 0xE0 <= b <= 0xEF then
      if !SecondOk(s) then (false, 1)
      else if Cont(s, 2) then (true, 3) else (false, 2)
    else if 0xF0 <= b <= 0xF4 then
      if !SecondOk(s) then (false, 1)
      else if !Cont(s, 2) then (false, 2)
      else if Cont(s, 3) then (true, 4) else (false, 3)
    else (false, 1)
  }

  predicate ValidUtf8(s: bytes) {
    s == [] || (Utf8Step(s).0 && ValidUtf8(s[Utf8Step(s).1..]))
  }

  const REPLACEMENT: bytes := [0xEF, 0xBF, 0xBD]

  /** String::from_utf8_lossy: ill-formed parts become U+FFFD. */
  function Lossy(s: bytes): (r: bytes)
    ensures ValidUtf8(s) ==> r == s
  {
    if s == [] then []
    else
      var (ok, n) := Utf8Step(s);
      (if ok then s[..n] else REPLACEMENT) + Lossy(s[n..])
  }

  predicate AllAscii(s: bytes) {
    forall i :: 0 <= i < |s| ==> s[i] < 0x80
  }

  lemma {:induction false} AsciiIsUtf8(s: bytes)
    requires AllAscii(s)
    ensures ValidUtf8(s)
  {
    if s != [] {
      AsciiIsUtf8(s[1..]);
    }
  }

  /** UTF-8 encoding of a scalar value of the basic multilingual plane. */
  function EncodeScalar(v: int): (r: bytes)
    requires 0 <= v < 0x10000 && !(0xD800 <= v < 0xE000)
    ensures ValidUtf8(r)
  {
    if v < 0x80 then [v]
    else if v < 0x800 then [0xC0 + v / 64, 0x80 + v % 64]
    else
      var r := [0xE0 + v / 4096, 0x80 + v / 64 % 64, 0x80 + v % 64];
      assert Utf8Step(r) == (true, 3);
      assert r[3..] == [];
      r
  }

  // ---- str::trim ----

  /** White_Space characters as byte sequences: the length of one at the head of `s`, or 0. */
  function SpaceLen(s: bytes): (n: nat)
    ensures n <= |s|
  {
    if s == [] then 0
    else if s[0] < 0x80 then (if 9 <= s[0] <= 13 || s[0] == 32 then 1 else 0)
    else if |s| >= 2 && s[0] == 0xC2 && (s[1] == 0x85 || s[1] == 0xA0) then 2
    else if |s| >= 3 && s[0] == 0xE1 && s[1] == 0x9A && s[2] == 0x80 then 3
    else if |s| >= 3 && s[0] == 0xE2 && s[1] == 0x80 &&
      (0x80 <= s[2] <= 0x8A || s[2] == 0xA8 || s[2] == 0xA9 || s[2] == 0xAF) then 3
    else if |s| >= 3 && s[0] == 0xE2 && s[1] == 0x81 && s[2] == 0x9F then 3
    else if |s| >= 3 && s[0] == 0xE3 && s[1] == 0x80 && s[2] == 0x80 then 3
    else 0
  }

  function TrimStart(s: bytes): (r: bytes) {
    if SpaceLen(s) == 0 then s else TrimStart(s[SpaceLen(s)..])
  }

  /** Does `s` end in a White_Space character of exactly `n` bytes? */
  predicate EndsInSpace(s: bytes, n: nat) {
    1 <= n <= |s| && SpaceLen(s[|s| - n..]) == n
  }

  function TrimEnd(s: bytes): (r: bytes)
    ensures |r| <= |s|
  {
    if EndsInSpace(s, 1) then TrimEnd(s[..|s| - 1])
    else if EndsInSpace(s, 2) then TrimEnd(s[..|s| - 2])
    else if EndsInSpace(s, 3) then TrimEnd(s[..|s| - 3])
    else s
  }

  function Trim(s: bytes): bytes {
    TrimEnd(TrimStart(s))
  }

  // ---- decimal integers ----

  predicate IsDigit(b: byte) {
    48 <= b <= 57
  }

  function NatDigits(n: nat): (r: bytes)
    ensures |r| >= 1 && forall i :: 0 <= i < |r| ==> IsDigit(r[i])
  {
    if n < 10 then [48 + n] else NatDigits(n / 10) + [48 + n % 10]
  }

  function Decimal(n: int): bytes {
    if n < 0 then [MINUS] + NatDigits(-n) else NatDigits(n)
  }

  function DigitsValue(s: bytes): nat
    requires forall i :: 0 <= i < |s| ==> IsDigit(s[i])
  {
    if s == [] then 0 else assert IsDigit(s[|s| - 1]); 10 * DigitsValue(s[..|s| - 1]) + (s[|s| - 1] as int - 48)
  }

  predicate AllDigits(s: bytes) {
    forall i :: 0 <= i < |s| ==> IsDigit(s[i])
  }

  function Unsigned(s: bytes): bytes {
    if s != [] && (s[0] == PLUS || s[0] == MINUS) then s[1..] else s
  }

  /** str::parse::<i64>: an optional sign, at least one digit, nothing else, no overflow. */
  function ParseI64(s: bytes): (r: Option<int>)
    ensures r.Some? ==> IsI64(r.value)
  {
    var body := Unsigned(s);
    if body == [] || !AllDigits(body) then None
    else
      var v: int := if s[0] == MINUS then -(DigitsValue(body) as int) else DigitsValue(body);
      if IsI64(v) then Some(v) else None
  }

  lemma {:induction false} DigitsRoundTrip(n: nat)
    ensures DigitsValue(NatDigits(n)) == n
  {
    if n >= 10 {
      DigitsRoundTrip(n / 10);
      assert NatDigits(n)[..|NatDigits(n)| - 1] == NatDigits(n / 10);
    }
  }

  /** Printing an i64 in decimal and parsing it back gives the same i64. */
  lemma DecimalRoundTrip(n: int)
    requires IsI64(n)
    ensures ParseI64(Decimal(n)) == Some(n)
  {
    if n < 0 {
      DigitsRoundTrip(-n);
      assert Decimal(n)[1..] == NatDigits(-n);
    } else {
      DigitsRoundTrip(n);
    }
  }

  function Pow10(k: nat): (p: nat)
    ensures p >= 1
  {
    if k == 0 then 1 else 10 * Pow10(k - 1)
  }

  lemma DivideTwice(a: nat, p: nat)
    requires p >= 1
    ensures a / 10 / p == a / (10 * p)
  {
    var q, x := a / 10, a / 10 / p;
    var y := q - p * x;
    assert 0 <= y < p && a == 10 * (p * x + y) + a % 10;
    assert a == (10 * p) * x + (10 * y + a % 10) && 10 * y + a % 10 < 10 * p;
    Quotient(a, 10 * p, x, 10 * y + a % 10);
  }

  lemma {:induction false} AtLeastOnce(d: nat, y: nat)
    requires y >= 1
    ensures d * y >= d
  {
    if y > 1 {
      AtLeastOnce(d, y - 1);
      assert d * y == d * (y - 1) + d;
    }
  }

  lemma Unequal(d: nat, x: nat, r: nat, z: nat, q: nat)
    requires r < d && q < d && x < z
    ensures d * x + r < d * z + q
  {
    AtLeastOnce(d, z - x);
    assert d * z == d * x + d * (z - x);
  }

  lemma Quotient(a: nat, d: nat, x: nat, r: nat)
    requires r < d && a == d * x + r
    ensures a / d == x
  {
    var z, q := a / d, a % d;
    assert a == d * z + q;
    if z < x {
      Unequal(d, z, q, x, r);
    } else if x < z {
      Unequal(d, x, r, z, q);
    }
  }

  /** The first digits of a number are the number divided by a power of ten. */
  lemma {:induction false} LeadingDigits(n: nat, j: nat)
    requires j <= |NatDigits(n)|
    ensures DigitsValue(NatDigits(n)[..j]) == n / Pow10(|NatDigits(n)| - j)
  {
    var d := NatDigits(n);
    if j == |d| {
      assert d[..j] == d;
      DigitsRoundTrip(n);
    } else if n >= 10 {
      LeadingDigits(n / 10, j);
      assert d[..j] == NatDigits(n / 10)[..j];
      DivideTwice(n, Pow10(|d| - 1 - j));
    }
  }

  /** Text that ends in a visible ASCII byte after ASCII text ends in no space. */
  lemma NoSpaceAtEnd(d: bytes, n: nat)
    requires d != [] && AllAscii(d) && d[|d| - 1] > 32 && 1 <= n <= 3
    ensures !EndsInSpace(d, n)
  {
    if n <= |d| {
      var t := d[|d| - n..];
      assert t[0] == d[|d| - n] && |t| == n;
      assert SpaceLen(t) <= 1;
    }
  }

  lemma TrimEndKeeps(d: bytes)
    requires d != [] && AllAscii(d) && d[|d| - 1] > 32
    ensures TrimEnd(d) == d
  {
    NoSpaceAtEnd(d, 1);
    NoSpaceAtEnd(d, 2);
    NoSpaceAtEnd(d, 3);
  }

  /** ASCII text that neither starts nor ends in a space is left alone by trim. */
  lemma TrimKeeps(d: bytes)
    requires d != [] && AllAscii(d)
    requires d[0] > 32 && d[|d| - 1] > 32
    ensures Trim(d) == d
  {
    assert SpaceLen(d) == 0;
    TrimEndKeeps(d);
  }

  lemma DecimalBytes(n: int)
    ensures |Decimal(n)| >= 1
    ensures forall i :: 0 <= i < |Decimal(n)| ==> Decimal(n)[i] == MINUS || IsDigit(Decimal(n)[i])
  {
  }

  /** A decimal number is plain ASCII that trim leaves alone. */
  lemma DecimalIsPlain(n: int)
    ensures AllAscii(Decimal(n)) && ValidUtf8(Decimal(n)) && Trim(Decimal(n)) == Decimal(n)
  {
    DecimalBytes(n);
    AsciiIsUtf8(Decimal(n));
    TrimKeeps(Decimal(n));
  }
}
