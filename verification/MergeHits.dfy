/** The embedded database's merge operator for hit counters: little-endian 64-bit addition, applied
    to whatever groups of operands the database chooses. */
module MergeHits {
  import opened Bytes

  const TWO64: int := 0x1_0000_0000_0000_0000

  function LeValue(b: bytes): nat {
    if b == [] then 0 else b[0] as int + 256 * LeValue(b[1..])
  }

  function Pow256(len: nat): (p: nat)
    ensures p > 0
  {
    if len == 0 then 1 else 256 * Pow256(len - 1)
  }

  /** The `len` lowest bytes of `n`, lowest first. */
  function LeBytes(n: nat, len: nat): (b: bytes)
    ensures |b| == len
  {
    seq(len, i requires 0 <= i < len => n / Pow256(i) % 256)
  }

  lemma DivDiv(n: nat, p: nat)
    requires p > 0
    ensures n / (256 * p) == n / 256 / p
  {
    var q, r := n / 256, n % 256;
    var qq, rr := q / p, q % p;
    assert n == 256 * (qq * p + rr) + r;
    assert n == qq * (256 * p) + (256 * rr + r);
    DivUnique(n, 256 * p, qq, 256 * rr + r);
  }

  lemma LeTail(n: nat, len: nat)
    requires len > 0
    ensures LeBytes(n, len)[0] == n % 256 && LeBytes(n, len)[1..] == LeBytes(n / 256, len - 1)
  {
    assert n / Pow256(0) == n;
    forall i | 0 <= i < len - 1
      ensures LeBytes(n, len)[1..][i] == LeBytes(n / 256, len - 1)[i]
    {
      DivDiv(n, Pow256(i));
    }
  }

  lemma {:induction false} LeRoundTrip(n: nat, len: nat)
    ensures LeValue(LeBytes(n, len)) == n % Pow256(len)
  {
    if len > 0 {
      LeRoundTrip(n / 256, len - 1);
      LeTail(n, len);
      ModSplit(n, Pow256(len - 1));
    }
  }

  lemma ModSplit(n: nat, p: nat)
    requires p > 0
    ensures n % 256 + 256 * (n / 256 % p) == n % (256 * p)
  {
    var q, r := n / 256, n % 256;
    var qq, rr := q / p, q % p;
    assert n == 256 * (qq * p + rr) + r;
    assert n == qq * (256 * p) + (256 * rr + r);
    assert 0 <= 256 * rr + r < 256 * p;
    ModUnique(n, 256 * p, qq, 256 * rr + r);
  }

  lemma ModUnique(n: int, m: int, q: int, r: int)
    requires m > 0 && n == q * m + r && 0 <= r < m
    ensures n % m == r
  {
    DivUnique(n, m, q, r);
    assert n == n / m * m + n % m;
  }

  lemma DivUnique(n: int, m: int, q: int, r: int)
    requires m > 0 && n == q * m + r && 0 <= r < m
    ensures n / m == q
  {
    var d := n / m - q;
    assert d * m == r - n % m by {
      assert n == n / m * m + n % m;
    }
    MultipleIsFar(d, m);
  }

  lemma MultipleIsFar(d: int, m: int)
    requires m > 0
    ensures d >= 1 ==> d * m >= m
    ensures d <= -1 ==> d * m <= -m
  {
  }

  /** Eight bytes hold any value below 2^64. */
  lemma LeExact(n: nat, len: nat)
    requires n < Pow256(len)
    ensures LeValue(LeBytes(n, len)) == n
  {
    LeRoundTrip(n, len);
    ModUnique(n, Pow256(len), 0, n);
  }

  /** An operand's value; operands that are not eight bytes are ignored. */
  function Amount(op: bytes): nat {
    if |op| == 8 then LeValue(op) else 0
  }

  function Existing(e: Option<bytes>): nat {
    match e case None => 0 case Some(b) => Amount(b)
  }

  function Total(ops: seq<bytes>): nat {
    if ops == [] then 0 else Total(ops[..|ops| - 1]) + Amount(ops[|ops| - 1])
  }

  function Le64(n: nat): (b: bytes)
    requires n < TWO64
    ensures |b| == 8
  {
    LeBytes(n, 8)
  }

  lemma Le64Exact(n: nat)
    requires n < TWO64
    ensures Amount(Le64(n)) == n
  {
    Eight();
    LeExact(n, 8);
  }

  /** The operator's contract: the sum, modulo 2^64. */
  function Merge(e: Option<bytes>, ops: seq<bytes>): bytes {
    Le64(Wrapped(Existing(e) + Total(ops)))
  }

  /** u64 arithmetic wraps around. */
  function Wrapped(n: nat): (r: nat)
    ensures r < TWO64
  {
    n % TWO64
  }

  lemma Eight()
    ensures Pow256(8) == TWO64
  {
    assert Pow256(2) == 65536;
    assert Pow256(4) == 0x1_0000_0000;
    assert Pow256(6) == 0x1_0000_0000_0000;
  }

  lemma {:induction false} LeBound(b: bytes)
    ensures LeValue(b) < Pow256(|b|)
  {
    if b != [] {
      LeBound(b[1..]);
    }
  }

  lemma AmountBound(b: bytes)
    ensures Amount(b) < TWO64
  {
    LeBound(b);
    Eight();
  }

  lemma MergeAmount(e: Option<bytes>, ops: seq<bytes>)
    ensures Amount(Merge(e, ops)) == Wrapped(Existing(e) + Total(ops))
  {
    Le64Exact(Wrapped(Existing(e) + Total(ops)));
  }

  /** The loop the operator runs, wrapping at every addition. */
  method MergeLoop(e: Option<bytes>, ops: seq<bytes>) returns (r: bytes)
    ensures r == Merge(e, ops)
  {
    var n: nat := 0;
    if e.Some? && |e.value| == 8 {
      n := LeValue(e.value);
      AmountBound(e.value);
    }
    for k := 0 to |ops|
      invariant n < TWO64 && n == Wrapped(Existing(e) + Total(ops[..k]))
    {
      assert ops[..k + 1][..k] == ops[..k];
      if |ops[k]| == 8 {
        WrapAdd(Existing(e) + Total(ops[..k]), LeValue(ops[k]));
        n := Wrapped(n + LeValue(ops[k]));
      }
    }
    assert ops[..|ops|] == ops;
    r := Le64(n);
  }

  function Turns(q: int): int {
    q * TWO64
  }

  /** Equal modulo 2^64. */
  ghost predicate Same(a: int, b: int) {
    exists q :: a == b + Turns(q)
  }

  lemma SameWraps(a: nat, b: nat)
    requires Same(a, b)
    ensures Wrapped(a) == Wrapped(b)
  {
    var q :| a == b + Turns(q);
    ModUnique(a, TWO64, q + b / TWO64, b % TWO64);
  }

  lemma WrapIsSame(n: nat)
    ensures Same(Wrapped(n), n) && Same(n, n)
  {
    assert Wrapped(n) == n + Turns(-(n / TWO64));
    assert n == n + Turns(0);
  }

  lemma SameAdds(a: int, b: int, c: int, d: int)
    requires Same(a, b) && Same(c, d)
    ensures Same(a + c, b + d)
  {
    var q :| a == b + Turns(q);
    var r :| c == d + Turns(r);
    assert a + c == b + d + Turns(q + r);
  }

  lemma SameVia(a: int, b: int, c: int)
    requires Same(a, b) && Same(b, c)
    ensures Same(a, c)
  {
    var q :| a == b + Turns(q);
    var r :| b == c + Turns(r);
    assert a == c + Turns(q + r);
  }

  lemma WrapAdd(a: nat, b: nat)
    ensures Wrapped(Wrapped(a) + b) == Wrapped(a + b)
  {
    WrapIsSame(a);
    WrapIsSame(b);
    SameAdds(Wrapped(a), a, b, b);
    SameWraps(Wrapped(a) + b, a + b);
  }

  // ---- grouping ----

  /** A way of combining operands: one as written, or a group merged without the stored value. */
  datatype Tree = Leaf(op: bytes) | Group(parts: seq<Tree>)

  function Operand(t: Tree): bytes
    decreases t, 0
  {
    match t
    case Leaf(op) => op
    case Group(parts) => Merge(None, Operands(parts))
  }

  function Operands(ts: seq<Tree>): (r: seq<bytes>)
    decreases ts, 1
  {
    if ts == [] then [] else Operands(ts[..|ts| - 1]) + [Operand(ts[|ts| - 1])]
  }

  /** The operands as they were written. */
  function Leaves(t: Tree): seq<bytes>
    decreases t, 0
  {
    match t
    case Leaf(op) => [op]
    case Group(parts) => AllLeaves(parts)
  }

  function AllLeaves(ts: seq<Tree>): seq<bytes>
    decreases ts, 1
  {
    if ts == [] then [] else AllLeaves(ts[..|ts| - 1]) + Leaves(ts[|ts| - 1])
  }

  lemma {:induction false} TotalAppend(a: seq<bytes>, b: seq<bytes>)
    ensures Total(a + b) == Total(a) + Total(b)
  {
    if b == [] {
      assert a + b == a;
    } else {
      assert (a + b)[..|a + b| - 1] == a + b[..|b| - 1];
      TotalAppend(a, b[..|b| - 1]);
    }
  }

  lemma {:induction false} GroupTotal(t: Tree)
    ensures Same(Amount(Operand(t)), Total(Leaves(t)))
    decreases t, 0
  {
    match t
    case Leaf(op) =>
      assert [op][..0] == [] && Total([op]) == Amount(op);
      WrapIsSame(Amount(op));
    case Group(parts) =>
      GroupsTotal(parts);
      MergeAmount(None, Operands(parts));
      WrapIsSame(Total(Operands(parts)));
      SameVia(Amount(Operand(t)), Total(Operands(parts)), Total(AllLeaves(parts)));
  }

  lemma {:induction false} GroupsTotal(ts: seq<Tree>)
    ensures Same(Total(Operands(ts)), Total(AllLeaves(ts)))
    decreases ts, 1
  {
    if ts == [] {
      WrapIsSame(0);
    } else {
      var k := |ts| - 1;
      GroupsTotal(ts[..k]);
      GroupTotal(ts[k]);
      var ops, op := Operands(ts[..k]), Operand(ts[k]);
      assert (ops + [op])[..|ops|] == ops;
      TotalAppend(AllLeaves(ts[..k]), Leaves(ts[k]));
      SameAdds(Total(ops), Total(AllLeaves(ts[..k])), Amount(op), Total(Leaves(ts[k])));
    }
  }

  /** However the database nests partial merges, the stored counter is the same: the old value plus
      every operand once, modulo 2^64. */
  lemma GroupingIsIrrelevant(e: Option<bytes>, ts: seq<Tree>)
    ensures Merge(e, Operands(ts)) == Merge(e, AllLeaves(ts))
  {
    GroupsTotal(ts);
    MergeOfSame(e, Operands(ts), AllLeaves(ts));
  }

  lemma MergeOfSame(e: Option<bytes>, a: seq<bytes>, b: seq<bytes>)
    requires Same(Total(a), Total(b))
    ensures Merge(e, a) == Merge(e, b)
  {
    AddOn(Existing(e), Total(a), Total(b));
    MergeIs(e, a, Wrapped(Existing(e) + Total(a)));
    MergeIs(e, b, Wrapped(Existing(e) + Total(b)));
  }

  lemma MergeIs(e: Option<bytes>, ops: seq<bytes>, n: nat)
    requires n == Wrapped(Existing(e) + Total(ops))
    ensures Merge(e, ops) == Le64(n)
  {
  }

  lemma AddOn(n: nat, a: nat, b: nat)
    requires Same(a, b)
    ensures Wrapped(n + a) == Wrapped(n + b)
  {
    WrapIsSame(n);
    SameAdds(n, n, a, b);
    SameWraps(n + a, n + b);
  }

  /** Merging in two goes, the first result becoming the stored value, is merging once. */
  lemma MergeInTwo(e: Option<bytes>, a: seq<bytes>, b: seq<bytes>)
    ensures Merge(Some(Merge(e, a)), b) == Merge(e, a + b)
  {
    TotalAppend(a, b);
    var n := Wrapped(Existing(e) + Total(a) + Total(b));
    MergeIs(e, a + b, n);
    MergeOver(Merge(e, a), Existing(e) + Total(a), b) by {
      MergeAmount(e, a);
    }
  }

  lemma MergeOver(m: bytes, x: nat, b: seq<bytes>)
    requires Amount(m) == Wrapped(x)
    ensures Merge(Some(m), b) == Le64(Wrapped(x + Total(b)))
  {
    WrapAdd(x, Total(b));
    MergeIs(Some(m), b, Wrapped(x + Total(b)));
  }

  // ---- one code's counter over a run ----

  datatype Step = Bump | Drain | Write

  /** Unflushed count, counts drained and not yet written, operands written, resolves served. */
  datatype Tally = Tally(dirty: nat, flight: seq<nat>, written: seq<bytes>, served: nat)

  function Do(t: Tally, s: Step): Tally {
    match s
    case Bump => t.(dirty := t.dirty + 1, served := t.served + 1)
    case Drain => if t.dirty == 0 then t else t.(dirty := 0, flight := t.flight + [t.dirty])
    case Write =>
      if t.flight == [] then t
      else t.(flight := t.flight[1..], written := t.written + [Le64(Wrapped(t.flight[0]))])
  }

  function Run(es: seq<Step>): Tally {
    if es == [] then Tally(0, [], [], 0) else Do(Run(es[..|es| - 1]), es[|es| - 1])
  }

  function Under(flight: seq<nat>): nat {
    if flight == [] then 0 else flight[0] + Under(flight[1..])
  }

  lemma {:induction false} UnderAppend(flight: seq<nat>, n: nat)
    ensures Under(flight + [n]) == Under(flight) + n
  {
    if flight == [] {
      assert flight + [n] == [n];
    } else {
      assert (flight + [n])[1..] == flight[1..] + [n];
      UnderAppend(flight[1..], n);
    }
  }

  lemma WrittenAmount(written: seq<bytes>, n: nat)
    ensures Total(written + [Le64(Wrapped(n))]) == Total(written) + Wrapped(n)
  {
    var w := written + [Le64(Wrapped(n))];
    assert w[..|w| - 1] == written;
    Le64Exact(Wrapped(n));
  }

  ghost predicate Balanced(t: Tally) {
    Same(Total(t.written) + Under(t.flight) + t.dirty, t.served)
  }

  lemma BumpBalanced(t: Tally)
    requires Balanced(t)
    ensures Balanced(Do(t, Bump))
  {
    WrapIsSame(1);
    SameAdds(Total(t.written) + Under(t.flight) + t.dirty, t.served, 1, 1);
  }

  lemma WriteBalanced(t: Tally)
    requires Balanced(t) && t.flight != []
    ensures Balanced(Do(t, Write))
  {
    var n := t.flight[0];
    WrittenAmount(t.written, n);
    WrapIsSame(n);
    var rest := Total(t.written) + Under(t.flight[1..]) + t.dirty;
    WrapIsSame(rest);
    SameAdds(rest, rest, Wrapped(n), n);
    SameVia(rest + Wrapped(n), rest + n, t.served);
  }

  lemma StepBalanced(t: Tally, s: Step)
    requires Balanced(t)
    ensures Balanced(Do(t, s))
  {
    match s
    case Bump => BumpBalanced(t);
    case Drain => UnderAppend(t.flight, t.dirty);
    case Write =>
      if t.flight != [] {
        WriteBalanced(t);
      }
  }

  lemma {:induction false} RunBalanced(es: seq<Step>)
    ensures Balanced(Run(es))
  {
    if es == [] {
      WrapIsSame(0);
    } else {
      RunBalanced(es[..|es| - 1]);
      StepBalanced(Run(es[..|es| - 1]), es[|es| - 1]);
    }
  }

  /** Over every run: the merged counter, plus counts under way, plus the unflushed count, is the
      number of resolves, modulo 2^64, whatever way the database groups the merges. */
  lemma CounterConserved(es: seq<Step>)
    ensures var t := Run(es); Same(Amount(Merge(None, t.written)) + (Under(t.flight) + t.dirty), t.served)
  {
    var t := Run(es);
    RunBalanced(es);
    MergedSame(t.written);
    var rest := Under(t.flight) + t.dirty;
    WrapIsSame(rest);
    SameAdds(Amount(Merge(None, t.written)), Total(t.written), rest, rest);
    SameVia(Amount(Merge(None, t.written)) + rest, Total(t.written) + rest, t.served);
  }

  lemma MergedSame(written: seq<bytes>)
    ensures Same(Amount(Merge(None, written)), Total(written))
  {
    MergeAmount(None, written);
    WrapIsSame(Total(written));
  }
}
