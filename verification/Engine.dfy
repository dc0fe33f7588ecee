/** The in-memory index and the fold that rebuilds it from log lines. */
module Engine {
  import opened Bytes
  import opened Codec
  import opened Times

  type Code = bytes

  /** url, created, expiry (0 = never), owning instance, all hits, own hits. */
  datatype Entry = Entry(u: bytes, a: int, e: int, i: int, h: int, oh: int)

  /** Hits seen before their row: all of them, and those this instance logged. */
  datatype Stray = Stray(t: int, o: int)

  datatype Mem = Mem(index: map<Code, Entry>, stray: map<Code, Stray>)

  const EMPTY_MEM: Mem := Mem(map[], map[])

  const MAX_STRAY_HITS: int := 10_000

  /** `x as i32` on a 64-bit value. */
  function AsI32(x: int): int {
    (x + 0x8000_0000) % 0x1_0000_0000 - 0x8000_0000
  }

  /** The stray map with one entry dropped when it is full; which one is the hash map's choice. */
  function MakeRoom(stray: map<Code, Stray>, victim: Code): map<Code, Stray> {
    if |stray| >= MAX_STRAY_HITS then stray - {victim} else stray
  }

  function StrayOf(m: Mem, c: Code): Stray {
    if c in m.stray then m.stray[c] else Stray(0, 0)
  }

  /** Fold one parsed line into the memory of instance `me`. */
  function Apply(m: Mem, me: int, op: LogOp, victim: Code): Mem {
    match op
    case Del(x) => Mem(m.index - {x}, m.stray - {x})
    case Hit(c, d, i) =>
      var own := if me == i then d else 0;
      if c in m.index then
        var en := m.index[c];
        m.(index := m.index[c := en.(h := en.h + d, oh := en.oh + own)])
      else
        var room := MakeRoom(m.stray, victim);
        var st := if c in room then room[c] else Stray(0, 0);
        m.(stray := room[c := Stray(st.t + d, st.o + own)])
    case Row(c, u, a, e, i, n) =>
      var st := StrayOf(m, c);
      Mem(m.index[c := Entry(u, a, e, AsI32(i), n + st.t, n + st.o)], m.stray - {c})
  }

  /** Folding a whole log; `victims[k]` is what the k-th line evicts if it must. */
  function Fold(m: Mem, me: int, ops: seq<LogOp>, victims: seq<Code>): Mem
    requires |victims| == |ops|
  {
    if ops == [] then m
    else
      var k := |ops| - 1;
      Apply(Fold(m, me, ops[..k], victims[..k]), me, ops[k], victims[k])
  }

  /** Only a hit of an unknown code can drop another code's waiting hits, and only when 10,000 codes
      have hits waiting. */
  lemma StrayKept(m: Mem, me: int, op: LogOp, victim: Code, c: Code)
    requires c in m.stray && c != op.Code()
    ensures (c !in Apply(m, me, op, victim).stray) ==
            (op.Hit? && op.h !in m.index && |m.stray| >= 10_000 && c == victim)
    ensures c in Apply(m, me, op, victim).stray ==> Apply(m, me, op, victim).stray[c] == m.stray[c]
  {
  }

  // ---- one code's view of the memory ----

  datatype LinkRow = LinkRow(u: bytes, a: int, e: int, i: int)

  /** What an instance knows of one code: its row if it has one, and its hit counts, which
      wait in the stray map while the row is missing. */
  datatype View = View(row: Option<LinkRow>, h: int, oh: int)

  const NO_VIEW: View := View(None, 0, 0)

  function ViewOf(m: Mem, c: Code): View {
    if c in m.index then
      var en := m.index[c];
      View(Some(LinkRow(en.u, en.a, en.e, en.i)), en.h, en.oh)
    else View(None, StrayOf(m, c).t, StrayOf(m, c).o)
  }

  /** The effect of one line on one code. */
  function Step(v: View, me: int, op: LogOp, c: Code): View {
    if op.Code() != c then v
    else
      match op
      case Del(_) => NO_VIEW
      case Hit(_, d, i) => v.(h := v.h + d, oh := v.oh + if me == i then d else 0)
      case Row(_, u, a, e, i, n) =>
        var waiting := if v.row.None? then v else NO_VIEW;
        View(Some(LinkRow(u, a, e, AsI32(i))), n + waiting.h, n + waiting.oh)
  }

  function FoldView(v: View, me: int, ops: seq<LogOp>, c: Code): View {
    if ops == [] then v else Step(FoldView(v, me, ops[..|ops| - 1], c), me, ops[|ops| - 1], c)
  }

  /** A code with a row has no waiting hits. */
  predicate Tidy(m: Mem, c: Code) {
    c in m.index ==> StrayOf(m, c) == Stray(0, 0)
  }

  /** Does folding `op` evict the waiting hits of `c`? */
  predicate Evicts(m: Mem, op: LogOp, victim: Code, c: Code) {
    op.Hit? && op.h !in m.index && |m.stray| >= MAX_STRAY_HITS && victim == c
  }

  /** Folding a line into the whole memory acts on each code alone, unless that code's waiting
      hits are the ones evicted. */
  lemma ApplyView(m: Mem, me: int, op: LogOp, victim: Code, c: Code)
    requires Tidy(m, c) && !Evicts(m, op, victim, c)
    ensures Tidy(Apply(m, me, op, victim), c)
    ensures ViewOf(Apply(m, me, op, victim), c) == Step(ViewOf(m, c), me, op, c)
  {
  }

  lemma ApplyRow(m: Mem, me: int, op: LogOp, victim: Code, c: Code)
    ensures ViewOf(Apply(m, me, op, victim), c).row == RowStep(ViewOf(m, c).row, op, c)
  {
  }

  lemma {:induction false} FoldViews(m: Mem, me: int, ops: seq<LogOp>, victims: seq<Code>, c: Code)
    requires |victims| == |ops| && Tidy(m, c) && c !in victims
    ensures Tidy(Fold(m, me, ops, victims), c)
    ensures ViewOf(Fold(m, me, ops, victims), c) == FoldView(ViewOf(m, c), me, ops, c)
  {
    if ops != [] {
      var k := |ops| - 1;
      FoldViews(m, me, ops[..k], victims[..k], c);
      ApplyView(Fold(m, me, ops[..k], victims[..k]), me, ops[k], victims[k], c);
    }
  }

  lemma {:induction false} FoldViewAppend(v: View, me: int, a: seq<LogOp>, b: seq<LogOp>, c: Code)
    ensures FoldView(v, me, a + b, c) == FoldView(FoldView(v, me, a, c), me, b, c)
  {
    if b == [] {
      assert a + b == a;
    } else {
      FoldViewAppend(v, me, a, b[..|b| - 1], c);
      assert (a + b)[..|a + b| - 1] == a + b[..|b| - 1];
    }
  }

  lemma FoldViewOne(v: View, me: int, ops: seq<LogOp>, op: LogOp, c: Code)
    ensures FoldView(v, me, ops + [op], c) == Step(FoldView(v, me, ops, c), me, op, c)
  {
    assert (ops + [op])[..|ops|] == ops;
  }

  // ---- rows only ----

  function RowStep(r: Option<LinkRow>, op: LogOp, c: Code): Option<LinkRow> {
    if op.Code() != c then r
    else
      match op
      case Del(_) => None
      case Hit(_, _, _) => r
      case Row(_, u, a, e, i, _) => Some(LinkRow(u, a, e, AsI32(i)))
  }

  /** The row a log leaves behind for one code. */
  function RowFold(r: Option<LinkRow>, ops: seq<LogOp>, c: Code): Option<LinkRow> {
    if ops == [] then r else RowStep(RowFold(r, ops[..|ops| - 1], c), ops[|ops| - 1], c)
  }

  lemma {:induction false} FoldViewRow(v: View, me: int, ops: seq<LogOp>, c: Code)
    ensures FoldView(v, me, ops, c).row == RowFold(v.row, ops, c)
  {
    if ops != [] {
      FoldViewRow(v, me, ops[..|ops| - 1], c);
    }
  }

  lemma {:induction false} FoldRow(m: Mem, me: int, ops: seq<LogOp>, victims: seq<Code>, c: Code)
    requires |victims| == |ops|
    ensures ViewOf(Fold(m, me, ops, victims), c).row == RowFold(ViewOf(m, c).row, ops, c)
  {
    if ops != [] {
      var p := |ops| - 1;
      FoldRow(m, me, ops[..p], victims[..p], c);
      ApplyRow(Fold(m, me, ops[..p], victims[..p]), me, ops[p], victims[p], c);
    }
  }

  lemma {:induction false} RowFoldAppend(r: Option<LinkRow>, a: seq<LogOp>, b: seq<LogOp>, c: Code)
    ensures RowFold(r, a + b, c) == RowFold(RowFold(r, a, c), b, c)
  {
    if b == [] {
      assert a + b == a;
    } else {
      RowFoldAppend(r, a, b[..|b| - 1], c);
      assert (a + b)[..|a + b| - 1] == a + b[..|b| - 1];
    }
  }

  lemma RowFoldOne(r: Option<LinkRow>, ops: seq<LogOp>, op: LogOp, c: Code)
    ensures RowFold(r, ops + [op], c) == RowStep(RowFold(r, ops, c), op, c)
  {
    assert (ops + [op])[..|ops|] == ops;
  }

  /** Re-folding a log over its own result changes no row. */
  lemma {:induction false} RowFoldIdempotent(r: Option<LinkRow>, ops: seq<LogOp>, c: Code)
    ensures RowFold(RowFold(r, ops, c), ops, c) == RowFold(r, ops, c)
  {
    RowFoldForgets(r, RowFold(r, ops, c), ops, c);
  }

  /** Either the log says nothing about the row, or it says everything. */
  lemma {:induction false} RowFoldForgets(r: Option<LinkRow>, r': Option<LinkRow>, ops: seq<LogOp>, c: Code)
    ensures (RowFold(r, ops, c) == r && RowFold(r', ops, c) == r') || RowFold(r, ops, c) == RowFold(r', ops, c)
  {
    if ops != [] {
      RowFoldForgets(r, r', ops[..|ops| - 1], c);
    }
  }

  /** The log says nothing about the row of `c`. */
  predicate Silent(ops: seq<LogOp>, c: Code) {
    forall p :: 0 <= p < |ops| && ops[p].Code() == c ==> ops[p].Hit?
  }

  lemma {:induction false} SilentRow(row: Option<LinkRow>, ops: seq<LogOp>, k: Code)
    requires Silent(ops, k)
    ensures RowFold(row, ops, k) == row
  {
    if ops != [] {
      SilentRow(row, ops[..|ops| - 1], k);
    }
  }

  // ---- hits only ----

  /** Total of the hit deltas a log holds for one code. */
  function HitSum(ops: seq<LogOp>, c: Code): int {
    if ops == [] then 0
    else HitSum(ops[..|ops| - 1], c) + HitOf(ops[|ops| - 1], c)
  }

  function HitOf(op: LogOp, c: Code): int {
    if op.Hit? && op.h == c then op.d else 0
  }

  lemma {:induction false} HitSumAppend(a: seq<LogOp>, b: seq<LogOp>, c: Code)
    ensures HitSum(a + b, c) == HitSum(a, c) + HitSum(b, c)
  {
    if b == [] {
      assert a + b == a;
    } else {
      HitSumAppend(a, b[..|b| - 1], c);
      assert (a + b)[..|a + b| - 1] == a + b[..|b| - 1];
    }
  }

  lemma HitSumOne(ops: seq<LogOp>, op: LogOp, c: Code)
    ensures HitSum(ops + [op], c) == HitSum(ops, c) + HitOf(op, c)
  {
    assert (ops + [op])[..|ops|] == ops;
  }

  // ---- which kinds of records of a code a log holds ----

  function RowCount(ops: seq<LogOp>, k: Code): nat {
    if ops == [] then 0
    else RowCount(ops[..|ops| - 1], k) + (if ops[|ops| - 1].Row? && ops[|ops| - 1].c == k then 1 else 0)
  }

  predicate NoHits(ops: seq<LogOp>, k: Code) {
    forall p :: 0 <= p < |ops| && ops[p].Hit? ==> ops[p].h != k
  }

  predicate NoDels(ops: seq<LogOp>, k: Code) {
    forall p :: 0 <= p < |ops| && ops[p].Del? ==> ops[p].x != k
  }

  lemma {:induction false} RowCountAppend(a: seq<LogOp>, b: seq<LogOp>, k: Code)
    ensures RowCount(a + b, k) == RowCount(a, k) + RowCount(b, k)
  {
    if b == [] {
      assert a + b == a;
    } else {
      RowCountAppend(a, b[..|b| - 1], k);
      assert (a + b)[..|a + b| - 1] == a + b[..|b| - 1];
    }
  }

  lemma RowCountOne(ops: seq<LogOp>, op: LogOp, k: Code)
    ensures RowCount(ops + [op], k) == RowCount(ops, k) + (if op.Row? && op.c == k then 1 else 0)
  {
    assert (ops + [op])[..|ops|] == ops;
  }

  lemma {:induction false} RowCountFold(ops: seq<LogOp>, k: Code)
    requires NoDels(ops, k)
    ensures RowCount(ops, k) == 0 <==> RowFold(None, ops, k).None?
  {
    if ops != [] {
      RowCountFold(ops[..|ops| - 1], k);
    }
  }

  lemma {:induction false} NoHitsSum(ops: seq<LogOp>, k: Code)
    requires NoHits(ops, k)
    ensures HitSum(ops, k) == 0
  {
    if ops != [] {
      NoHitsSum(ops[..|ops| - 1], k);
    }
  }

  lemma RowCountPrefix(ops: seq<LogOp>, p: nat, k: Code)
    requires p <= |ops|
    ensures RowCount(ops[..p], k) <= RowCount(ops, k)
  {
    RowCountAppend(ops[..p], ops[p..], k);
    assert ops[..p] + ops[p..] == ops;
  }

  // ---- the store's operations on memory ----

  predicate Unexpired(en: Entry, now: int) {
    en.e == 0 || en.e > now
  }

  /** A new link owned by `me`, hit counters at zero. */
  function Mint(m: Mem, me: int, c: Code, u: bytes, now: int, ttl: int): Mem {
    m.(index := m.index[c := Entry(u, now, ExpiryAt(now, ttl), me, 0, 0)])
  }

  function MintOp(me: int, c: Code, u: bytes, now: int, ttl: int): LogOp {
    Row(c, u, now, ExpiryAt(now, ttl), me, 0)
  }

  function CountHit(m: Mem, c: Code): Mem
    requires c in m.index
  {
    var en := m.index[c];
    m.(index := m.index[c := en.(h := en.h + 1, oh := en.oh + 1)])
  }

  datatype MutResult = Done | Missing | Remote

  /** The owner rule update and remove share. */
  function MayMutate(m: Mem, me: int, c: Code): MutResult {
    if c !in m.index then Missing else if m.index[c].i != me then Remote else Done
  }

  function Updated(m: Mem, c: Code, u: bytes, now: int, ttl: int, hasTtl: bool): Mem
    requires c in m.index
  {
    var en := m.index[c];
    m.(index := m.index[c := en.(u := u, e := NewExpiry(en.e, now, ttl, hasTtl))])
  }

  /** The row an update logs: hit count zero, whatever was counted before. */
  function UpdateOp(m: Mem, me: int, c: Code, u: bytes, now: int, ttl: int, hasTtl: bool): LogOp
    requires c in m.index
  {
    var en := m.index[c];
    Row(c, u, en.a, NewExpiry(en.e, now, ttl, hasTtl), me, 0)
  }

  function Removed(m: Mem, c: Code): Mem {
    m.(index := m.index - {c})
  }

  /** The row a snapshot keeps: its count is the own count. */
  function SnapshotRow(c: Code, en: Entry): LogOp {
    Row(c, en.u, en.a, en.e, en.i, en.oh)
  }

  /** What a lookup at `now` answers from memory. */
  function Served(m: Mem, c: Code, now: int): Option<bytes> {
    if c in m.index && Unexpired(m.index[c], now) then Some(m.index[c].u) else None
  }

  // ---- ownership ----

  /** The base-62 alphabet: digits, lower case, upper case. */
  function AlphabetAt(i: int): byte
    requires 0 <= i < 62
  {
    if i < 10 then 48 + i else if i < 36 then 87 + i else 29 + i
  }

  const ALPHABET: bytes := seq(62, i requires 0 <= i < 62 => AlphabetAt(i))

  const MAX_INSTANCES: int := 62

  /** The instance a code's first byte names, or -1. */
  function Owner(c: Code): (i: int)
    ensures -1 <= i < MAX_INSTANCES
  {
    if c == [] then -1
    else
      var b := c[0] as int;
      if 48 <= b <= 57 then b - 48
      else if 97 <= b <= 122 then b - 87
      else if 65 <= b <= 90 then b - 29
      else -1
  }

  method AlphaIdx(c: byte) returns (t: int)
    ensures t == Owner([c])
  {
    t := -1;
    assert Owner([c]) >= 0 ==> ALPHABET[Owner([c])] == c;
    for i := 0 to 62
      invariant t == -1
      invariant forall k :: 0 <= k < i ==> ALPHABET[k] != c
    {
      if ALPHABET[i] == c {
        return i;
      }
    }
  }

  /** The prefix an instance stamps on its codes names exactly that instance. */
  lemma PrefixNamesOwner(i: int)
    requires 0 <= i < MAX_INSTANCES
    ensures Owner([ALPHABET[i]]) == i
  {
  }
}
