/** Own hit counts across compaction: exactly which resolves a compaction counts twice. */
module CompactionHits {
  import opened Bytes
  import opened Codec
  import opened Engine
  import opened Sums
  import opened Compaction

  /** Nothing happened to `k` that the counts are not meant to survive: it was never updated or
      removed, and its waiting hits were never evicted. */
  predicate Clean(r: Trace) {
    !r.touched && !r.evicted
  }

  function OwnCount(me: int, ops: seq<LogOp>, k: Code): int {
    FoldView(NO_VIEW, me, ops, k).oh
  }

  /** The own hit count a reboot recovers once the compaction in progress, if any, is finished. */
  function Durable(s: Store, k: Code): int {
    OwnCount(s.me, if s.phase.Renamed? then s.snap else Stream(s), k)
  }

  // ---- lines on their way to the log ----

  /** Hit lines for `k` by this instance, and nothing else about `k`. */
  predicate OwnHits(lines: seq<LogOp>, me: int, k: Code) {
    forall p :: 0 <= p < |lines| && lines[p].Code() == k ==> lines[p].Hit? && lines[p].node == me
  }

  predicate NoOps(ops: seq<LogOp>, k: Code) {
    forall p :: 0 <= p < |ops| ==> ops[p].Code() != k
  }

  lemma {:induction false} OwnHitsFold(v: View, me: int, lines: seq<LogOp>, k: Code)
    requires OwnHits(lines, me, k)
    ensures FoldView(v, me, lines, k).oh == v.oh + HitSum(lines, k)
    ensures FoldView(v, me, lines, k).row == v.row
  {
    if lines != [] {
      OwnHitsFold(v, me, lines[..|lines| - 1], k);
    }
  }

  lemma {:induction false} NoOpsFold(v: View, me: int, ops: seq<LogOp>, k: Code)
    requires NoOps(ops, k)
    ensures FoldView(v, me, ops, k) == v
  {
    if ops != [] {
      NoOpsFold(v, me, ops[..|ops| - 1], k);
    }
  }

  /** A first row keeps the hits that waited for it. */
  ghost predicate KeepsCount(ops: seq<LogOp>, me: int, k: Code) {
    forall v: View :: v.row.None? ==> FoldView(v, me, ops, k).oh == v.oh
  }

  function Held(s: Store, k: Code): (h: seq<int>)
    ensures |h| == |s.flushers|
  {
    seq(|s.flushers|, f requires 0 <= f < |s.flushers| => HitSum(s.flushers[f].lines, k))
  }

  function PhaseLines(s: Store): seq<LogOp> {
    if s.phase.Draining? then s.phase.lines else []
  }

  /** Hits of `k` drained from the dirty map but not yet written. */
  function InLines(s: Store, k: Code): int {
    Sum(Held(s, k)) + HitSum(PhaseLines(s), k)
  }

  ghost predicate LinesOk(r: Trace, k: Code) {
    var s := r.s;
    !r.raced &&
    (forall f :: 0 <= f < |s.flushers| ==> OwnHits(s.flushers[f].lines, s.me, k)) &&
    (forall f :: 0 <= f < |s.flushers| && !s.flushers[f].open ==> s.flushers[f].lines == []) &&
    OwnHits(PhaseLines(s), s.me, k) &&
    (forall t :: t in s.muts && r.pending != Some(t) ==> NoOps(s.muts[t], k)) &&
    (r.pending.Some? ==> RowFold(None, Stream(s), k).None? && KeepsCount(PendingOps(r), s.me, k))
  }

  // ---- tickets ----

  predicate Tickets(r: Trace, k: Code) {
    r.counted <= r.bumped && r.over <= r.bumped &&
    (forall t :: t in r.s.resolving && r.s.resolving[t] == k ==> t in r.bumped && t !in r.counted) &&
    (forall t :: t in r.bumped && t !in r.counted ==> t in r.s.resolving && r.s.resolving[t] == k)
  }

  /** The live counter is exact; before the code exists there is nothing to count. */
  predicate LiveOk(r: Trace, k: Code) {
    if k in r.s.mem.index then r.s.mem.index[k].oh == r.base + |r.bumped|
    else r.bumped == {} && r.base == 0 && k !in r.s.dirty && r.pending.None?
  }

  /** Durable, in-line and dirty hits together are the counted resolves, the double-counted ones and
      those inherited from a row that was lost. */
  predicate Balanced(r: Trace, k: Code) {
    Durable(r.s, k) + InLines(r.s, k) + DirtyOf(r.s.dirty, k) == r.base + r.inherited + |r.counted| + |r.over|
  }

  /** Once compact has drained `k`, its dirty delta is what was counted since. */
  predicate SinceDrain(r: Trace, k: Code) {
    r.atDrain <= r.counted && DirtyOf(r.s.dirty, k) == |r.counted| - |r.atDrain| &&
    (!r.overlap ==> r.atDrain == r.counted)
  }

  predicate CompactOk(r: Trace, k: Code) {
    var s := r.s;
    (!s.phase.Idle? && !r.overlap ==> r.bumped == r.counted) &&
    (!r.overlapped ==> r.over == {}) &&
    match s.phase
    case Idle => true
    case Draining(done, _) => k in done ==> SinceDrain(r, k)
    case Copying(tmp, copied) =>
      SinceDrain(r, k) &&
      if k in copied then
        r.atDrain <= r.atRead <= r.bumped && OwnCount(s.me, tmp, k) == r.base + |r.atRead| &&
        (!r.overlap ==> r.atRead == r.bumped)
      else r.atRead == {} && NoOps(tmp, k)
    case Renamed => true
  }

  ghost predicate HitInv(r: Trace, k: Code) {
    RowInv(r, k) &&
    (Clean(r) ==> CountsOk(r, k))
  }

  ghost predicate CountsOk(r: Trace, k: Code) {
    LinesOk(r, k) && Tickets(r, k) && LiveOk(r, k) && Balanced(r, k) && CompactOk(r, k)
  }

  // ---- one event at a time ----

  lemma SetMinus(a: set<nat>, b: set<nat>)
    requires b <= a
    ensures |a - b| == |a| - |b|
  {
    assert a == (a - b) + b;
  }

  lemma StreamAppend(me: int, stream: seq<LogOp>, lines: seq<LogOp>, k: Code)
    requires OwnHits(lines, me, k)
    ensures OwnCount(me, stream + lines, k) == OwnCount(me, stream, k) + HitSum(lines, k)
    ensures RowFold(None, stream + lines, k) == RowFold(None, stream, k)
  {
    FoldViewAppend(NO_VIEW, me, stream, lines, k);
    OwnHitsFold(FoldView(NO_VIEW, me, stream, k), me, lines, k);
    FoldViewRow(NO_VIEW, me, stream, k);
    FoldViewRow(NO_VIEW, me, stream + lines, k);
  }

  lemma HeldClosed(r: Trace, k: Code)
    requires LinesOk(r, k) && GateFree(r.s)
    ensures Sum(Held(r.s, k)) == 0
  {
    SumZero(Held(r.s, k));
  }

  lemma InsertLines(r: Trace, t: nat, op: LogOp, k: Code)
    requires LinesOk(r, k) && op.Row? && op.c == k && op.n == 0
    requires r.pending.None? && RowFold(None, Stream(r.s), k).None?
    ensures KeepsCount(Owed(r.s, t) + [op], r.s.me, k)
  {
    var ops := Owed(r.s, t);
    forall v: View | v.row.None? ensures FoldView(v, r.s.me, ops + [op], k).oh == v.oh {
      FoldViewOne(v, r.s.me, ops, op, k);
      NoOpsFold(v, r.s.me, ops, k);
    }
  }

  lemma OtherLines(r: Trace, t: nat, op: LogOp, k: Code)
    requires LinesOk(r, k) && op.Code() != k && r.pending == Some(t)
    ensures KeepsCount(Owed(r.s, t) + [op], r.s.me, k)
  {
    var ops := Owed(r.s, t);
    forall v: View | v.row.None? ensures FoldView(v, r.s.me, ops + [op], k).oh == v.oh {
      FoldViewOne(v, r.s.me, ops, op, k);
    }
  }

  lemma MutateCounts(r: Trace, t: nat, c: Code, mem: Mem, op: LogOp, k: Code)
    requires RowInv(r, k) && CountsOk(r, k) && r.s.phase.Idle? && op.Code() == c
    requires c == k ==> op.Row? && op.n == 0 && k !in r.s.mem.index && k in mem.index && mem.index[k].oh == 0
    requires c != k ==> (k in mem.index) == (k in r.s.mem.index)
    requires c != k && k in mem.index ==> mem.index[k] == r.s.mem.index[k]
    ensures CountsOk(Mutate(r, t, c, mem, op, k), k)
  {
    MutateLines(r, t, c, mem, op, k);
    assert Held(Mutate(r, t, c, mem, op, k).s, k) == Held(r.s, k);
  }

  /** A mutation of another code adds nothing about `k`. */
  lemma OtherMutation(r: Trace, t: nat, c: Code, mem: Mem, op: LogOp, k: Code)
    requires LinesOk(r, k) && op.Code() == c && c != k
    ensures LinesOk(Mutate(r, t, c, mem, op, k), k)
  {
    if r.pending == Some(t) {
      OtherLines(r, t, op, k);
    }
  }

  /** Minting `k`: its row is on its way and keeps whatever count waits for it. */
  lemma MineMutation(r: Trace, t: nat, mem: Mem, op: LogOp, k: Code)
    requires LinesOk(r, k) && op.Row? && op.c == k && op.n == 0
    requires r.pending.None? && RowFold(None, Stream(r.s), k).None?
    ensures LinesOk(Mutate(r, t, k, mem, op, k), k)
  {
    InsertLines(r, t, op, k);
  }

  lemma MutateLines(r: Trace, t: nat, c: Code, mem: Mem, op: LogOp, k: Code)
    requires RowInv(r, k) && LinesOk(r, k) && LiveOk(r, k) && op.Code() == c
    requires c == k ==> op.Row? && op.n == 0 && k !in r.s.mem.index
    ensures LinesOk(Mutate(r, t, c, mem, op, k), k)
  {
    if c == k {
      assert RowDurable(r, k);
      MineMutation(r, t, mem, op, k);
    } else {
      OtherMutation(r, t, c, mem, op, k);
    }
  }

  lemma PushLines(r: Trace, t: nat, k: Code)
    requires LinesOk(r, k) && Enabled(r, Push(t))
    ensures var r' := AfterPush(r, t);
      LinesOk(r', k) && OwnCount(r'.s.me, Stream(r'.s), k) == OwnCount(r.s.me, Stream(r.s), k)
  {
    var r', ops := AfterPush(r, t), r.s.muts[t];
    assert Stream(r'.s) == Stream(r.s) + ops;
    FoldViewAppend(NO_VIEW, r.s.me, Stream(r.s), ops, k);
    FoldViewRow(NO_VIEW, r.s.me, Stream(r.s), k);
    FoldViewRow(NO_VIEW, r.s.me, Stream(r'.s), k);
    if r.pending != Some(t) {
      NoOpsFold(FoldView(NO_VIEW, r.s.me, Stream(r.s), k), r.s.me, ops, k);
    }
  }

  lemma PushCounts(r: Trace, t: nat, k: Code)
    requires RowInv(r, k) && CountsOk(r, k) && Enabled(r, Push(t))
    ensures CountsOk(Do(r, Push(t), k), k)
  {
    PushLines(r, t, k);
    assert Held(AfterPush(r, t).s, k) == Held(r.s, k);
  }

  /** Nothing on its way to the files moved. */
  predicate SamePipes(r: Trace, r': Trace) {
    r'.raced == r.raced && r'.pending == r.pending && r'.s.me == r.s.me && r'.s.flushers == r.s.flushers &&
    r'.s.muts == r.s.muts && r'.s.phase == r.s.phase && r'.s.snap == r.s.snap && Stream(r'.s) == Stream(r.s)
  }

  lemma SameLines(r: Trace, r': Trace, k: Code)
    requires LinesOk(r, k) && SamePipes(r, r')
    ensures LinesOk(r', k) && InLines(r'.s, k) == InLines(r.s, k) && Durable(r'.s, k) == Durable(r.s, k)
  {
    assert PendingOps(r') == PendingOps(r) && PhaseLines(r'.s) == PhaseLines(r.s) && Held(r'.s, k) == Held(r.s, k);
  }

  lemma BumpTickets(r: Trace, t: nat, c: Code, now: int, k: Code)
    requires Tickets(r, k) && LiveOk(r, k) && CompactOk(r, k) && Enabled(r, Bump(t, c, now))
    ensures var r' := AfterBump(r, t, c, k); Tickets(r', k) && LiveOk(r', k) && CompactOk(r', k)
  {
  }

  lemma BumpCounts(r: Trace, t: nat, c: Code, now: int, k: Code)
    requires CountsOk(r, k) && Enabled(r, Bump(t, c, now))
    ensures CountsOk(Do(r, Bump(t, c, now), k), k)
  {
    SameLines(r, AfterBump(r, t, c, k), k);
    BumpTickets(r, t, c, now, k);
  }

  lemma CountTickets(r: Trace, t: nat, k: Code)
    requires Tickets(r, k) && LiveOk(r, k) && CompactOk(r, k) && t in r.s.resolving
    ensures var r' := AfterCount(r, t, k); Tickets(r', k) && LiveOk(r', k) && CompactOk(r', k)
  {
  }

  lemma CountCounts(r: Trace, t: nat, k: Code)
    requires CountsOk(r, k) && Enabled(r, Count(t))
    ensures CountsOk(Do(r, Count(t), k), k)
  {
    SameLines(r, AfterCount(r, t, k), k);
    CountTickets(r, t, k);
  }

  lemma FlushOpenCounts(r: Trace, k: Code)
    requires CountsOk(r, k) && Enabled(r, FlushOpen)
    ensures CountsOk(Do(r, FlushOpen, k), k)
  {
    var r' := Do(r, FlushOpen, k);
    FlushOpenLines(r, k);
    var n := |r.s.flushers|;
    assert Held(r'.s, k)[..n] == Held(r.s, k) && Held(r'.s, k)[n] == 0;
  }

  lemma FlushOpenLines(r: Trace, k: Code)
    requires LinesOk(r, k) && Enabled(r, FlushOpen)
    ensures LinesOk(Do(r, FlushOpen, k), k)
  {
    assert PendingOps(Do(r, FlushOpen, k)) == PendingOps(r);
  }

  lemma HitLinesSum(d: map<Code, int>, c: Code, me: int, k: Code)
    ensures HitSum(HitLines(d, c, me), k) == if c == k then DirtyOf(d, k) else 0
    ensures OwnHits(HitLines(d, c, me), me, k)
  {
    if c in d {
      HitSumOne([], Hit(c, d[c], me), k);
      assert [] + [Hit(c, d[c], me)] == [Hit(c, d[c], me)];
    }
  }

  lemma FlushDrainLines(r: Trace, f: nat, c: Code, k: Code)
    requires LinesOk(r, k) && Enabled(r, FlushDrain(f, c))
    ensures LinesOk(Do(r, FlushDrain(f, c), k), k)
  {
    var r' := Do(r, FlushDrain(f, c), k);
    HitLinesSum(r.s.dirty, c, r.s.me, k);
    OwnHitsAppend(r.s.flushers[f].lines, HitLines(r.s.dirty, c, r.s.me), r.s.me, k);
    assert PendingOps(r') == PendingOps(r);
  }

  lemma OwnHitsAppend(a: seq<LogOp>, b: seq<LogOp>, me: int, k: Code)
    requires OwnHits(a, me, k) && OwnHits(b, me, k)
    ensures OwnHits(a + b, me, k)
  {
  }

  lemma FlushDrainHeld(s: Store, f: nat, c: Code, k: Code)
    requires f < |s.flushers|
    ensures InLines(AfterFlushDrain(s, f, c), k) + DirtyOf(AfterFlushDrain(s, f, c).dirty, k) ==
            InLines(s, k) + DirtyOf(s.dirty, k)
  {
    var s' := AfterFlushDrain(s, f, c);
    var lines := HitLines(s.dirty, c, s.me);
    HitLinesSum(s.dirty, c, s.me, k);
    HitSumAppend(s.flushers[f].lines, lines, k);
    SumOne(Held(s, k), Held(s', k), f, HitSum(lines, k));
  }

  lemma FlushDrainCounts(r: Trace, f: nat, c: Code, k: Code)
    requires RowInv(r, k) && CountsOk(r, k) && Enabled(r, FlushDrain(f, c))
    ensures CountsOk(Do(r, FlushDrain(f, c), k), k)
  {
    assert r.s.phase.Idle?;
    FlushDrainIdle(r, f, c, k);
  }

  lemma FlushDrainIdle(r: Trace, f: nat, c: Code, k: Code)
    requires r.s.phase.Idle? && CountsOk(r, k) && Enabled(r, FlushDrain(f, c))
    ensures CountsOk(Do(r, FlushDrain(f, c), k), k)
  {
    FlushDrainLines(r, f, c, k);
    FlushDrainHeld(r.s, f, c, k);
    assert Stream(AfterFlushDrain(r.s, f, c)) == Stream(r.s);
  }

  lemma FlushPushCounts(r: Trace, f: nat, k: Code)
    requires RowInv(r, k) && CountsOk(r, k) && Enabled(r, FlushPush(f))
    ensures CountsOk(Do(r, FlushPush(f), k), k)
  {
    FlushPushLines(r, f, k);
    var r' := Do(r, FlushPush(f), k);
    SumOne(Held(r.s, k), Held(r'.s, k), f, -HitSum(r.s.flushers[f].lines, k));
  }

  lemma FlushPushStream(s: Store, f: nat, k: Code)
    requires f < |s.flushers| && OwnHits(s.flushers[f].lines, s.me, k)
    ensures var s' := AfterFlushPush(s, f);
      OwnCount(s.me, Stream(s'), k) == OwnCount(s.me, Stream(s), k) + HitSum(s.flushers[f].lines, k) &&
      RowFold(None, Stream(s'), k) == RowFold(None, Stream(s), k)
  {
    var lines := s.flushers[f].lines;
    assert Stream(AfterFlushPush(s, f)) == Stream(s) + lines;
    StreamAppend(s.me, Stream(s), lines, k);
  }

  lemma FlushPushLines(r: Trace, f: nat, k: Code)
    requires LinesOk(r, k) && Enabled(r, FlushPush(f))
    ensures var r' := Do(r, FlushPush(f), k);
      LinesOk(r', k) &&
      OwnCount(r.s.me, Stream(r'.s), k) == OwnCount(r.s.me, Stream(r.s), k) + HitSum(r.s.flushers[f].lines, k)
  {
    FlushPushStream(r.s, f, k);
    assert PendingOps(Do(r, FlushPush(f), k)) == PendingOps(r);
  }

  lemma SyncCounts(r: Trace, k: Code)
    requires CountsOk(r, k)
    ensures CountsOk(Do(r, Sync, k), k)
  {
    var r' := Do(r, Sync, k);
    assert Stream(r'.s) == Stream(r.s);
    SameLines(r, r', k);
  }

  lemma LockCounts(r: Trace, k: Code)
    requires RowInv(r, k) && CountsOk(r, k) && Enabled(r, Lock)
    ensures CountsOk(Do(r, Lock, k), k)
  {
    var r' := Do(r, Lock, k);
    assert Stream(r'.s) == Stream(r.s) && Held(r'.s, k) == Held(r.s, k) && PendingOps(r') == PendingOps(r);
  }

  lemma DrainOneLines(r: Trace, c: Code, k: Code)
    requires LinesOk(r, k) && Enabled(r, DrainOne(c))
    ensures LinesOk(Do(r, DrainOne(c), k), k)
  {
    HitLinesSum(r.s.dirty, c, r.s.me, k);
    OwnHitsAppend(r.s.phase.lines, HitLines(r.s.dirty, c, r.s.me), r.s.me, k);
    assert PendingOps(Do(r, DrainOne(c), k)) == PendingOps(r);
  }

  lemma DrainOneHeld(r: Trace, c: Code, k: Code)
    requires r.s.phase.Draining?
    ensures var s' := AfterDrainOne(r, c, k).s;
      InLines(s', k) + DirtyOf(s'.dirty, k) == InLines(r.s, k) + DirtyOf(r.s.dirty, k) &&
      Durable(s', k) == Durable(r.s, k)
  {
    HitLinesSum(r.s.dirty, c, r.s.me, k);
    HitSumAppend(r.s.phase.lines, HitLines(r.s.dirty, c, r.s.me), k);
    assert Held(AfterDrainOne(r, c, k).s, k) == Held(r.s, k);
  }

  lemma DrainOneCounts(r: Trace, c: Code, k: Code)
    requires CountsOk(r, k) && Enabled(r, DrainOne(c))
    ensures CountsOk(Do(r, DrainOne(c), k), k)
  {
    DrainOneLines(r, c, k);
    DrainOneHeld(r, c, k);
  }

  lemma WriteAllLines(r: Trace, k: Code)
    requires RowInv(r, k) && LinesOk(r, k) && Enabled(r, WriteAll)
    ensures var r' := Do(r, WriteAll, k);
      LinesOk(r', k) &&
      OwnCount(r.s.me, Stream(r'.s), k) == OwnCount(r.s.me, Stream(r.s), k) + HitSum(r.s.phase.lines, k)
  {
    var r' := Do(r, WriteAll, k);
    assert Stream(r'.s) == Stream(r.s) + r.s.phase.lines;
    StreamAppend(r.s.me, Stream(r.s), r.s.phase.lines, k);
    assert PendingOps(r') == PendingOps(r) == [];
  }

  lemma WriteAllCounts(r: Trace, k: Code)
    requires RowInv(r, k) && CountsOk(r, k) && Enabled(r, WriteAll)
    ensures CountsOk(Do(r, WriteAll, k), k)
  {
    WriteAllLines(r, k);
    assert Held(Do(r, WriteAll, k).s, k) == Held(r.s, k);
    WriteAllRest(r, k);
  }

  lemma WriteAllRest(r: Trace, k: Code)
    requires Tickets(r, k) && LiveOk(r, k) && CompactOk(r, k) && Enabled(r, WriteAll)
    ensures var r' := Do(r, WriteAll, k); Tickets(r', k) && LiveOk(r', k) && CompactOk(r', k)
  {
  }

  /** Copying a row moves nothing on its way to the files. */
  lemma CopyLines(r: Trace, c: Code, k: Code)
    requires LinesOk(r, k) && Enabled(r, Copy(c))
    ensures var r' := Do(r, Copy(c), k);
      LinesOk(r', k) && InLines(r'.s, k) == InLines(r.s, k) && Durable(r'.s, k) == Durable(r.s, k)
  {
    var r' := Do(r, Copy(c), k);
    assert Stream(r'.s) == Stream(r.s) && Held(r'.s, k) == Held(r.s, k) && PendingOps(r') == PendingOps(r);
  }

  /** The snapshot row of `k` holds the count read, and no other row changes it. */
  lemma CopiedCount(r: Trace, c: Code, k: Code)
    requires CompactOk(r, k) && LiveOk(r, k) && Enabled(r, Copy(c))
    ensures var tmp := r.s.phase.tmp + [SnapshotRow(c, r.s.mem.index[c])];
      if c == k then OwnCount(r.s.me, tmp, k) == r.base + |r.bumped|
      else if k in r.s.phase.copied then OwnCount(r.s.me, tmp, k) == r.base + |r.atRead|
      else NoOps(tmp, k)
  {
    FoldViewOne(NO_VIEW, r.s.me, r.s.phase.tmp, SnapshotRow(c, r.s.mem.index[c]), k);
    if c == k {
      NoOpsFold(NO_VIEW, r.s.me, r.s.phase.tmp, k);
    }
  }

  lemma CopyCompact(r: Trace, c: Code, k: Code)
    requires Tickets(r, k) && LiveOk(r, k) && CompactOk(r, k) && Enabled(r, Copy(c))
    ensures var r' := Do(r, Copy(c), k); Tickets(r', k) && LiveOk(r', k) && CompactOk(r', k)
  {
    CopiedCount(r, c, k);
  }

  lemma CopyCounts(r: Trace, c: Code, k: Code)
    requires CountsOk(r, k) && Enabled(r, Copy(c))
    ensures CountsOk(Do(r, Copy(c), k), k)
  {
    CopyLines(r, c, k);
    CopyCompact(r, c, k);
  }

  lemma RenameCounts(r: Trace, k: Code)
    requires RowInv(r, k) && CountsOk(r, k) && Enabled(r, Rename)
    ensures CountsOk(Do(r, Rename, k), k)
  {
    var r' := Do(r, Rename, k);
    HeldClosed(r, k);
    assert Held(r'.s, k) == Held(r.s, k) && PendingOps(r') == [];
    if k in r.s.phase.copied {
      SetMinus(r.atRead, r.atDrain);
    } else {
      NoOpsFold(NO_VIEW, r.s.me, r.s.phase.tmp, k);
    }
  }

  lemma TruncateCounts(r: Trace, k: Code)
    requires RowInv(r, k) && CountsOk(r, k) && Enabled(r, Truncate)
    ensures CountsOk(Do(r, Truncate, k), k)
  {
    var r' := Do(r, Truncate, k);
    assert Stream(r'.s) == r.s.snap && Held(r'.s, k) == Held(r.s, k) && PendingOps(r') == [];
  }

  lemma RebootCounts(r: Trace, victims: seq<Code>, k: Code)
    requires Enabled(r, Reboot(victims)) && Clean(Do(r, Reboot(victims), k)) && !r.raced
    ensures CountsOk(Do(r, Reboot(victims), k), k)
  {
    var r' := Do(r, Reboot(victims), k);
    var disk := r.s.snap + r.s.log;
    assert Stream(r'.s) == disk;
    FoldViews(EMPTY_MEM, r.s.me, disk, victims, k);
  }

  lemma MutationStep(r: Trace, e: Event, k: Code)
    requires RowInv(r, k) && CountsOk(r, k) && Enabled(r, e) && Clean(Do(r, e, k))
    requires e.Insert? || e.Update? || e.Remove?
    ensures CountsOk(Do(r, e, k), k)
  {
    var s := r.s;
    match e
    case Insert(t, c, u, now, ttl) =>
      MutateCounts(r, t, c, Mint(s.mem, s.me, c, u, now, ttl), MintOp(s.me, c, u, now, ttl), k);
    case Update(t, c, u, now, ttl, hasTtl) =>
      MutateCounts(r, t, c, Updated(s.mem, c, u, now, ttl, hasTtl), UpdateOp(s.mem, s.me, c, u, now, ttl, hasTtl), k);
    case Remove(t, c) => MutateCounts(r, t, c, Removed(s.mem, c), Del(c), k);
  }

  lemma CompactStep(r: Trace, e: Event, k: Code)
    requires RowInv(r, k) && CountsOk(r, k) && Enabled(r, e)
    requires e.Lock? || e.DrainOne? || e.WriteAll? || e.Copy? || e.Rename? || e.Truncate?
    ensures CountsOk(Do(r, e, k), k)
  {
    match e
    case Lock => LockCounts(r, k);
    case DrainOne(c) => DrainOneCounts(r, c, k);
    case WriteAll => WriteAllCounts(r, k);
    case Copy(c) => CopyCounts(r, c, k);
    case Rename => RenameCounts(r, k);
    case Truncate => TruncateCounts(r, k);
  }

  lemma FlushStep(r: Trace, e: Event, k: Code)
    requires RowInv(r, k) && CountsOk(r, k) && Enabled(r, e)
    requires e.Push? || e.Bump? || e.Count? || e.FlushOpen? || e.FlushDrain? || e.FlushPush? || e.Sync?
    ensures CountsOk(Do(r, e, k), k)
  {
    match e
    case Push(t) => PushCounts(r, t, k);
    case Bump(t, c, now) => BumpCounts(r, t, c, now, k);
    case Count(t) => CountCounts(r, t, k);
    case FlushOpen => FlushOpenCounts(r, k);
    case FlushDrain(f, c) => FlushDrainCounts(r, f, c, k);
    case FlushPush(f) => FlushPushCounts(r, f, k);
    case Sync => SyncCounts(r, k);
  }

  lemma CountsStep(r: Trace, e: Event, k: Code)
    requires RowInv(r, k) && CountsOk(r, k) && Enabled(r, e) && Clean(Do(r, e, k))
    ensures CountsOk(Do(r, e, k), k)
  {
    if e.Insert? || e.Update? || e.Remove? {
      MutationStep(r, e, k);
    } else if e.Reboot? {
      RebootCounts(r, e.victims, k);
    } else if e.Lock? || e.DrainOne? || e.WriteAll? || e.Copy? || e.Rename? || e.Truncate? {
      CompactStep(r, e, k);
    } else {
      FlushStep(r, e, k);
    }
  }

  lemma CleanBefore(r: Trace, e: Event, k: Code)
    requires Clean(Do(r, e, k))
    ensures Clean(r)
  {
  }

  lemma HitInvStep(r: Trace, e: Event, k: Code)
    requires HitInv(r, k)
    ensures HitInv(Do(r, e, k), k)
  {
    RowInvStep(r, e, k);
    if Enabled(r, e) && Clean(Do(r, e, k)) {
      CleanBefore(r, e, k);
      CountsStep(r, e, k);
    }
  }

  lemma {:induction false} HitInvRun(me: int, es: seq<Event>, k: Code)
    requires 0 <= me < MAX_INSTANCES
    ensures HitInv(Run(me, es, k), k)
  {
    if es == [] {
      RowInvRun(me, [], k);
    } else {
      HitInvRun(me, es[..|es| - 1], k);
      HitInvStep(Run(me, es[..|es| - 1], k), es[|es| - 1], k);
    }
  }
}
