/** Flushed hits and a crash in the middle of compact, between the snapshot's rename and the log's
    truncate: the log is then folded again over a snapshot that already counts it. Which runs lose
    flushed hits there, and how many? */
module CrashHits {
  import opened Bytes
  import opened Codec
  import opened Engine
  import opened Sums
  import opened Compaction
  import opened CompactionHits
  import opened Durability

  // ---- hit deltas are positive ----

  predicate Positive(ops: seq<LogOp>) {
    forall p :: 0 <= p < |ops| && ops[p].Hit? ==> ops[p].d > 0
  }

  /** Every hit delta on its way to the log, or in it, is positive. */
  predicate PositiveStore(s: Store) {
    Positive(s.log) && Positive(s.buf) && Positive(PhaseLines(s)) &&
    (forall c :: c in s.dirty ==> s.dirty[c] > 0) &&
    (forall t :: t in s.muts ==> Positive(s.muts[t])) &&
    (forall f :: 0 <= f < |s.flushers| ==> Positive(s.flushers[f].lines))
  }

  lemma PositiveStep(r: Trace, e: Event, k: Code)
    requires PositiveStore(r.s)
    ensures PositiveStore(Do(r, e, k).s)
  {
    if Enabled(r, e) {
      var me := r.s.me;
      match e
      case Insert(t, c, u, now, ttl) =>
        PositiveMutation(r, t, c, Mint(r.s.mem, me, c, u, now, ttl), MintOp(me, c, u, now, ttl), k);
      case Update(t, c, u, now, ttl, hasTtl) =>
        PositiveMutation(r, t, c, Updated(r.s.mem, c, u, now, ttl, hasTtl),
          UpdateOp(r.s.mem, me, c, u, now, ttl, hasTtl), k);
      case Remove(t, c) => PositiveMutation(r, t, c, Removed(r.s.mem, c), Del(c), k);
      case Push(t) =>
      case Bump(t, c, now) =>
      case Count(t) =>
      case FlushOpen =>
      case FlushDrain(f, c) => PositiveDrain(r, e, k);
      case FlushPush(f) =>
      case Sync =>
      case Lock =>
      case DrainOne(c) => PositiveDrain(r, e, k);
      case WriteAll =>
      case Copy(c) =>
      case Rename =>
      case Truncate =>
      case Reboot(victims) =>
    }
  }

  lemma PositiveMutation(r: Trace, t: nat, c: Code, mem: Mem, op: LogOp, k: Code)
    requires PositiveStore(r.s) && !op.Hit?
    ensures PositiveStore(Mutate(r, t, c, mem, op, k).s)
  {
    PositiveOwed(r.s, t, op);
    PositiveMuts(r.s, r.s.muts[t := Owed(r.s, t) + [op]], t, mem);
  }

  lemma PositiveOwed(s: Store, t: nat, op: LogOp)
    requires PositiveStore(s) && !op.Hit?
    ensures Positive(Owed(s, t) + [op])
  {
    assert Positive(Owed(s, t));
  }

  lemma PositiveMuts(s: Store, muts: map<nat, seq<LogOp>>, t: nat, mem: Mem)
    requires PositiveStore(s) && t in muts && Positive(muts[t])
    requires forall u :: u in muts && u != t ==> u in s.muts && muts[u] == s.muts[u]
    ensures PositiveStore(s.(mem := mem, muts := muts))
  {
    assert PhaseLines(s.(mem := mem, muts := muts)) == PhaseLines(s);
  }

  lemma PositiveDrain(r: Trace, e: Event, k: Code)
    requires PositiveStore(r.s) && Enabled(r, e) && (e.FlushDrain? || e.DrainOne?)
    ensures PositiveStore(Do(r, e, k).s)
  {
    assert Positive(HitLines(r.s.dirty, e.c, r.s.me));
  }

  lemma {:induction false} DeltasPositive(me: int, es: seq<Event>, k: Code)
    ensures PositiveStore(Run(me, es, k).s)
  {
    if es != [] {
      DeltasPositive(me, es[..|es| - 1], k);
      PositiveStep(Run(me, es[..|es| - 1], k), es[|es| - 1], k);
    }
  }

  // ---- a code nobody knows has no hits on their way ----

  /** Neither the dirty map nor a drained line mentions `k`. */
  predicate Unheard(s: Store, k: Code) {
    k !in s.dirty && NoOps(PhaseLines(s), k) && forall f :: 0 <= f < |s.flushers| ==> NoOps(s.flushers[f].lines, k)
  }

  predicate UnknownOk(s: Store, k: Code) {
    k !in s.mem.index ==> Unheard(s, k)
  }

  lemma UnknownStep(r: Trace, e: Event, k: Code)
    requires Tickets(r, k) && LiveOk(r, k) && UnknownOk(r.s, k) && Enabled(r, e) && Clean(Do(r, e, k))
    ensures UnknownOk(Do(r, e, k).s, k)
  {
    if e.FlushDrain? || e.DrainOne? {
      UnknownDrain(r, e, k);
    } else if e.Count? {
      UnknownCount(r, e.t, k);
    } else {
      UnknownMove(r, e, k);
    }
  }

  lemma UnknownCount(r: Trace, t: nat, k: Code)
    requires Tickets(r, k) && LiveOk(r, k) && UnknownOk(r.s, k) && Enabled(r, Count(t))
    ensures UnknownOk(Do(r, Count(t), k).s, k)
  {
    assert k !in r.s.mem.index ==> r.s.resolving[t] != k;
  }

  /** What is on its way to the log is the same, and `k` has not been forgotten. */
  predicate SameHits(s: Store, s': Store, k: Code) {
    (k in s.mem.index ==> k in s'.mem.index) && s'.dirty == s.dirty && s'.flushers == s.flushers && s'.phase == s.phase
  }

  lemma MutationHits(r: Trace, e: Event, k: Code)
    requires Enabled(r, e) && Clean(Do(r, e, k)) && (e.Insert? || e.Update? || e.Remove?)
    ensures SameHits(r.s, Do(r, e, k).s, k)
  {
  }

  lemma BumpHits(r: Trace, e: Event, k: Code)
    requires Enabled(r, e) && (e.Push? || e.Bump? || e.Sync?)
    ensures SameHits(r.s, Do(r, e, k).s, k)
  {
  }

  lemma UnknownRest(r: Trace, e: Event, k: Code)
    requires UnknownOk(r.s, k) && Enabled(r, e)
    requires e.FlushOpen? || e.FlushPush? || e.Lock? || e.WriteAll? || e.Copy? || e.Rename? || e.Truncate? || e.Reboot?
    ensures UnknownOk(Do(r, e, k).s, k)
  {
  }

  lemma UnknownMove(r: Trace, e: Event, k: Code)
    requires UnknownOk(r.s, k) && Enabled(r, e) && Clean(Do(r, e, k))
    requires !e.FlushDrain? && !e.DrainOne? && !e.Count?
    ensures UnknownOk(Do(r, e, k).s, k)
  {
    if e.Insert? || e.Update? || e.Remove? {
      MutationHits(r, e, k);
    } else if e.Push? || e.Bump? || e.Sync? {
      BumpHits(r, e, k);
    } else {
      UnknownRest(r, e, k);
    }
  }

  lemma UnknownDrain(r: Trace, e: Event, k: Code)
    requires UnknownOk(r.s, k) && Enabled(r, e) && (e.FlushDrain? || e.DrainOne?)
    ensures UnknownOk(Do(r, e, k).s, k)
  {
    if k !in r.s.mem.index {
      assert NoOps(HitLines(r.s.dirty, e.c, r.s.me), k);
    }
  }

  lemma {:induction false} UnknownRun(me: int, es: seq<Event>, k: Code)
    requires 0 <= me < MAX_INSTANCES && Clean(Run(me, es, k))
    ensures UnknownOk(Run(me, es, k).s, k)
  {
    if es != [] {
      var r, e := Run(me, es[..|es| - 1], k), es[|es| - 1];
      CleanBefore(r, e, k);
      UnknownRun(me, es[..|es| - 1], k);
      HitInvRun(me, es[..|es| - 1], k);
      if Enabled(r, e) {
        UnknownStep(r, e, k);
      }
    }
  }

  // ---- hits waiting for their row ----

  /** How many own hits were waiting for the row of `k` whenever one arrived. */
  function Waited(v: View, me: int, ops: seq<LogOp>, k: Code): int {
    if ops == [] then 0
    else
      var p := |ops| - 1;
      var before := FoldView(v, me, ops[..p], k);
      Waited(v, me, ops[..p], k) + if ops[p].Row? && ops[p].c == k && before.row.None? then before.oh else 0
  }

  lemma {:induction false} WaitedAppend(v: View, me: int, a: seq<LogOp>, b: seq<LogOp>, k: Code)
    ensures Waited(v, me, a + b, k) == Waited(v, me, a, k) + Waited(FoldView(v, me, a, k), me, b, k)
  {
    if b == [] {
      assert a + b == a;
    } else {
      var front := b[..|b| - 1];
      WaitedAppend(v, me, a, front, k);
      FoldViewAppend(v, me, a, front, k);
      assert (a + b)[..|a + b| - 1] == a + front;
    }
  }

  /** Nothing waits once the row is there, as long as it is not removed. */
  lemma {:induction false} NothingWaits(v: View, me: int, ops: seq<LogOp>, k: Code)
    requires v.row.Some? && NoDels(ops, k)
    ensures Waited(v, me, ops, k) == 0 && FoldView(v, me, ops, k).row.Some?
  {
    if ops != [] {
      NothingWaits(v, me, ops[..|ops| - 1], k);
    }
  }

  lemma {:induction false} NoRowArrives(v: View, me: int, ops: seq<LogOp>, k: Code)
    requires RowCount(ops, k) == 0
    ensures Waited(v, me, ops, k) == 0
  {
    if ops != [] {
      NoRowArrives(v, me, ops[..|ops| - 1], k);
    }
  }

  /** The record of a mint: everything that waited is there when the row arrives. */
  lemma {:induction false} MintArrives(v: View, me: int, ops: seq<LogOp>, k: Code)
    requires v.row.None? && NoHits(ops, k) && NoDels(ops, k) && RowCount(ops, k) <= 1
    ensures Waited(v, me, ops, k) == if RowCount(ops, k) == 1 then v.oh else 0
    ensures RowCount(ops, k) == 0 ==> FoldView(v, me, ops, k) == v
  {
    if ops != [] {
      var p := |ops| - 1;
      MintArrives(v, me, ops[..p], k);
      RowCountOne(ops[..p], ops[p], k);
      assert ops[..p] + [ops[p]] == ops;
      if RowCount(ops[..p], k) == 1 {
        RowCountFold(ops[..p], k);
        FoldViewRow(v, me, ops[..p], k);
        RowFoldForgets(None, v.row, ops[..p], k);
      }
    }
  }

  predicate FreshRows(ops: seq<LogOp>, k: Code) {
    forall p :: 0 <= p < |ops| && ops[p].Row? && ops[p].c == k ==> ops[p].n == 0
  }

  /** Folding a log again over a newer snapshot loses exactly the hits that had waited for the row. */
  lemma {:induction false} Refold(old0: View, new0: View, me: int, ops: seq<LogOp>, k: Code)
    requires NoDels(ops, k) && RowCount(ops, k) <= 1 && FreshRows(ops, k) && new0.row.Some?
    ensures var a, b := FoldView(old0, me, ops, k), FoldView(new0, me, ops, k);
      b.row.Some? &&
      if RowCount(ops, k) == 0 then b.oh - new0.oh == a.oh - old0.oh && a.row == old0.row
      else b.oh == a.oh - Waited(old0, me, ops, k) && a.row.Some?
  {
    if ops != [] {
      var p := |ops| - 1;
      RowCountOne(ops[..p], ops[p], k);
      assert ops[..p] + [ops[p]] == ops;
      Refold(old0, new0, me, ops[..p], k);
      if RowCount(ops[..p], k) == 0 {
        NoRowArrives(old0, me, ops[..p], k);
      }
    }
  }

  lemma {:induction false} HitsOnlyGrow(v: View, me: int, ops: seq<LogOp>, k: Code)
    requires RowCount(ops, k) == 0 && NoDels(ops, k) && Positive(ops)
    ensures FoldView(v, me, ops, k).oh >= v.oh && FoldView(v, me, ops, k).row == v.row
  {
    if ops != [] {
      HitsOnlyGrow(v, me, ops[..|ops| - 1], k);
    }
  }

  // ---- a run's early hits ----

  /** A flush writes hit lines of `k` while the record of `k`'s own creation is still to be queued. */
  predicate FlushesEarly(r: Trace, e: Event, k: Code) {
    e.FlushPush? && Enabled(r, e) && r.pending.Some? && HitSum(r.s.flushers[e.f].lines, k) > 0
  }

  /** Compact puts the row of `k` into the snapshot, or empties the log: what was logged before no
      longer matters. */
  predicate FilesReplaced(r: Trace, e: Event, k: Code) {
    Enabled(r, e) && (e.Truncate? || (e.Rename? && k in r.s.mem.index))
  }

  /** Since the files were last replaced, a hit line of `k` was written before its row. */
  predicate EarlyHits(me: int, es: seq<Event>, k: Code) {
    es != [] &&
    var r, e := Run(me, es[..|es| - 1], k), es[|es| - 1];
    !FilesReplaced(r, e, k) && (EarlyHits(me, es[..|es| - 1], k) || FlushesEarly(r, e, k))
  }

  /** The own log, written and queued. */
  function Logged(s: Store): seq<LogOp> {
    s.log + s.buf
  }

  function SnapView(s: Store, k: Code): View {
    FoldView(NO_VIEW, s.me, s.snap, k)
  }

  predicate RowRecorded(s: Store, k: Code) {
    RowFold(None, Stream(s), k).Some?
  }

  /** Hits that a replay sees before the row. */
  function AheadOfRow(s: Store, k: Code): int {
    if RowRecorded(s, k) then Waited(SnapView(s, k), s.me, Logged(s), k) else OwnCount(s.me, Stream(s), k)
  }

  /** Rows of `k` only, as a snapshot holds them. */
  predicate RowsOnly(ops: seq<LogOp>, k: Code) {
    NoHits(ops, k) && NoDels(ops, k)
  }

  /** What mutators queue: no hits, no removal, rows with a count of zero. */
  predicate MintsOnly(ops: seq<LogOp>, k: Code) {
    RowsOnly(ops, k) && FreshRows(ops, k)
  }

  predicate FilesOk(s: Store, k: Code) {
    RowsOnly(s.snap, k) && (s.phase.Copying? ==> RowsOnly(s.phase.tmp, k)) &&
    NoDels(s.log, k) && FreshRows(s.log, k) && MintsOnly(s.buf, k) && RowCount(Logged(s), k) <= 1 &&
    forall t :: t in s.muts ==> MintsOnly(s.muts[t], k)
  }

  predicate PendingOk(r: Trace, k: Code) {
    r.pending.Some? ==> r.over == {} && RowCount(PendingOps(r), k) == 1
  }

  predicate EarlyOk(r: Trace, early: bool, k: Code) {
    0 <= r.inherited <= AheadOfRow(r.s, k) && (early <==> AheadOfRow(r.s, k) > 0) &&
    (early ==> r.over == {} && NoOps(r.s.snap, k))
  }

  predicate OrderOk(r: Trace, early: bool, k: Code) {
    FilesOk(r.s, k) && PendingOk(r, k) && EarlyOk(r, early, k) && (r.s.phase.Renamed? ==> r.inherited == 0)
  }

  /** Everything the step lemmas need about a state. */
  ghost predicate Fine(r: Trace, k: Code) {
    RowInv(r, k) && CountsOk(r, k) && PositiveStore(r.s) && UnknownOk(r.s, k)
  }

  lemma StreamParts(s: Store, k: Code)
    requires FilesOk(s, k)
    ensures Stream(s) == s.snap + Logged(s) && Stream(s) == Disk(s) + s.buf
    ensures NoDels(Stream(s), k) && NoDels(Logged(s), k) && FreshRows(Logged(s), k)
    ensures RowCount(Stream(s), k) == RowCount(s.snap, k) + RowCount(Logged(s), k)
    ensures RowRecorded(s, k) <==> RowCount(Stream(s), k) > 0
    ensures FoldView(NO_VIEW, s.me, Stream(s), k) == FoldView(SnapView(s, k), s.me, Logged(s), k)
  {
    assert Stream(s) == s.snap + Logged(s);
    RowCountAppend(s.snap, Logged(s), k);
    RowCountFold(Stream(s), k);
    FoldViewAppend(NO_VIEW, s.me, s.snap, Logged(s), k);
  }

  lemma {:induction false} NoRows(ops: seq<LogOp>, k: Code)
    requires RowCount(ops, k) == 0
    ensures forall p :: 0 <= p < |ops| && ops[p].Row? ==> ops[p].c != k
  {
    if ops != [] {
      NoRows(ops[..|ops| - 1], k);
    }
  }

  /** With no row recorded, the snapshot does not mention `k` at all. */
  lemma SnapSilent(s: Store, k: Code)
    requires FilesOk(s, k) && !RowRecorded(s, k)
    ensures NoOps(s.snap, k) && SnapView(s, k) == NO_VIEW && RowCount(Logged(s), k) == 0
  {
    StreamParts(s, k);
    NoRows(s.snap, k);
    NoOpsFold(NO_VIEW, s.me, s.snap, k);
  }

  // ---- steps that leave the records alone ----

  predicate SameRecords(r: Trace, r': Trace) {
    r'.s.me == r.s.me && r'.s.snap == r.s.snap && r'.s.log == r.s.log && r'.s.buf == r.s.buf && r'.s.muts == r.s.muts &&
    r'.pending == r.pending && r'.over == r.over && r'.inherited == r.inherited &&
    r'.s.phase.Renamed? == r.s.phase.Renamed?
  }

  lemma SameOrder(r: Trace, r': Trace, early: bool, k: Code)
    requires OrderOk(r, early, k) && SameRecords(r, r') && (r'.s.phase.Copying? ==> RowsOnly(r'.s.phase.tmp, k))
    ensures OrderOk(r', early, k)
  {
    assert Stream(r'.s) == Stream(r.s) && PendingOps(r') == PendingOps(r);
  }

  lemma CopyOrder(r: Trace, c: Code, early: bool, k: Code)
    requires OrderOk(r, early, k) && Enabled(r, Copy(c))
    ensures OrderOk(Do(r, Copy(c), k), early, k)
  {
    SameOrder(r, Do(r, Copy(c), k), early, k);
  }

  lemma SyncOrder(r: Trace, early: bool, k: Code)
    requires OrderOk(r, early, k)
    ensures OrderOk(Do(r, Sync, k), early, k)
  {
    var r' := Do(r, Sync, k);
    assert Stream(r'.s) == Stream(r.s) && Logged(r'.s) == Logged(r.s) && PendingOps(r') == PendingOps(r);
  }

  // ---- mutations ----

  lemma MutateFiles(s: Store, t: nat, mem: Mem, op: LogOp, k: Code)
    requires FilesOk(s, k) && !op.Hit? && (op.Code() == k ==> op.Row? && op.n == 0)
    ensures FilesOk(s.(mem := mem, muts := s.muts[t := Owed(s, t) + [op]]), k)
  {
    assert MintsOnly(Owed(s, t), k);
    assert MintsOnly(Owed(s, t) + [op], k);
  }

  lemma MutatePending(r: Trace, t: nat, c: Code, mem: Mem, op: LogOp, k: Code)
    requires PendingOk(r, k) && !r.raced && op.Code() == c && !op.Hit?
    requires r.pending.None? ==> NoOps(Owed(r.s, t), k)
    requires c == k ==> op.Row? && r.over == {} && r.pending.None?
    ensures PendingOk(Mutate(r, t, c, mem, op, k), k)
  {
    var r' := Mutate(r, t, c, mem, op, k);
    RowCountOne(Owed(r.s, t), op, k);
    if c == k {
      NoRowsIn(Owed(r.s, t), k);
      assert PendingOps(r') == Owed(r.s, t) + [op];
    } else if r.pending.Some? {
      assert PendingOps(r') == if r.pending == Some(t) then Owed(r.s, t) + [op] else PendingOps(r);
    }
  }

  lemma MutateOrder(r: Trace, t: nat, c: Code, mem: Mem, op: LogOp, early: bool, k: Code)
    requires Fine(r, k) && OrderOk(r, early, k) && op.Code() == c && !op.Hit?
    requires c == k ==> op.Row? && op.n == 0 && k !in r.s.mem.index
    ensures OrderOk(Mutate(r, t, c, mem, op, k), early, k)
  {
    MutateFiles(r.s, t, mem, op, k);
    assert r.pending.None? ==> NoOps(Owed(r.s, t), k);
    MutatePending(r, t, c, mem, op, k);
    SameAhead(r, Mutate(r, t, c, mem, op, k), early, k);
  }

  lemma SameAhead(r: Trace, r': Trace, early: bool, k: Code)
    requires EarlyOk(r, early, k) && r'.over == r.over && r'.inherited == r.inherited && r'.s.me == r.s.me &&
      r'.s.snap == r.s.snap
    requires r'.s.log == r.s.log && r'.s.buf == r.s.buf
    ensures EarlyOk(r', early, k)
  {
    assert Stream(r'.s) == Stream(r.s) && Logged(r'.s) == Logged(r.s);
  }

  lemma {:induction false} NoRowsIn(ops: seq<LogOp>, k: Code)
    requires NoOps(ops, k)
    ensures RowCount(ops, k) == 0
  {
    if ops != [] {
      NoRowsIn(ops[..|ops| - 1], k);
    }
  }

  /** Queueing the record: everything ahead of the row now waits for it in the log. */
  lemma PushOrder(r: Trace, t: nat, early: bool, k: Code)
    requires Fine(r, k) && OrderOk(r, early, k) && Enabled(r, Push(t))
    ensures OrderOk(Do(r, Push(t), k), early, k)
  {
    PushAhead(r, t, k);
    PushPending(r, t, k);
  }

  lemma PushPending(r: Trace, t: nat, k: Code)
    requires PendingOk(r, k) && Enabled(r, Push(t))
    ensures PendingOk(Do(r, Push(t), k), k)
  {
    if r.pending.Some? && r.pending != Some(t) {
      assert PendingOps(Do(r, Push(t), k)) == PendingOps(r);
    }
  }

  lemma PushAhead(r: Trace, t: nat, k: Code)
    requires LinesOk(r, k) && FilesOk(r.s, k) && PendingOk(r, k) && Enabled(r, Push(t))
    ensures var s' := AfterPush(r, t).s; FilesOk(s', k) && AheadOfRow(s', k) == AheadOfRow(r.s, k)
  {
    var s, ops := r.s, r.s.muts[t];
    var s' := AfterPush(r, t).s;
    assert Logged(s') == Logged(s) + ops && Stream(s') == Stream(s) + ops;
    RowCountAppend(Logged(s), ops, k);
    if r.pending == Some(t) {
      SnapSilent(s, k);
      PushFiles(r, t, k);
      PushMint(s, s', ops, k);
    } else {
      NoRowsIn(ops, k);
      PushFiles(r, t, k);
      PushOther(s, s', ops, k);
    }
  }

  lemma PushFiles(r: Trace, t: nat, k: Code)
    requires FilesOk(r.s, k) && t in r.s.muts && RowCount(Logged(r.s) + r.s.muts[t], k) <= 1
    ensures var s := r.s; FilesOk(s.(buf := s.buf + s.muts[t], muts := s.muts - {t}), k)
  {
    assert Logged(r.s) + r.s.muts[t] == r.s.log + (r.s.buf + r.s.muts[t]);
  }

  lemma PushMint(s: Store, s': Store, ops: seq<LogOp>, k: Code)
    requires FilesOk(s, k) && FilesOk(s', k) && s'.me == s.me && s'.snap == s.snap
    requires Logged(s') == Logged(s) + ops && Stream(s') == Stream(s) + ops
    requires !RowRecorded(s, k) && MintsOnly(ops, k) && RowCount(ops, k) == 1
    ensures RowRecorded(s', k) && AheadOfRow(s', k) == AheadOfRow(s, k)
  {
    StreamParts(s, k);
    StreamParts(s', k);
    SnapSilent(s, k);
    WaitedAppend(SnapView(s, k), s.me, Logged(s), ops, k);
    NoRowArrives(SnapView(s, k), s.me, Logged(s), k);
    FoldViewRow(NO_VIEW, s.me, Stream(s), k);
    MintArrives(FoldView(NO_VIEW, s.me, Stream(s), k), s.me, ops, k);
    RowCountAppend(Stream(s), ops, k);
  }

  lemma PushOther(s: Store, s': Store, ops: seq<LogOp>, k: Code)
    requires FilesOk(s, k) && FilesOk(s', k) && s'.me == s.me && s'.snap == s.snap
    requires Logged(s') == Logged(s) + ops && Stream(s') == Stream(s) + ops && NoOps(ops, k)
    ensures AheadOfRow(s', k) == AheadOfRow(s, k)
  {
    WaitedAppend(SnapView(s, k), s.me, Logged(s), ops, k);
    NoRowsIn(ops, k);
    NoRowArrives(FoldView(SnapView(s, k), s.me, Logged(s), k), s.me, ops, k);
    FoldViewAppend(NO_VIEW, s.me, Stream(s), ops, k);
    NoOpsFold(FoldView(NO_VIEW, s.me, Stream(s), k), s.me, ops, k);
    RowFoldAppend(None, Stream(s), ops, k);
    FoldViewRow(NO_VIEW, s.me, Stream(s), k);
    FoldViewRow(NO_VIEW, s.me, Stream(s'), k);
  }

  // ---- hit lines reach the log ----

  lemma {:induction false} SumPositive(ops: seq<LogOp>, k: Code)
    requires Positive(ops)
    ensures HitSum(ops, k) >= 0
  {
    if ops != [] {
      SumPositive(ops[..|ops| - 1], k);
    }
  }

  lemma {:induction false} PartOfSum(s: seq<int>, m: nat)
    requires m < |s| && forall i :: 0 <= i < |s| ==> s[i] >= 0
    ensures 0 <= s[m] <= Sum(s)
  {
    if m < |s| - 1 {
      PartOfSum(s[..|s| - 1], m);
    } else {
      SumNotNegative(s[..|s| - 1]);
    }
  }

  lemma {:induction false} SumNotNegative(s: seq<int>)
    requires forall i :: 0 <= i < |s| ==> s[i] >= 0
    ensures Sum(s) >= 0
  {
    if s != [] {
      SumNotNegative(s[..|s| - 1]);
    }
  }

  lemma HeldPositive(s: Store, k: Code)
    requires PositiveStore(s)
    ensures Sum(Held(s, k)) >= 0 && HitSum(PhaseLines(s), k) >= 0 && DirtyOf(s.dirty, k) >= 0
    ensures forall f :: 0 <= f < |s.flushers| ==> 0 <= HitSum(s.flushers[f].lines, k) <= Sum(Held(s, k))
  {
    forall f | 0 <= f < |s.flushers| ensures Held(s, k)[f] >= 0 {
      SumPositive(s.flushers[f].lines, k);
    }
    SumNotNegative(Held(s, k));
    SumPositive(PhaseLines(s), k);
    forall f | 0 <= f < |s.flushers| ensures 0 <= HitSum(s.flushers[f].lines, k) <= Sum(Held(s, k)) {
      PartOfSum(Held(s, k), f);
      assert Held(s, k)[f] == HitSum(s.flushers[f].lines, k);
    }
  }

  /** Nobody counted or inherited a hit: none is on its way. */
  lemma NothingCounted(r: Trace, k: Code)
    requires Fine(r, k) && FilesOk(r.s, k) && !RowRecorded(r.s, k) && !r.s.phase.Renamed?
    requires r.base + r.inherited + |r.counted| + |r.over| == 0
    ensures forall f :: 0 <= f < |r.s.flushers| ==> HitSum(r.s.flushers[f].lines, k) == 0
  {
    HeldPositive(r.s, k);
    StreamParts(r.s, k);
    SnapSilent(r.s, k);
    assert Positive(Logged(r.s));
    HitsOnlyGrow(NO_VIEW, r.s.me, Logged(r.s), k);
  }

  /** A code without a row or a pending mint is unknown, and no hit of it is on its way. */
  lemma UnknownCounts(r: Trace, k: Code)
    requires Fine(r, k) && !RowRecorded(r.s, k) && r.pending.None?
    ensures k !in r.s.mem.index && HitSum(PhaseLines(r.s), k) == 0
    ensures forall f :: 0 <= f < |r.s.flushers| ==> HitSum(r.s.flushers[f].lines, k) == 0
  {
    assert RowDurable(r, k);
    NoHitsSum(PhaseLines(r.s), k);
    forall f | 0 <= f < |r.s.flushers| ensures HitSum(r.s.flushers[f].lines, k) == 0 {
      NoHitsSum(r.s.flushers[f].lines, k);
    }
  }

  lemma LinesAhead(s: Store, s': Store, lines: seq<LogOp>, k: Code)
    requires FilesOk(s, k) && OwnHits(lines, s.me, k) && s'.me == s.me && s'.snap == s.snap
    requires Logged(s') == Logged(s) + lines && Stream(s') == Stream(s) + lines
    ensures RowRecorded(s', k) == RowRecorded(s, k) && RowCount(Logged(s'), k) == RowCount(Logged(s), k)
    ensures AheadOfRow(s', k) == AheadOfRow(s, k) + if RowRecorded(s, k) then 0 else HitSum(lines, k)
  {
    StreamAppend(s.me, Stream(s), lines, k);
    HitsHaveNoRows(lines, s.me, k);
    RowCountAppend(Logged(s), lines, k);
    WaitedAppend(SnapView(s, k), s.me, Logged(s), lines, k);
    NoRowArrives(FoldView(SnapView(s, k), s.me, Logged(s), k), s.me, lines, k);
  }

  lemma {:induction false} HitsHaveNoRows(lines: seq<LogOp>, me: int, k: Code)
    requires OwnHits(lines, me, k)
    ensures RowCount(lines, k) == 0
  {
    if lines != [] {
      HitsHaveNoRows(lines[..|lines| - 1], me, k);
    }
  }

  lemma LinesFiles(s: Store, s': Store, lines: seq<LogOp>, k: Code)
    requires FilesOk(s, k) && OwnHits(lines, s.me, k) && RowCount(Logged(s) + lines, k) <= 1
    requires s'.snap == s.snap && s'.log == s.log + s.buf + lines && s'.buf == [] && s'.muts == s.muts
    requires s'.phase.Copying? ==> s'.phase.tmp == []
    ensures FilesOk(s', k) && Logged(s') == Logged(s) + lines && Stream(s') == Stream(s) + lines
  {
    assert Logged(s') == Logged(s) + lines;
    assert Stream(s') == Stream(s) + lines;
  }

  lemma WriteAllOrder(r: Trace, early: bool, k: Code)
    requires Fine(r, k) && OrderOk(r, early, k) && Enabled(r, WriteAll)
    ensures OrderOk(Do(r, WriteAll, k), early, k)
  {
    var s, s', lines := r.s, Do(r, WriteAll, k).s, r.s.phase.lines;
    HitsHaveNoRows(lines, s.me, k);
    RowCountAppend(Logged(s), lines, k);
    LinesFiles(s, s', lines, k);
    LinesAhead(s, s', lines, k);
    if !RowRecorded(s, k) {
      UnknownCounts(r, k);
    }
  }

  lemma FlushPushOrder(r: Trace, f: nat, early: bool, k: Code)
    requires Fine(r, k) && OrderOk(r, early, k) && Enabled(r, FlushPush(f))
    ensures OrderOk(Do(r, FlushPush(f), k), early || FlushesEarly(r, FlushPush(f), k), k)
  {
    var s, s', lines := r.s, AfterFlushPush(r.s, f), r.s.flushers[f].lines;
    HitsHaveNoRows(lines, s.me, k);
    RowCountAppend(Logged(s), lines, k);
    LinesFiles(s, s', lines, k);
    LinesAhead(s, s', lines, k);
    HeldPositive(s, k);
    FlushEarly(r, f, early, k);
    assert PendingOps(Do(r, FlushPush(f), k)) == PendingOps(r);
  }

  lemma FlushEarly(r: Trace, f: nat, early: bool, k: Code)
    requires Fine(r, k) && OrderOk(r, early, k) && Enabled(r, FlushPush(f)) && HitSum(r.s.flushers[f].lines, k) >= 0
    ensures !RowRecorded(r.s, k) ==> NoOps(r.s.snap, k)
    ensures !RowRecorded(r.s, k) && r.pending.None? ==> HitSum(r.s.flushers[f].lines, k) == 0
    ensures RowRecorded(r.s, k) ==> r.pending.None?
  {
    if !RowRecorded(r.s, k) {
      SnapSilent(r.s, k);
      if r.pending.None? {
        UnknownCounts(r, k);
      }
    }
  }

  // ---- the files are replaced ----

  lemma SnapshotAlone(s: Store, k: Code)
    requires RowsOnly(s.snap, k) && Logged(s) == []
    ensures AheadOfRow(s, k) == 0
  {
    assert Stream(s) == s.snap;
    if !RowRecorded(s, k) {
      RowCountFold(s.snap, k);
      NoRows(s.snap, k);
      NoOpsFold(NO_VIEW, s.me, s.snap, k);
    }
  }

  lemma TruncateOrder(r: Trace, early: bool, k: Code)
    requires Fine(r, k) && OrderOk(r, early, k) && Enabled(r, Truncate)
    ensures OrderOk(Do(r, Truncate, k), false, k)
  {
    SnapshotAlone(Do(r, Truncate, k).s, k);
  }

  lemma RenameOrder(r: Trace, early: bool, k: Code)
    requires Fine(r, k) && OrderOk(r, early, k) && Enabled(r, Rename)
    ensures OrderOk(Do(r, Rename, k), early && k !in r.s.mem.index, k)
  {
    var s, s' := r.s, Do(r, Rename, k).s;
    RowInvStep(r, Rename, k);
    assert FilesOk(s', k);
    StreamParts(s, k);
    StreamParts(s', k);
    FoldViewRow(NO_VIEW, s.me, s'.snap, k);
    if k in s.mem.index {
      NothingWaits(SnapView(s', k), s.me, Logged(s'), k);
      RowFoldAppend(None, s'.snap, Logged(s'), k);
      FoldViewRow(SnapView(s', k), s.me, Logged(s'), k);
    } else {
      RenameUnknown(r, k);
    }
  }

  /** A snapshot without the row leaves the hits that wait for it where they are. */
  lemma RenameUnknown(r: Trace, k: Code)
    requires Fine(r, k) && FilesOk(r.s, k) && Enabled(r, Rename) && k !in r.s.mem.index
    ensures var r' := Do(r, Rename, k);
      AheadOfRow(r'.s, k) == AheadOfRow(r.s, k) && r'.over == {} && NoOps(r'.s.snap, k)
  {
    var s, s' := r.s, Do(r, Rename, k).s;
    assert RowDurable(r, k) && r.pending.None?;
    SnapSilent(s, k);
    StreamParts(s, k);
    NoOpsFold(NO_VIEW, s.me, s'.snap, k);
    FoldViewAppend(NO_VIEW, s.me, s'.snap, Logged(s'), k);
    assert Stream(s') == s'.snap + Logged(s') && Logged(s') == Logged(s);
    FoldViewRow(NO_VIEW, s.me, Stream(s), k);
    FoldViewRow(NO_VIEW, s.me, Stream(s'), k);
  }

  // ---- reboot ----

  /** What a crash leaves of the log: the hits ahead of the row stay there, and without the row they
      are what the next owner of the code inherits. */
  lemma RebootOrder(r: Trace, victims: seq<Code>, early: bool, k: Code)
    requires FilesOk(r.s, k) && EarlyOk(r, early, k) && Enabled(r, Reboot(victims))
    ensures OrderOk(Do(r, Reboot(victims), k), early, k)
    ensures Do(r, Reboot(victims), k).inherited == if RowFold(None, Disk(r.s), k).Some? then 0 else AheadOfRow(r.s, k)
  {
    var s, s' := r.s, Do(r, Reboot(victims), k).s;
    assert Stream(s') == Disk(s) && Logged(s') == s.log;
    RowCountAppend(s.log, s.buf, k);
    FoldViewRow(NO_VIEW, s.me, Disk(s), k);
    if RowRecorded(s', k) {
      RecordedOnDisk(s, k);
    } else {
      LostRow(s, k);
    }
  }

  lemma RecordedOnDisk(s: Store, k: Code)
    requires FilesOk(s, k) && RowFold(None, Disk(s), k).Some?
    ensures RowRecorded(s, k) && AheadOfRow(s, k) == Waited(SnapView(s, k), s.me, s.log, k)
  {
    StreamParts(s, k);
    FoldViewAppend(NO_VIEW, s.me, s.snap, s.log, k);
    FoldViewRow(NO_VIEW, s.me, Disk(s), k);
    var v := FoldView(SnapView(s, k), s.me, s.log, k);
    WaitedAppend(SnapView(s, k), s.me, s.log, s.buf, k);
    NothingWaits(v, s.me, s.buf, k);
    RowFoldAppend(None, Disk(s), s.buf, k);
    FoldViewRow(v, s.me, s.buf, k);
  }

  /** The row was lost with the queue: the hits ahead of it are all on disk. */
  lemma LostRow(s: Store, k: Code)
    requires FilesOk(s, k) && RowFold(None, Disk(s), k).None?
    ensures AheadOfRow(s, k) == OwnCount(s.me, Disk(s), k)
  {
    StreamParts(s, k);
    FoldViewRow(NO_VIEW, s.me, Disk(s), k);
    FoldViewAppend(NO_VIEW, s.me, s.snap, s.log, k);
    FoldViewAppend(NO_VIEW, s.me, Disk(s), s.buf, k);
    RowCountFold(Disk(s), k);
    RowCountAppend(s.snap, s.log, k);
    RowCountAppend(s.log, s.buf, k);
    WaitedAppend(SnapView(s, k), s.me, s.log, s.buf, k);
    NoRowArrives(SnapView(s, k), s.me, s.log, k);
    MintArrives(FoldView(NO_VIEW, s.me, Disk(s), k), s.me, s.buf, k);
    if !RowRecorded(s, k) {
      NoRowArrives(SnapView(s, k), s.me, Logged(s), k);
    }
  }

  // ---- whole runs ----

  lemma MutationOrder(r: Trace, e: Event, early: bool, k: Code)
    requires Fine(r, k) && OrderOk(r, early, k) && Enabled(r, e) && Clean(Do(r, e, k))
    requires e.Insert? || e.Update? || e.Remove?
    ensures OrderOk(Do(r, e, k), early, k)
  {
    var s := r.s;
    match e
    case Insert(t, c, u, now, ttl) =>
      MutateOrder(r, t, c, Mint(s.mem, s.me, c, u, now, ttl), MintOp(s.me, c, u, now, ttl), early, k);
    case Update(t, c, u, now, ttl, hasTtl) =>
      MutateOrder(r, t, c, Updated(s.mem, c, u, now, ttl, hasTtl),
        UpdateOp(s.mem, s.me, c, u, now, ttl, hasTtl), early, k);
    case Remove(t, c) => MutateOrder(r, t, c, Removed(s.mem, c), Del(c), early, k);
  }

  /** Events that move no record. */
  predicate MovesNoRecord(e: Event) {
    e.Bump? || e.Count? || e.FlushOpen? || e.FlushDrain? || e.Lock? || e.DrainOne?
  }

  lemma QuietOrder(r: Trace, e: Event, early: bool, k: Code)
    requires OrderOk(r, early, k) && Enabled(r, e) && MovesNoRecord(e)
    ensures OrderOk(Do(r, e, k), early, k)
  {
    SameOrder(r, Do(r, e, k), early, k);
  }

  lemma FilesOrder(r: Trace, e: Event, early: bool, k: Code)
    requires Fine(r, k) && OrderOk(r, early, k) && Enabled(r, e) && (e.Rename? || e.Truncate?)
    ensures OrderOk(Do(r, e, k), !FilesReplaced(r, e, k) && early, k)
  {
    if e.Rename? {
      RenameOrder(r, early, k);
    } else {
      TruncateOrder(r, early, k);
    }
  }

  lemma RecordOrder(r: Trace, e: Event, early: bool, k: Code)
    requires Fine(r, k) && OrderOk(r, early, k) && Enabled(r, e)
    requires e.Push? || e.Sync? || e.WriteAll? || e.Copy?
    ensures OrderOk(Do(r, e, k), early, k)
  {
    match e
    case Push(t) => PushOrder(r, t, early, k);
    case Sync => SyncOrder(r, early, k);
    case WriteAll => WriteAllOrder(r, early, k);
    case Copy(c) => CopyOrder(r, c, early, k);
  }

  lemma OrderStep(r: Trace, e: Event, early: bool, k: Code)
    requires Fine(r, k) && OrderOk(r, early, k) && Enabled(r, e) && Clean(Do(r, e, k))
    ensures OrderOk(Do(r, e, k), !FilesReplaced(r, e, k) && (early || FlushesEarly(r, e, k)), k)
  {
    if MovesNoRecord(e) {
      QuietOrder(r, e, early, k);
    } else if e.FlushPush? {
      FlushPushOrder(r, e.f, early, k);
    } else if e.Rename? || e.Truncate? {
      FilesOrder(r, e, early, k);
    } else if e.Reboot? {
      RebootOrder(r, e.victims, early, k);
    } else if e.Insert? || e.Update? || e.Remove? {
      MutationOrder(r, e, early, k);
    } else {
      RecordOrder(r, e, early, k);
    }
  }

  lemma FineRun(me: int, es: seq<Event>, k: Code)
    requires 0 <= me < MAX_INSTANCES && Clean(Run(me, es, k))
    ensures Fine(Run(me, es, k), k)
  {
    HitInvRun(me, es, k);
    DeltasPositive(me, es, k);
    UnknownRun(me, es, k);
  }

  /** In every run the hits that a replay sees ahead of the row are there exactly when some were
      flushed early since the files were last replaced. */
  lemma {:induction false} OrderRun(me: int, es: seq<Event>, k: Code)
    requires 0 <= me < MAX_INSTANCES && Clean(Run(me, es, k))
    ensures OrderOk(Run(me, es, k), EarlyHits(me, es, k), k)
  {
    if es == [] {
      SnapshotAlone(Start(me).s, k);
    } else {
      var r, e := Run(me, es[..|es| - 1], k), es[|es| - 1];
      CleanBefore(r, e, k);
      OrderRun(me, es[..|es| - 1], k);
      FineRun(me, es[..|es| - 1], k);
      if Enabled(r, e) {
        OrderStep(r, e, EarlyHits(me, es[..|es| - 1], k), k);
      }
    }
  }

  /** The new snapshot under the old log, against the old files. */
  lemma RefoldedFiles(r: Trace, k: Code)
    requires Fine(r, k) && FilesOk(r.s, k) && Enabled(r, Rename) && k in r.s.mem.index
    ensures var old0, new0 := OwnCount(r.s.me, Disk(r.s), k), OwnCount(r.s.me, Disk(Do(r, Rename, k).s), k);
      (new0 == old0 - AheadOfRow(r.s, k) && RowCount(r.s.log, k) == 1) ||
      (new0 >= r.base + |r.atRead| && AheadOfRow(r.s, k) == 0)
  {
    var s := r.s;
    var new0 := FoldView(NO_VIEW, s.me, s.phase.tmp, k);
    assert Stream(s) == Disk(s) && Logged(s) == s.log + [] == s.log;
    assert RowDurable(r, k) && r.pending.None?;
    StreamParts(s, k);
    FoldViewRow(NO_VIEW, s.me, s.phase.tmp, k);
    FoldViewAppend(NO_VIEW, s.me, s.phase.tmp, s.log, k);
    Refold(SnapView(s, k), new0, s.me, s.log, k);
    if RowCount(s.log, k) == 0 {
      HitsOnlyGrow(SnapView(s, k), s.me, s.log, k);
      NoRowArrives(SnapView(s, k), s.me, s.log, k);
    }
  }

  /** What the files gave back before the rename, not counting what compaction counted twice. */
  function Flushed(r: Trace): int {
    r.base + r.inherited + |r.atDrain|
  }

  /** What a crash right after the rename recovers: all hits the log held, less those ahead of the row. */
  lemma RecoveredAfterRename(r: Trace, early: bool, k: Code)
    requires Fine(r, k) && FilesOk(r.s, k) && EarlyOk(r, early, k) && Enabled(r, Rename) && k in r.s.mem.index
    ensures var recovered := OwnCount(r.s.me, Disk(Do(r, Rename, k).s), k);
      recovered == Flushed(r) + |r.over| - AheadOfRow(r.s, k) || (recovered >= Flushed(r) && AheadOfRow(r.s, k) == 0)
  {
    CopyingCounts(r, k);
    RefoldedFiles(r, k);
    SubsetSize(r.atDrain, r.atRead);
  }

  /** A crash between compact's rename and truncate recovers at least the hits that were flushed when
      compact drained the code if and only if no flush since the files were last replaced wrote a hit
      line of the code ahead of its row; otherwise it forgets exactly those early hits. */
  lemma CrashAfterRenameIff(me: int, es: seq<Event>, k: Code)
    requires 0 <= me < MAX_INSTANCES && Enabled(Run(me, es, k), Rename) && Clean(Run(me, es, k))
    requires k in Run(me, es, k).s.mem.index
    ensures var r := Run(me, es, k);
      var recovered := OwnCount(r.s.me, Disk(Do(r, Rename, k).s), k);
      (recovered >= Flushed(r) <==> !EarlyHits(me, es, k)) &&
      (EarlyHits(me, es, k) ==> recovered == Flushed(r) - AheadOfRow(r.s, k))
  {
    FineRun(me, es, k);
    OrderRun(me, es, k);
    RecoveredAfterRename(Run(me, es, k), EarlyHits(me, es, k), k);
  }

  // ---- hits that outlive their row ----

  /** The last boot found hits of `k` written early, their row lost in the crash, and no compact has
      renamed its snapshot since. */
  predicate Inherits(me: int, es: seq<Event>, k: Code) {
    es != [] &&
    var r, e := Run(me, es[..|es| - 1], k), es[|es| - 1];
    if e.Reboot? && Enabled(r, e) then EarlyHits(me, es[..|es| - 1], k) && RowFold(None, Disk(r.s), k).None?
    else !(e.Rename? && Enabled(r, e)) && Inherits(me, es[..|es| - 1], k)
  }

  /** In every run hits are recovered without their row exactly then. */
  lemma {:induction false} InheritedIff(me: int, es: seq<Event>, k: Code)
    requires 0 <= me < MAX_INSTANCES && Clean(Run(me, es, k))
    ensures var r := Run(me, es, k); r.inherited >= 0 && (r.inherited > 0 <==> Inherits(me, es, k))
  {
    OrderRun(me, es, k);
    if es != [] {
      var r, e := Run(me, es[..|es| - 1], k), es[|es| - 1];
      CleanBefore(r, e, k);
      InheritedIff(me, es[..|es| - 1], k);
      if e.Reboot? && Enabled(r, e) {
        OrderRun(me, es[..|es| - 1], k);
        RebootOrder(r, e.victims, EarlyHits(me, es[..|es| - 1], k), k);
      } else {
        SameInherited(r, e, k);
      }
    }
  }

  lemma SameInherited(r: Trace, e: Event, k: Code)
    requires !(e.Reboot? && Enabled(r, e))
    ensures Do(r, e, k).inherited == if e.Rename? && Enabled(r, e) then 0 else r.inherited
  {
  }

  /** When nothing of `k` is in flight, what a restart would count exceeds the live count by the
      resolves the last compact saw twice and the hits inherited from a lost row; so the two agree if
      and only if there are neither. */
  lemma RestartCountsIff(me: int, es: seq<Event>, k: Code)
    requires 0 <= me < MAX_INSTANCES && Clean(Run(me, es, k)) && Settled(Run(me, es, k), k)
    requires k in Run(me, es, k).s.mem.index
    ensures var r := Run(me, es, k);
      var restart := OwnCount(r.s.me, Stream(r.s), k) + DirtyOf(r.s.dirty, k);
      restart == r.s.mem.index[k].oh + |r.over| + r.inherited &&
      (restart == r.s.mem.index[k].oh <==> r.over == {} && !Inherits(me, es, k))
  {
    CompactionCounts(me, es, k);
    InheritedIff(me, es, k);
  }

  // ---- codes that nobody resolves before they are handed out ----

  /** No resolve of `k` succeeds while the record of its creation is still to be queued, as holds of
      every generated code: its caller learns it only afterwards. */
  predicate Patient(me: int, es: seq<Event>, k: Code) {
    es == [] ||
    (Patient(me, es[..|es| - 1], k) &&
     var r, e := Run(me, es[..|es| - 1], k), es[|es| - 1];
     (e.Bump? && e.c == k && Enabled(r, e) ==> r.pending.None?))
  }

  predicate NoneWhilePending(r: Trace) {
    r.pending.Some? ==> r.bumped == {} && r.base == 0
  }

  lemma PatientStep(r: Trace, e: Event, k: Code)
    requires Fine(r, k) && NoneWhilePending(r) && Enabled(r, e) && Clean(Do(r, e, k))
    requires e.Bump? && e.c == k ==> r.pending.None?
    ensures NoneWhilePending(Do(r, e, k))
  {
  }

  /** While the mint of such a code is pending nothing of it was counted. */
  lemma PendingUncounted(r: Trace, k: Code)
    requires Fine(r, k) && OrderOk(r, false, k) && NoneWhilePending(r) && r.pending.Some?
    ensures !RowRecorded(r.s, k) && !r.s.phase.Renamed? && r.base + r.inherited + |r.counted| + |r.over| == 0
  {
    assert r.counted == {} && r.over == {} && r.inherited == 0;
  }

  lemma PatientFlush(r: Trace, e: Event, k: Code)
    requires Fine(r, k) && OrderOk(r, false, k) && NoneWhilePending(r)
    ensures !FlushesEarly(r, e, k)
  {
    if e.FlushPush? && Enabled(r, e) && r.pending.Some? {
      PendingUncounted(r, k);
      NothingCounted(r, k);
    }
  }

  lemma {:induction false} PatientRun(me: int, es: seq<Event>, k: Code)
    requires 0 <= me < MAX_INSTANCES && Clean(Run(me, es, k)) && Patient(me, es, k)
    ensures NoneWhilePending(Run(me, es, k)) && !EarlyHits(me, es, k) && Run(me, es, k).inherited == 0
  {
    OrderRun(me, es, k);
    if es != [] {
      var r, e := Run(me, es[..|es| - 1], k), es[|es| - 1];
      CleanBefore(r, e, k);
      PatientRun(me, es[..|es| - 1], k);
      FineRun(me, es[..|es| - 1], k);
      OrderRun(me, es[..|es| - 1], k);
      PatientFlush(r, e, k);
      if Enabled(r, e) {
        PatientStep(r, e, k);
      }
    }
  }

  /** So for a code nobody resolves before its record is queued, whatever else happens, that crash
      never forgets a flushed hit. */
  lemma CrashAfterRenameKeepsHits(me: int, es: seq<Event>, k: Code)
    requires 0 <= me < MAX_INSTANCES && Enabled(Run(me, es, k), Rename) && Clean(Run(me, es, k))
    requires k in Run(me, es, k).s.mem.index && Patient(me, es, k)
    ensures var r := Run(me, es, k);
      OwnCount(r.s.me, Disk(Do(r, Rename, k).s), k) >= r.base + |r.atDrain|
  {
    PatientRun(me, es, k);
    CrashAfterRenameIff(me, es, k);
  }

  /** What the files give back once compact drained `k` is at least what was counted by then. */
  predicate KeepsDrained(r: Trace, k: Code) {
    (r.s.phase.Copying? || r.s.phase.Renamed?) && k in r.s.mem.index ==>
      OwnCount(r.s.me, Disk(r.s), k) >= r.base + |r.atDrain| &&
      (r.s.phase.Renamed? ==> OwnCount(r.s.me, r.s.snap, k) >= r.base + |r.atDrain|)
  }

  lemma EnabledRenamed(r: Trace, e: Event)
    requires r.s.phase.Renamed? && GateFree(r.s) && Enabled(r, e)
    ensures e.Bump? || e.Count? || e.Sync? || e.Truncate? || e.Reboot?
  {
  }

  predicate SameDisk(r: Trace, r': Trace) {
    r'.s.me == r.s.me && r'.s.snap == r.s.snap && r'.s.log == r.s.log && r'.base == r.base && r'.atDrain == r.atDrain &&
    r'.s.mem.index.Keys == r.s.mem.index.Keys
  }

  lemma CountersSameDisk(r: Trace, e: Event, k: Code)
    requires Enabled(r, e) && (e.Bump? || e.Count? || (e.Sync? && r.s.buf == []))
    ensures SameDisk(r, Do(r, e, k))
  {
  }

  /** After the rename nothing moves until the truncate. */
  lemma RenamedStays(r: Trace, e: Event, k: Code)
    requires GateInv(r, k) && r.s.phase.Renamed? && Do(r, e, k).s.phase.Renamed?
    ensures SameDisk(r, Do(r, e, k))
  {
    if Enabled(r, e) {
      EnabledRenamed(r, e);
      CountersSameDisk(r, e, k);
    }
  }

  lemma RenamedSnapshot(me: int, es: seq<Event>, k: Code)
    requires 0 <= me < MAX_INSTANCES && Enabled(Run(me, es, k), Rename) && Clean(Run(me, es, k))
    requires k in Run(me, es, k).s.mem.index
    ensures var r := Run(me, es, k); OwnCount(r.s.me, Do(r, Rename, k).s.snap, k) >= r.base + |r.atDrain|
  {
    OvercountIsTheOverlap(me, es, k);
    var r := Run(me, es, k);
    SubsetSize(r.atDrain, r.atRead);
  }

  lemma EntersRenamed(r: Trace, e: Event, k: Code)
    requires !r.s.phase.Renamed? && Do(r, e, k).s.phase.Renamed?
    ensures e == Rename && Enabled(r, e)
  {
  }

  lemma {:induction false} KeepsDrainedRun(me: int, es: seq<Event>, k: Code)
    requires 0 <= me < MAX_INSTANCES && Clean(Run(me, es, k)) && Patient(me, es, k)
    ensures KeepsDrained(Run(me, es, k), k)
  {
    var r' := Run(me, es, k);
    if r'.s.phase.Copying? {
      CrashWhileCopying(me, es, k);
      PatientRun(me, es, k);
    } else if r'.s.phase.Renamed? && k in r'.s.mem.index {
      var front, r, e := es[..|es| - 1], Run(me, es[..|es| - 1], k), es[|es| - 1];
      CleanBefore(r, e, k);
      RowInvRun(me, front, k);
      if r.s.phase.Renamed? {
        KeepsDrainedRun(me, front, k);
        RenamedStays(r, e, k);
      } else {
        EntersRenamed(r, e, k);
        CrashAfterRenameKeepsHits(me, front, k);
        RenamedSnapshot(me, front, k);
      }
    }
  }

  /** A crash at any point from the drain of a code to the end of compact, of a code that nobody
      resolves before its record is queued: old snapshot and log, new snapshot and log, new snapshot
      alone, each recovers every hit counted before the drain. */
  lemma CrashInCompactKeepsHits(me: int, es: seq<Event>, k: Code)
    requires 0 <= me < MAX_INSTANCES && Clean(Run(me, es, k)) && Patient(me, es, k)
    requires k in Run(me, es, k).s.mem.index
    ensures var r := Run(me, es, k);
      (r.s.phase.Copying? || r.s.phase.Renamed? ==> OwnCount(r.s.me, Disk(r.s), k) >= r.base + |r.atDrain|) &&
      (r.s.phase.Renamed? ==> OwnCount(r.s.me, Disk(Do(r, Truncate, k).s), k) >= r.base + |r.atDrain|)
  {
    KeepsDrainedRun(me, es, k);
    var r := Run(me, es, k);
    if r.s.phase.Renamed? {
      assert Disk(Do(r, Truncate, k).s) == r.s.snap + [] == r.s.snap;
    }
  }

  /** And when nothing of such a code is in flight, a restart counts what memory counts, plus what the
      last compact saw twice. */
  lemma PatientCounts(me: int, es: seq<Event>, k: Code)
    requires 0 <= me < MAX_INSTANCES && Clean(Run(me, es, k)) && Settled(Run(me, es, k), k) && Patient(me, es, k)
    requires k in Run(me, es, k).s.mem.index
    ensures var r := Run(me, es, k);
      OwnCount(r.s.me, Stream(r.s), k) + DirtyOf(r.s.dirty, k) == r.s.mem.index[k].oh + |r.over|
  {
    PatientRun(me, es, k);
    RestartCountsIff(me, es, k);
  }

  // ---- two runs in which an early hit goes astray ----

  lemma EarlyNext(me: int, es: seq<Event>, e: Event, k: Code)
    ensures Run(me, es + [e], k) == Do(Run(me, es, k), e, k)
    ensures EarlyHits(me, es + [e], k) ==
            (!FilesReplaced(Run(me, es, k), e, k) && (EarlyHits(me, es, k) || FlushesEarly(Run(me, es, k), e, k)))
  {
    RunOne(me, es, e, k);
    assert (es + [e])[..|es|] == es;
  }

  /** The instance after creating and resolving `k`, with the record still unqueued. */
  function Resolved(me: int, k: Code, u: bytes, dirty: map<Code, int>, log: seq<LogOp>, flushers: seq<Flusher>): Store {
    Store(me, Mem(map[k := Entry(u, 0, 0, me, 1, 1)], map[]), dirty, [], log, [],
          map[0 := [Row(k, u, 0, 0, me, 0)]], map[], flushers, Idle)
  }

  predicate OneHit(r: Trace) {
    r.bumped == {1} && r.counted == {1} && r.base == 0 && r.pending == Some(0) && Clean(r)
  }

  lemma FirstHit(me: int, k: Code, u: bytes) returns (r: Trace)
    ensures r == Do(Do(Do(Start(me), Insert(0, k, u, 0, 0), k), Bump(1, k, 0), k), Count(1), k)
    ensures r.s == Resolved(me, k, u, map[k := 1], [], []) && OneHit(r)
  {
    var r1 := Do(Start(me), Insert(0, k, u, 0, 0), k);
    assert [] + [Row(k, u, 0, 0, me, 0)] == [Row(k, u, 0, 0, me, 0)];
    assert Owed(Start(me).s, 0) == [];
    r := Do(Do(r1, Bump(1, k, 0), k), Count(1), k);
    assert r.s.resolving == map[];
  }

  lemma HitDrains(r: Trace, me: int, k: Code, u: bytes) returns (r': Trace)
    requires r.s == Resolved(me, k, u, map[k := 1], [], []) && OneHit(r)
    ensures r' == Do(Do(r, FlushOpen, k), FlushDrain(0, k), k)
    ensures r'.s == Resolved(me, k, u, map[], [], [Flusher(true, [Hit(k, 1, me)])]) && OneHit(r')
  {
    var r1 := Do(r, FlushOpen, k);
    assert r1.s.flushers == [Flusher(true, [])];
    r' := Do(r1, FlushDrain(0, k), k);
    assert [] + [Hit(k, 1, me)] == [Hit(k, 1, me)];
    assert r1.s.flushers[0 := Flusher(true, [Hit(k, 1, me)])] == [Flusher(true, [Hit(k, 1, me)])];
    assert r'.s.dirty == map[];
  }

  /** A code is created, resolved and its hit drained, all before its record is queued. */
  lemma HitDrained(me: int, k: Code, u: bytes) returns (es: seq<Event>)
    ensures Run(me, es, k).s == Resolved(me, k, u, map[], [], [Flusher(true, [Hit(k, 1, me)])]) &&
      OneHit(Run(me, es, k))
  {
    var es1 := [] + [Insert(0, k, u, 0, 0)];
    var es3 := es1 + [Bump(1, k, 0)] + [Count(1)];
    RunOne(me, [], Insert(0, k, u, 0, 0), k);
    RunOne(me, es1, Bump(1, k, 0), k);
    RunOne(me, es1 + [Bump(1, k, 0)], Count(1), k);
    var r := FirstHit(me, k, u);
    es := es3 + [FlushOpen] + [FlushDrain(0, k)];
    RunOne(me, es3, FlushOpen, k);
    RunOne(me, es3 + [FlushOpen], FlushDrain(0, k), k);
    var r' := HitDrains(r, me, k, u);
  }

  lemma HitLogged(r: Trace, me: int, k: Code, u: bytes) returns (r': Trace)
    requires r.s == Resolved(me, k, u, map[], [], [Flusher(true, [Hit(k, 1, me)])]) && OneHit(r)
    ensures r' == Do(r, FlushPush(0), k) && FlushesEarly(r, FlushPush(0), k)
    ensures r'.s == Resolved(me, k, u, map[], [Hit(k, 1, me)], [Flusher(false, [])]) && OneHit(r')
  {
    HitLinesSum(map[k := 1], k, me, k);
    assert HitLines(map[k := 1], k, me) == [Hit(k, 1, me)];
    r' := Do(r, FlushPush(0), k);
    assert [] + [] + [Hit(k, 1, me)] == [Hit(k, 1, me)];
    assert r.s.flushers[0 := Flusher(false, [])] == [Flusher(false, [])];
  }

  /** Its hit is flushed, still before its record is queued. */
  lemma EarlyHit(me: int, k: Code, u: bytes) returns (es: seq<Event>)
    ensures Run(me, es, k).s == Resolved(me, k, u, map[], [Hit(k, 1, me)], [Flusher(false, [])])
    ensures OneHit(Run(me, es, k)) && EarlyHits(me, es, k)
  {
    es := HitDrained(me, k, u);
    var r := HitLogged(Run(me, es, k), me, k, u);
    EarlyNext(me, es, FlushPush(0), k);
    es := es + [FlushPush(0)];
  }

  /** A run that compact can follow, with hits of `k` ahead of its row in the log. */
  predicate ReadyToCompact(me: int, es: seq<Event>, k: Code) {
    var r := Run(me, es, k);
    r.s.phase.Idle? && GateFree(r.s) && r.s.dirty == map[] && r.s.mem.index.Keys == {k} && Clean(r) &&
    EarlyHits(me, es, k)
  }

  /** Then the record is queued. */
  lemma RowAfterHit(me: int, k: Code, u: bytes) returns (es: seq<Event>)
    ensures ReadyToCompact(me, es, k)
  {
    es := EarlyHit(me, k, u);
    EarlyNext(me, es, Push(0), k);
    assert Run(me, es + [Push(0)], k).s.muts == map[];
    es := es + [Push(0)];
  }

  predicate ReadyToCopy(me: int, es: seq<Event>, k: Code) {
    var r := Run(me, es, k);
    r.s.phase == Copying([], {}) && r.s.mem.index.Keys == {k} && Clean(r) && EarlyHits(me, es, k)
  }

  lemma CompactStarts(me: int, es: seq<Event>, k: Code)
    requires ReadyToCompact(me, es, k)
    ensures ReadyToCopy(me, es + [Lock] + [WriteAll], k)
  {
    EarlyNext(me, es, Lock, k);
    EarlyNext(me, es + [Lock], WriteAll, k);
  }

  lemma RowCopied(me: int, es: seq<Event>, k: Code)
    requires ReadyToCopy(me, es, k)
    ensures var r := Run(me, es + [Copy(k)], k);
      Enabled(r, Rename) && Clean(r) && k in r.s.mem.index && EarlyHits(me, es + [Copy(k)], k)
  {
    EarlyNext(me, es, Copy(k), k);
  }

  lemma Forgets(me: int, es: seq<Event>, k: Code)
    requires 0 <= me < MAX_INSTANCES && Enabled(Run(me, es, k), Rename) && Clean(Run(me, es, k))
    requires k in Run(me, es, k).s.mem.index && EarlyHits(me, es, k)
    ensures var r := Run(me, es, k);
      OwnCount(r.s.me, Disk(Do(r, Rename, k).s), k) < Flushed(r)
  {
    CrashAfterRenameIff(me, es, k);
  }

  /** Why the order matters: there is a run in which a resolve of a code slips in before the code's
      record is queued, its hit is flushed first, and a crash between rename and truncate forgets it. */
  lemma EarlyHitForgotten(me: int, k: Code, u: bytes)
    requires 0 <= me < MAX_INSTANCES
    ensures exists es :: var r := Run(me, es, k);
      Clean(r) && Enabled(r, Rename) && OwnCount(r.s.me, Disk(Do(r, Rename, k).s), k) < Flushed(r)
  {
    var es := RowAfterHit(me, k, u);
    CompactStarts(me, es, k);
    es := es + [Lock] + [WriteAll];
    RowCopied(me, es, k);
    Forgets(me, es + [Copy(k)], k);
  }

  /** The instance after the crash: one hit in the log, no row. */
  predicate Orphaned(r: Trace, me: int, k: Code) {
    Clean(r) && r.pending.None? && r.inherited == 1 && r.base == 0 && r.bumped == r.counted == {} &&
    r.s == Store(me, r.s.mem, map[], [], [Hit(k, 1, me)], [], map[], map[], [], Idle) && r.s.mem.index == map[]
  }

  lemma RowLost(r: Trace, me: int, k: Code, u: bytes, victim: Code)
    requires r.s == Resolved(me, k, u, map[], [Hit(k, 1, me)], [Flusher(false, [])]) && OneHit(r) && victim != k
    ensures Orphaned(Do(r, Reboot([victim]), k), me, k)
  {
    var disk := [Hit(k, 1, me)];
    assert r.s.snap + r.s.log == disk && disk[..0] == [];
    assert FoldView(NO_VIEW, me, disk, k) == View(None, 1, 1);
    assert Fold(EMPTY_MEM, me, disk[..0], [victim][..0]) == EMPTY_MEM;
    assert Fold(EMPTY_MEM, me, disk, [victim]).index == map[];
  }

  /** Somebody else's hit: memory counts none, the files one. */
  predicate Inherited(r: Trace, k: Code) {
    Clean(r) && Settled(r, k) && r.bumped == {} && r.s.dirty == map[] &&
    k in r.s.mem.index && r.s.mem.index[k].oh == 0 && OwnCount(r.s.me, Stream(r.s), k) == 1
  }

  /** The code is created again and its record queued. */
  lemma CreatedAgain(r: Trace, me: int, k: Code, u: bytes)
    requires Orphaned(r, me, k)
    ensures Inherited(Do(Do(r, Insert(2, k, u, 0, 0), k), Push(2), k), k)
  {
    var op := Row(k, u, 0, 0, me, 0);
    var r1 := Do(r, Insert(2, k, u, 0, 0), k);
    assert Owed(r.s, 2) == [] && [] + [op] == [op];
    var r' := Do(r1, Push(2), k);
    assert r'.s.muts == map[];
    assert Stream(r'.s) == [Hit(k, 1, me)] + [op];
    OneInherited(me, k, u);
  }

  lemma OneInherited(me: int, k: Code, u: bytes)
    ensures OwnCount(me, [Hit(k, 1, me)] + [Row(k, u, 0, 0, me, 0)], k) == 1
  {
    FoldViewOne(NO_VIEW, me, [Hit(k, 1, me)], Row(k, u, 0, 0, me, 0), k);
    assert [Hit(k, 1, me)] == [] + [Hit(k, 1, me)];
    FoldViewOne(NO_VIEW, me, [], Hit(k, 1, me), k);
  }

  lemma RunThree(me: int, es: seq<Event>, e1: Event, e2: Event, e3: Event, k: Code)
    ensures Run(me, es + [e1] + [e2] + [e3], k) == Do(Do(Do(Run(me, es, k), e1, k), e2, k), e3, k)
  {
    RunOne(me, es, e1, k);
    RunOne(me, es + [e1], e2, k);
    RunOne(me, es + [e1] + [e2], e3, k);
  }

  lemma InheritedAfter(me: int, es: seq<Event>, k: Code, u: bytes, victim: Code)
    requires Run(me, es, k).s == Resolved(me, k, u, map[], [Hit(k, 1, me)], [Flusher(false, [])])
    requires OneHit(Run(me, es, k)) && victim != k
    ensures Inherited(Run(me, es + [Reboot([victim])] + [Insert(2, k, u, 0, 0)] + [Push(2)], k), k)
  {
    RowLost(Run(me, es, k), me, k, u, victim);
    CreatedAgain(Do(Run(me, es, k), Reboot([victim]), k), me, k, u);
    RunThree(me, es, Reboot([victim]), Insert(2, k, u, 0, 0), Push(2), k);
  }

  /** And there is a run in which a crash loses the row whose hit was flushed early, and whoever creates
      the code again starts with that hit after the next restart. */
  lemma HitInherited(me: int, k: Code, u: bytes)
    requires 0 <= me < MAX_INSTANCES
    ensures exists es :: Inherited(Run(me, es, k), k)
  {
    var es := EarlyHit(me, k, u);
    var victim := k + [0];
    assert |victim| != |k|;
    InheritedAfter(me, es, k, u, victim);
  }
}
