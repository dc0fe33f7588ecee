/** Threads of one instance interleaving with compaction. Every lock-delimited step of the code is
    one event: an index change and the log push that follows it, the two bumps of a resolve, the
    drain and the write of a flush, and each stage of compact. */
module Compaction {
  import opened Bytes
  import opened Codec
  import opened Engine
  import opened Sums

  /** A flush thread: it holds the gate while open, with the hit lines it has drained so far. */
  datatype Flusher = Flusher(open: bool, lines: seq<LogOp>)

  /** Where compact is; it holds the gate exclusively unless Idle. */
  datatype Phase =
    | Idle
    | Draining(done: set<Code>, lines: seq<LogOp>)
    | Copying(tmp: seq<LogOp>, copied: set<Code>)
    | Renamed

  /** The instance: memory, unflushed hits, queued records, log and snapshot files; mutators that
      changed the index and have not queued their records yet; resolves between their two bumps. */
  datatype Store = Store(me: int, mem: Mem, dirty: map<Code, int>, buf: seq<LogOp>,
                         log: seq<LogOp>, snap: seq<LogOp>,
                         muts: map<nat, seq<LogOp>>, resolving: map<nat, Code>,
                         flushers: seq<Flusher>, phase: Phase)

  /** History of one code `k`. Resolves are known by their ticket: `bumped` made their first bump,
      `counted` both; `atDrain` and `atRead` are the two sets when the running compaction drained
      and copied `k`; `over` is what the last finished compaction double-counts. The last boot
      recovered `base` own hits with the row of `k`, or `inherited` own hits without it, which wait
      for whoever creates `k` next until compact drops them. */
  datatype Trace = Trace(s: Store, base: int, inherited: int, bumped: set<nat>, counted: set<nat>,
                         atDrain: set<nat>, atRead: set<nat>, over: set<nat>,
                         pending: Option<nat>, overlap: bool, overlapped: bool,
                         touched: bool, raced: bool, evicted: bool)

  datatype Event =
    | Insert(t: nat, c: Code, u: bytes, now: int, ttl: int)
    | Update(t: nat, c: Code, u: bytes, now: int, ttl: int, hasTtl: bool)
    | Remove(t: nat, c: Code)
    | Push(t: nat)
    | Bump(t: nat, c: Code, now: int)
    | Count(t: nat)
    | FlushOpen
    | FlushDrain(f: nat, c: Code)
    | FlushPush(f: nat)
    | Sync
    | Lock
    | DrainOne(c: Code)
    | WriteAll
    | Copy(c: Code)
    | Rename
    | Truncate
    | Reboot(victims: seq<Code>)

  predicate GateFree(s: Store) {
    s.muts == map[] && forall f :: 0 <= f < |s.flushers| ==> !s.flushers[f].open
  }

  predicate Enabled(r: Trace, e: Event) {
    var s := r.s;
    match e
    case Insert(_, c, _, _, _) => s.phase.Idle? && c !in s.mem.index
    case Update(_, c, _, _, _, _) => s.phase.Idle? && MayMutate(s.mem, s.me, c) == Done
    case Remove(_, c) => s.phase.Idle? && MayMutate(s.mem, s.me, c) == Done
    case Push(t) => t in s.muts
    case Bump(t, c, now) =>
      t !in s.resolving && t !in r.bumped && c in s.mem.index && Unexpired(s.mem.index[c], now)
    case Count(t) => t in s.resolving
    case FlushOpen => s.phase.Idle?
    case FlushDrain(f, c) => f < |s.flushers| && s.flushers[f].open && c in s.dirty
    case FlushPush(f) => f < |s.flushers| && s.flushers[f].open
    case Sync => true
    case Lock => s.phase.Idle? && GateFree(s)
    case DrainOne(c) => s.phase.Draining? && c !in s.phase.done
    case WriteAll => s.phase.Draining? && s.dirty.Keys <= s.phase.done
    case Copy(c) => s.phase.Copying? && c in s.mem.index && c !in s.phase.copied
    case Rename => s.phase.Copying? && s.phase.copied == s.mem.index.Keys
    case Truncate => s.phase.Renamed?
    case Reboot(victims) => |victims| == |s.snap + s.log|
  }

  function Owed(s: Store, t: nat): seq<LogOp> {
    if t in s.muts then s.muts[t] else []
  }

  /** A mutation of `c` by thread `t` that will queue `op`. */
  function Mutate(r: Trace, t: nat, c: Code, mem: Mem, op: LogOp, k: Code): Trace {
    var s := r.s.(mem := mem, muts := r.s.muts[t := Owed(r.s, t) + [op]]);
    if c != k then r.(s := s)
    else r.(s := s, pending := Some(t), raced := r.raced || r.pending.Some?)
  }

  function HitLines(dirty: map<Code, int>, c: Code, me: int): seq<LogOp> {
    if c in dirty then [Hit(c, dirty[c], me)] else []
  }

  function AfterPush(r: Trace, t: nat): Trace
    requires t in r.s.muts
  {
    r.(s := r.s.(buf := r.s.buf + r.s.muts[t], muts := r.s.muts - {t}),
       pending := if r.pending == Some(t) then None else r.pending)
  }

  function AfterBump(r: Trace, t: nat, c: Code, k: Code): Trace
    requires c in r.s.mem.index
  {
    r.(s := r.s.(mem := CountHit(r.s.mem, c), resolving := r.s.resolving[t := c]),
       bumped := if c == k then r.bumped + {t} else r.bumped,
       overlap := r.overlap || (c == k && !r.s.phase.Idle?))
  }

  function AfterCount(r: Trace, t: nat, k: Code): Trace
    requires t in r.s.resolving
  {
    r.(s := r.s.(dirty := Dirtied(r.s.dirty, r.s.resolving[t]), resolving := r.s.resolving - {t}),
       counted := if r.s.resolving[t] == k then r.counted + {t} else r.counted)
  }

  function AfterFlushDrain(s: Store, f: nat, c: Code): Store
    requires f < |s.flushers|
  {
    var lines := s.flushers[f].lines + HitLines(s.dirty, c, s.me);
    s.(dirty := s.dirty - {c}, flushers := s.flushers[f := Flusher(true, lines)])
  }

  function AfterFlushPush(s: Store, f: nat): Store
    requires f < |s.flushers|
  {
    s.(log := s.log + s.buf + s.flushers[f].lines, buf := [], flushers := s.flushers[f := Flusher(false, [])])
  }

  function AfterDrainOne(r: Trace, c: Code, k: Code): Trace
    requires r.s.phase.Draining?
  {
    var phase := Draining(r.s.phase.done + {c}, r.s.phase.lines + HitLines(r.s.dirty, c, r.s.me));
    r.(s := r.s.(dirty := r.s.dirty - {c}, phase := phase), atDrain := if c == k then r.counted else r.atDrain)
  }

  function AfterWriteAll(r: Trace, k: Code): Trace
    requires r.s.phase.Draining?
  {
    r.(s := r.s.(log := r.s.log + r.s.buf + r.s.phase.lines, buf := [], phase := Copying([], {})),
       atDrain := if k in r.s.phase.done then r.atDrain else r.counted, atRead := {})
  }

  function AfterCopy(r: Trace, c: Code, k: Code): Trace
    requires r.s.phase.Copying? && c in r.s.mem.index
  {
    var phase := Copying(r.s.phase.tmp + [SnapshotRow(c, r.s.mem.index[c])], r.s.phase.copied + {c});
    r.(s := r.s.(phase := phase), atRead := if c == k then r.bumped else r.atRead)
  }

  function AfterRename(r: Trace): Trace
    requires r.s.phase.Copying?
  {
    r.(s := r.s.(snap := r.s.phase.tmp, phase := Renamed), over := r.atRead - r.atDrain, overlapped := r.overlap,
       inherited := 0)
  }

  /** A new process boots from the files; all volatile state is gone. */
  function AfterReboot(r: Trace, victims: seq<Code>, k: Code): Trace
    requires |victims| == |r.s.snap + r.s.log|
  {
    var disk := r.s.snap + r.s.log;
    var v := FoldView(NO_VIEW, r.s.me, disk, k);
    Trace(Store(r.s.me, Fold(EMPTY_MEM, r.s.me, disk, victims), map[], [], r.s.log, r.s.snap, map[], map[], [], Idle),
          if v.row.Some? then v.oh else 0, if v.row.Some? then 0 else v.oh, {}, {}, {}, {}, {}, None, false, false,
          r.touched, r.raced, r.evicted || k in victims)
  }

  /** One event, with the history of code `k`; an event that is not enabled changes nothing. */
  function Do(r: Trace, e: Event, k: Code): Trace {
    if !Enabled(r, e) then r
    else
      match e
      case Insert(t, c, u, now, ttl) =>
        Mutate(r, t, c, Mint(r.s.mem, r.s.me, c, u, now, ttl), MintOp(r.s.me, c, u, now, ttl), k)
      case Update(t, c, u, now, ttl, hasTtl) =>
        Mutate(r, t, c, Updated(r.s.mem, c, u, now, ttl, hasTtl), UpdateOp(r.s.mem, r.s.me, c, u, now, ttl, hasTtl), k)
          .(touched := r.touched || c == k)
      case Remove(t, c) => Mutate(r, t, c, Removed(r.s.mem, c), Del(c), k).(touched := r.touched || c == k)
      case Push(t) => AfterPush(r, t)
      case Bump(t, c, _) => AfterBump(r, t, c, k)
      case Count(t) => AfterCount(r, t, k)
      case FlushOpen => r.(s := r.s.(flushers := r.s.flushers + [Flusher(true, [])]))
      case FlushDrain(f, c) => r.(s := AfterFlushDrain(r.s, f, c))
      case FlushPush(f) => r.(s := AfterFlushPush(r.s, f))
      case Sync => r.(s := r.s.(log := r.s.log + r.s.buf, buf := []))
      case Lock => r.(s := r.s.(phase := Draining({}, [])), overlap := r.bumped != r.counted)
      case DrainOne(c) => AfterDrainOne(r, c, k)
      case WriteAll => AfterWriteAll(r, k)
      case Copy(c) => AfterCopy(r, c, k)
      case Rename => AfterRename(r)
      case Truncate => r.(s := r.s.(buf := [], log := [], phase := Idle))
      case Reboot(victims) => AfterReboot(r, victims, k)
  }

  function Start(me: int): Trace {
    Trace(Store(me, EMPTY_MEM, map[], [], [], [], map[], map[], [], Idle),
          0, 0, {}, {}, {}, {}, {}, None, false, false, false, false, false)
  }

  function Run(me: int, es: seq<Event>, k: Code): Trace {
    if es == [] then Start(me) else Do(Run(me, es[..|es| - 1], k), es[|es| - 1], k)
  }

  // ---- rows ----

  /** The records a replay would see if everything queued reached the disk. */
  function Stream(s: Store): seq<LogOp> {
    s.snap + s.log + s.buf
  }

  function PendingOps(r: Trace): seq<LogOp> {
    match r.pending
    case None => []
    case Some(t) => Owed(r.s, t)
  }

  function RowNow(s: Store, k: Code): Option<LinkRow> {
    ViewOf(s.mem, k).row
  }

  /** Replaying everything queued, then the one record of `k` still in flight, gives the live row. */
  predicate RowDurable(r: Trace, k: Code) {
    RowFold(RowFold(None, Stream(r.s), k), PendingOps(r), k) == RowNow(r.s, k)
  }

  /** The snapshot being written holds the live rows of the codes copied so far. */
  predicate CopyOk(s: Store, k: Code) {
    s.phase.Copying? ==>
      s.phase.copied <= s.mem.index.Keys &&
      RowFold(None, s.phase.tmp, k) == if k in s.phase.copied then RowNow(s, k) else None
  }

  /** The instance id fits the 32-bit field rows carry. */
  predicate RowFits(row: Option<LinkRow>) {
    row.Some? ==> AsI32(row.value.i) == row.value.i
  }

  predicate GateInv(r: Trace, k: Code) {
    var s := r.s;
    0 <= s.me < MAX_INSTANCES && RowFits(RowNow(s, k)) &&
    (forall f :: 0 <= f < |s.flushers| ==> Silent(s.flushers[f].lines, k)) &&
    (s.phase.Draining? ==> Silent(s.phase.lines, k)) &&
    (!s.phase.Idle? ==> GateFree(s)) &&
    (s.phase.Copying? || s.phase.Renamed? ==> s.buf == []) &&
    (forall t :: t in s.muts && r.pending != Some(t) && !r.raced ==> Silent(s.muts[t], k)) &&
    (r.pending.Some? ==> r.pending.value in s.muts)
  }

  predicate RowInv(r: Trace, k: Code) {
    GateInv(r, k) && CopyOk(r.s, k) &&
    (r.s.phase.Renamed? ==> RowFold(None, r.s.snap, k) == RowNow(r.s, k)) &&
    (!r.raced ==> RowDurable(r, k))
  }

  /** Moving records along the stream changes nothing. */
  lemma StreamSplit(r: Trace, k: Code)
    ensures RowFold(None, Stream(r.s), k) == RowFold(RowFold(RowFold(None, r.s.snap, k), r.s.log, k), r.s.buf, k)
  {
    RowFoldAppend(None, r.s.snap, r.s.log, k);
    RowFoldAppend(None, r.s.snap + r.s.log, r.s.buf, k);
  }

  lemma MutateRows(r: Trace, t: nat, c: Code, mem: Mem, op: LogOp, k: Code)
    requires RowInv(r, k) && r.s.phase.Idle? && op.Code() == c && !op.Hit?
    requires ViewOf(mem, k).row == RowStep(RowNow(r.s, k), op, k) && RowFits(ViewOf(mem, k).row)
    ensures RowInv(Mutate(r, t, c, mem, op, k), k)
  {
    MutateGate(r, t, c, mem, op, k);
    if !Mutate(r, t, c, mem, op, k).raced {
      MutateDurable(r, t, c, mem, op, k);
    }
  }

  lemma MutateGate(r: Trace, t: nat, c: Code, mem: Mem, op: LogOp, k: Code)
    requires GateInv(r, k) && r.s.phase.Idle? && op.Code() == c && RowFits(ViewOf(mem, k).row)
    ensures GateInv(Mutate(r, t, c, mem, op, k), k)
  {
    var r' := Mutate(r, t, c, mem, op, k);
    if c != k && r.pending != Some(t) && !r.raced {
      assert Silent(Owed(r.s, t), k);
      SilentAppend(Owed(r.s, t), op, k);
    }
    assert GateFree(r.s) || r.s.phase.Idle?;
  }

  lemma SilentAppend(ops: seq<LogOp>, op: LogOp, k: Code)
    requires Silent(ops, k) && op.Code() != k
    ensures Silent(ops + [op], k)
  {
  }

  lemma MutateDurable(r: Trace, t: nat, c: Code, mem: Mem, op: LogOp, k: Code)
    requires RowInv(r, k) && op.Code() == c && !Mutate(r, t, c, mem, op, k).raced
    requires ViewOf(mem, k).row == RowStep(RowNow(r.s, k), op, k)
    ensures RowDurable(Mutate(r, t, c, mem, op, k), k)
  {
    assert !r.raced && (c == k ==> r.pending.None?);
    if c == k {
      assert Silent(Owed(r.s, t), k);
      MutateMine(r, t, mem, op, k);
    } else {
      MutateOther(r, t, c, mem, op, k);
    }
  }

  lemma MutateMine(r: Trace, t: nat, mem: Mem, op: LogOp, k: Code)
    requires RowDurable(r, k) && r.pending.None? && Silent(Owed(r.s, t), k)
    requires ViewOf(mem, k).row == RowStep(RowNow(r.s, k), op, k)
    ensures RowDurable(Mutate(r, t, k, mem, op, k), k)
  {
    var r' := Mutate(r, t, k, mem, op, k);
    assert Stream(r'.s) == Stream(r.s) && PendingOps(r') == Owed(r.s, t) + [op];
    MineDurable(RowFold(None, Stream(r.s), k), Owed(r.s, t), op, k);
  }

  lemma MutateOther(r: Trace, t: nat, c: Code, mem: Mem, op: LogOp, k: Code)
    requires RowDurable(r, k) && op.Code() == c && c != k
    requires ViewOf(mem, k).row == RowNow(r.s, k)
    ensures RowDurable(Mutate(r, t, c, mem, op, k), k)
  {
    var r' := Mutate(r, t, c, mem, op, k);
    assert Stream(r'.s) == Stream(r.s);
    if r.pending == Some(t) {
      RowFoldOne(RowFold(None, Stream(r.s), k), Owed(r.s, t), op, k);
      assert PendingOps(r') == PendingOps(r) + [op];
    } else {
      assert PendingOps(r') == PendingOps(r);
    }
  }

  lemma MineDurable(before: Option<LinkRow>, owed: seq<LogOp>, op: LogOp, k: Code)
    requires Silent(owed, k)
    ensures RowFold(before, owed + [op], k) == RowStep(before, op, k)
  {
    RowFoldOne(before, owed, op, k);
    SilentRow(before, owed, k);
  }

  lemma PushRows(r: Trace, t: nat, k: Code)
    requires RowInv(r, k) && Enabled(r, Push(t))
    ensures RowInv(Do(r, Push(t), k), k)
  {
    var r' := Do(r, Push(t), k);
    assert Stream(r'.s) == Stream(r.s) + r.s.muts[t];
    RowFoldAppend(None, Stream(r.s), r.s.muts[t], k);
    if !r.raced && r.pending != Some(t) {
      SilentRow(RowFold(None, Stream(r.s), k), r.s.muts[t], k);
    }
  }

  /** Hit lines reach the log: no row changes. */
  lemma Appended(s: Store, s': Store, lines: seq<LogOp>, k: Code)
    requires Silent(lines, k) && Stream(s') == Stream(s) + lines
    ensures RowFold(None, Stream(s'), k) == RowFold(None, Stream(s), k)
  {
    RowFoldAppend(None, Stream(s), lines, k);
    SilentRow(RowFold(None, Stream(s), k), lines, k);
  }

  lemma FlushPushGate(r: Trace, f: nat, k: Code)
    requires GateInv(r, k) && Enabled(r, FlushPush(f))
    ensures GateInv(Do(r, FlushPush(f), k), k)
  {
  }

  lemma FlushPushRows(r: Trace, f: nat, k: Code)
    requires RowInv(r, k) && Enabled(r, FlushPush(f))
    ensures RowInv(Do(r, FlushPush(f), k), k)
  {
    FlushPushGate(r, f, k);
    var r' := Do(r, FlushPush(f), k);
    assert Stream(r'.s) == Stream(r.s) + r.s.flushers[f].lines;
    Appended(r.s, r'.s, r.s.flushers[f].lines, k);
    assert r.s.phase.Idle? && PendingOps(r') == PendingOps(r);
  }

  lemma WriteAllRows(r: Trace, k: Code)
    requires RowInv(r, k) && Enabled(r, WriteAll)
    ensures RowInv(Do(r, WriteAll, k), k)
  {
    var r' := Do(r, WriteAll, k);
    assert Stream(r'.s) == Stream(r.s) + r.s.phase.lines;
    Appended(r.s, r'.s, r.s.phase.lines, k);
  }

  lemma SyncRows(r: Trace, k: Code)
    requires RowInv(r, k)
    ensures RowInv(Do(r, Sync, k), k)
  {
    var r' := Do(r, Sync, k);
    assert Stream(r'.s) == Stream(r.s);
  }

  lemma CopyRows(r: Trace, c: Code, k: Code)
    requires RowInv(r, k) && Enabled(r, Copy(c))
    ensures RowInv(Do(r, Copy(c), k), k)
  {
    RowFoldOne(None, r.s.phase.tmp, SnapshotRow(c, r.s.mem.index[c]), k);
  }

  /** The new snapshot followed by the old log replays to the live rows. */
  lemma RenameRows(r: Trace, k: Code)
    requires RowInv(r, k) && Enabled(r, Rename)
    ensures RowInv(Do(r, Rename, k), k)
  {
    var r' := Do(r, Rename, k);
    StreamSplit(r, k);
    StreamSplit(r', k);
    RowFoldForgets(RowFold(None, r.s.snap, k), RowNow(r.s, k), r.s.log, k);
  }

  lemma TruncateRows(r: Trace, k: Code)
    requires RowInv(r, k) && Enabled(r, Truncate)
    ensures RowInv(Do(r, Truncate, k), k)
  {
    var r' := Do(r, Truncate, k);
    assert Stream(r'.s) == r.s.snap;
  }

  lemma {:induction false} FoldRowFits(row: Option<LinkRow>, ops: seq<LogOp>, k: Code)
    requires RowFits(row)
    ensures RowFits(RowFold(row, ops, k))
  {
    if ops != [] {
      FoldRowFits(row, ops[..|ops| - 1], k);
    }
  }

  lemma RebootRows(r: Trace, victims: seq<Code>, k: Code)
    requires RowInv(r, k) && Enabled(r, Reboot(victims))
    ensures RowInv(Do(r, Reboot(victims), k), k)
  {
    var disk := r.s.snap + r.s.log;
    FoldRow(EMPTY_MEM, r.s.me, disk, victims, k);
    FoldRowFits(None, disk, k);
    assert Stream(Do(r, Reboot(victims), k).s) == disk;
  }

  lemma MutationRows(r: Trace, e: Event, k: Code)
    requires RowInv(r, k) && Enabled(r, e) && (e.Insert? || e.Update? || e.Remove?)
    ensures RowInv(Do(r, e, k), k)
  {
    var s := r.s;
    match e
    case Insert(t, c, u, now, ttl) =>
      MutateRows(r, t, c, Mint(s.mem, s.me, c, u, now, ttl), MintOp(s.me, c, u, now, ttl), k);
    case Update(t, c, u, now, ttl, hasTtl) =>
      MutateRows(r, t, c, Updated(s.mem, c, u, now, ttl, hasTtl), UpdateOp(s.mem, s.me, c, u, now, ttl, hasTtl), k);
    case Remove(t, c) => MutateRows(r, t, c, Removed(s.mem, c), Del(c), k);
  }

  lemma GateRows(r: Trace, e: Event, k: Code)
    requires RowInv(r, k) && Enabled(r, e) && (e.FlushOpen? || e.Lock?)
    ensures RowInv(Do(r, e, k), k)
  {
    assert PendingOps(Do(r, e, k)) == PendingOps(r);
  }

  lemma RowInvStep(r: Trace, e: Event, k: Code)
    requires RowInv(r, k)
    ensures RowInv(Do(r, e, k), k)
  {
    if Enabled(r, e) {
      match e
      case Insert(_, _, _, _, _) => MutationRows(r, e, k);
      case Update(_, _, _, _, _, _) => MutationRows(r, e, k);
      case Remove(_, _) => MutationRows(r, e, k);
      case Push(t) => PushRows(r, t, k);
      case FlushPush(f) => FlushPushRows(r, f, k);
      case WriteAll => WriteAllRows(r, k);
      case Sync => SyncRows(r, k);
      case Copy(c) => CopyRows(r, c, k);
      case Rename => RenameRows(r, k);
      case Truncate => TruncateRows(r, k);
      case Reboot(victims) => RebootRows(r, victims, k);
      case Bump(_, _, _) => BumpsOnly(r, e, k); SameRows(r, Do(r, e, k), k);
      case Count(_) => BumpsOnly(r, e, k); SameRows(r, Do(r, e, k), k);
      case FlushOpen => GateRows(r, e, k);
      case FlushDrain(_, _) => DrainingRows(r, e, k);
      case Lock => GateRows(r, e, k);
      case DrainOne(_) => DrainingRows(r, e, k);
    }
  }

  /** The two bumps of a resolve touch no row and no file. */
  lemma BumpsOnly(r: Trace, e: Event, k: Code)
    requires Enabled(r, e) && (e.Bump? || e.Count?)
    ensures OnlyCounters(r, Do(r, e, k), k)
  {
  }

  predicate OnlyCounters(r: Trace, r': Trace, k: Code) {
    SameFiles(r.s, r'.s) && r'.pending == r.pending && r'.raced == r.raced &&
    RowNow(r'.s, k) == RowNow(r.s, k) && r'.s.mem.index.Keys == r.s.mem.index.Keys
  }

  predicate SameFiles(s: Store, s': Store) {
    s'.me == s.me && s'.buf == s.buf && s'.log == s.log && s'.snap == s.snap &&
    s'.muts == s.muts && s'.flushers == s.flushers && s'.phase == s.phase
  }

  lemma SameRows(r: Trace, r': Trace, k: Code)
    requires RowInv(r, k) && OnlyCounters(r, r', k)
    ensures RowInv(r', k)
  {
  }

  lemma DrainingRows(r: Trace, e: Event, k: Code)
    requires RowInv(r, k) && Enabled(r, e) && (e.FlushDrain? || e.DrainOne?)
    ensures RowInv(Do(r, e, k), k)
  {
    var r' := Do(r, e, k);
    assert RowNow(r'.s, k) == RowNow(r.s, k) && Stream(r'.s) == Stream(r.s) && r'.s.muts == r.s.muts;
  }

  lemma {:induction false} RowInvRun(me: int, es: seq<Event>, k: Code)
    requires 0 <= me < MAX_INSTANCES
    ensures RowInv(Run(me, es, k), k)
  {
    if es != [] {
      RowInvRun(me, es[..|es| - 1], k);
      RowInvStep(Run(me, es[..|es| - 1], k), es[|es| - 1], k);
    }
  }
}
