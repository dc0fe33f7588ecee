/** From bytes to live rows: in every run the bytes of the snapshot, the log and the queue decode to
    the records the replay folds, and these give back what memory holds. */
module DurableBytes {
  import opened Bytes
  import opened Codec
  import opened Aof
  import opened Engine
  import opened Times
  import opened Sums
  import opened Compaction
  import opened CompactionHits
  import opened Durability
  import X = CrashHits

  // ---- what the callers and the machine must respect ----

  /** What the API lets through: acceptable codes, urls that are strings, 64-bit times. */
  predicate InputOk(e: Event) {
    match e
    case Insert(_, c, u, now, ttl) => CodeOk(c) && ValidUtf8(u) && IsI64(now) && IsI64(ExpiryAt(now, ttl))
    case Update(_, _, u, now, ttl, hasTtl) => ValidUtf8(u) && (hasTtl ==> IsI64(ExpiryAt(now, ttl)))
    case _ => true
  }

  /** No hit counter has outgrown its 64 bits. */
  predicate CountersFit(s: Store) {
    (forall c :: c in s.mem.index ==> IsI64(s.mem.index[c].oh)) &&
    (forall c :: c in s.dirty ==> IsI64(s.dirty[c]))
  }

  predicate Orderly(me: int, es: seq<Event>, k: Code) {
    es == [] ||
    (Orderly(me, es[..|es| - 1], k) && CountersFit(Run(me, es[..|es| - 1], k).s) && InputOk(es[|es| - 1]))
  }

  // ---- every record on its way to a file can be printed ----

  predicate EntryOk(c: Code, en: Entry) {
    CodeOk(c) && ValidUtf8(en.u) && IsI64(en.a) && IsI64(en.e) && IsI64(en.i)
  }

  predicate IndexOk(m: Mem) {
    forall c :: c in m.index ==> EntryOk(c, m.index[c])
  }

  predicate PipesOk(s: Store) {
    AllLoggable(PhaseLines(s)) && (s.phase.Copying? ==> AllLoggable(s.phase.tmp)) &&
    (forall t :: t in s.muts ==> AllLoggable(s.muts[t])) &&
    (forall f :: 0 <= f < |s.flushers| ==> AllLoggable(s.flushers[f].lines)) &&
    (forall c :: c in s.dirty ==> CodeOk(c)) && (forall t :: t in s.resolving ==> CodeOk(s.resolving[t]))
  }

  predicate FilesPrintable(s: Store) {
    AllLoggable(s.snap) && AllLoggable(s.log) && AllLoggable(s.buf)
  }

  predicate Printable(s: Store) {
    0 <= s.me < MAX_INSTANCES && IndexOk(s.mem) && PipesOk(s) && FilesPrintable(s)
  }

  lemma ApplyIndexOk(m: Mem, me: int, op: LogOp, victim: Code)
    requires IndexOk(m) && Loggable(op)
    ensures IndexOk(Apply(m, me, op, victim))
  {
  }

  lemma {:induction false} FoldIndexOk(m: Mem, me: int, ops: seq<LogOp>, victims: seq<Code>)
    requires |victims| == |ops| && IndexOk(m) && AllLoggable(ops)
    ensures IndexOk(Fold(m, me, ops, victims))
  {
    if ops != [] {
      var p := |ops| - 1;
      FoldIndexOk(m, me, ops[..p], victims[..p]);
      ApplyIndexOk(Fold(m, me, ops[..p], victims[..p]), me, ops[p], victims[p]);
    }
  }

  lemma OwedPrintable(s: Store, t: nat, op: LogOp)
    requires PipesOk(s) && Loggable(op)
    ensures AllLoggable(Owed(s, t) + [op])
  {
    assert AllLoggable(Owed(s, t));
  }

  lemma MutatePrintable(r: Trace, t: nat, c: Code, mem: Mem, op: LogOp, k: Code)
    requires Printable(r.s) && IndexOk(mem) && Loggable(op)
    ensures Printable(Mutate(r, t, c, mem, op, k).s)
  {
    OwedPrintable(r.s, t, op);
  }

  lemma MutationPrintable(r: Trace, e: Event, k: Code)
    requires Printable(r.s) && Enabled(r, e) && InputOk(e) && (e.Insert? || e.Update? || e.Remove?)
    ensures Printable(Do(r, e, k).s)
  {
    var s := r.s;
    match e
    case Insert(t, c, u, now, ttl) =>
      MutatePrintable(r, t, c, Mint(s.mem, s.me, c, u, now, ttl), MintOp(s.me, c, u, now, ttl), k);
    case Update(t, c, u, now, ttl, hasTtl) =>
      assert EntryOk(c, s.mem.index[c]);
      MutatePrintable(r, t, c, Updated(s.mem, c, u, now, ttl, hasTtl),
        UpdateOp(s.mem, s.me, c, u, now, ttl, hasTtl), k);
    case Remove(t, c) =>
      assert EntryOk(c, s.mem.index[c]);
      MutatePrintable(r, t, c, Removed(s.mem, c), Del(c), k);
  }

  lemma DrainPrintable(r: Trace, e: Event, k: Code)
    requires Printable(r.s) && CountersFit(r.s) && Enabled(r, e) && (e.FlushDrain? || e.DrainOne?)
    ensures Printable(Do(r, e, k).s)
  {
    assert AllLoggable(HitLines(r.s.dirty, e.c, r.s.me));
  }

  lemma CopyPrintable(r: Trace, c: Code, k: Code)
    requires Printable(r.s) && CountersFit(r.s) && Enabled(r, Copy(c))
    ensures Printable(Do(r, Copy(c), k).s)
  {
    assert EntryOk(c, r.s.mem.index[c]);
    assert Loggable(SnapshotRow(c, r.s.mem.index[c]));
  }

  lemma RebootPrintable(r: Trace, victims: seq<Code>, k: Code)
    requires Printable(r.s) && Enabled(r, Reboot(victims))
    ensures Printable(Do(r, Reboot(victims), k).s)
  {
    FoldIndexOk(EMPTY_MEM, r.s.me, r.s.snap + r.s.log, victims);
  }

  lemma BumpPrintable(r: Trace, e: Event, k: Code)
    requires Printable(r.s) && Enabled(r, e) && (e.Bump? || e.Count?)
    ensures Printable(Do(r, e, k).s)
  {
    if e.Bump? {
      assert EntryOk(e.c, r.s.mem.index[e.c]);
    }
  }

  lemma MovePrintable(r: Trace, e: Event, k: Code)
    requires Printable(r.s) && Enabled(r, e)
    requires e.Push? || e.FlushOpen? || e.FlushPush? || e.Sync? || e.Lock? || e.WriteAll? || e.Rename? || e.Truncate?
    ensures Printable(Do(r, e, k).s)
  {
  }

  lemma PrintableStep(r: Trace, e: Event, k: Code)
    requires Printable(r.s) && CountersFit(r.s) && InputOk(e)
    ensures Printable(Do(r, e, k).s)
  {
    if Enabled(r, e) {
      if e.Insert? || e.Update? || e.Remove? {
        MutationPrintable(r, e, k);
      } else if e.FlushDrain? || e.DrainOne? {
        DrainPrintable(r, e, k);
      } else if e.Bump? || e.Count? {
        BumpPrintable(r, e, k);
      } else if e.Copy? {
        CopyPrintable(r, e.c, k);
      } else if e.Reboot? {
        RebootPrintable(r, e.victims, k);
      } else {
        MovePrintable(r, e, k);
      }
    }
  }

  lemma {:induction false} PrintableRun(me: int, es: seq<Event>, k: Code)
    requires 0 <= me < MAX_INSTANCES && Orderly(me, es, k)
    ensures Printable(Run(me, es, k).s)
  {
    if es != [] {
      PrintableRun(me, es[..|es| - 1], k);
      PrintableStep(Run(me, es[..|es| - 1], k), es[|es| - 1], k);
    }
  }

  // ---- durable refinement on bytes ----

  function SnapBytes(s: Store): bytes {
    EncodeLog(s.snap)
  }

  /** The log file, and behind it what is queued for it. */
  function LogBytes(s: Store): bytes {
    EncodeLog(s.log) + EncodeLog(s.buf)
  }

  /** What a boot reads from a snapshot and a log file. */
  function ReadBack(snap: bytes, log: bytes): seq<LogOp> {
    FileOps(snap) + FileOps(log)
  }

  lemma LogDecodes(log: seq<LogOp>, buf: seq<LogOp>)
    requires AllLoggable(log) && AllLoggable(buf)
    ensures FileOps(EncodeLog(log) + EncodeLog(buf)) == log + buf
  {
    EncodeAppend(log, buf);
    LogRoundTrip(log + buf);
  }

  lemma BytesDecode(s: Store)
    requires FilesPrintable(s)
    ensures ReadBack(SnapBytes(s), LogBytes(s)) == Stream(s)
  {
    LogRoundTrip(s.snap);
    LogDecodes(s.log, s.buf);
    StreamParts(s);
  }

  lemma StreamParts(s: Store)
    ensures Stream(s) == s.snap + (s.log + s.buf)
  {
  }

  lemma CountsOnDisk(me: int, es: seq<Event>, k: Code)
    requires 0 <= me < MAX_INSTANCES
    ensures var r := Run(me, es, k);
      Clean(r) && Settled(r, k) && k in r.s.mem.index ==>
        OwnCount(r.s.me, Stream(r.s), k) + DirtyOf(r.s.dirty, k) == r.s.mem.index[k].oh + |r.over| + r.inherited &&
        (r.inherited > 0 <==> X.Inherits(me, es, k)) && (X.Patient(me, es, k) ==> r.inherited == 0)
  {
    var r := Run(me, es, k);
    if Clean(r) && Settled(r, k) && k in r.s.mem.index {
      X.RestartCountsIff(me, es, k);
      X.InheritedIff(me, es, k);
      if X.Patient(me, es, k) {
        X.PatientRun(me, es, k);
      }
    }
  }

  /** In every run with acceptable inputs: the bytes of the files and the queue decode to the records
      recorded; folding those gives exactly the live row once the mutation of `k` has returned, and
      with the unflushed hits the live own count, plus the resolves the last compaction saw twice, plus
      the hits inherited from a row lost in a crash, of which there are none unless somebody resolves
      the code before its record is queued. */
  lemma DurableOnBytes(me: int, es: seq<Event>, k: Code, victims: seq<Code>)
    requires 0 <= me < MAX_INSTANCES && Orderly(me, es, k)
    requires |victims| == |Stream(Run(me, es, k).s)|
    ensures var r := Run(me, es, k);
      var records := ReadBack(SnapBytes(r.s), LogBytes(r.s));
      records == Stream(r.s) &&
      (!r.raced && r.pending.None? ==>
        ViewOf(Fold(EMPTY_MEM, me, records, victims), k).row == RowNow(r.s, k)) &&
      (Clean(r) && Settled(r, k) && k in r.s.mem.index ==>
        OwnCount(r.s.me, records, k) + DirtyOf(r.s.dirty, k) == r.s.mem.index[k].oh + |r.over| + r.inherited &&
        (r.inherited > 0 <==> X.Inherits(me, es, k)) && (X.Patient(me, es, k) ==> r.inherited == 0))
  {
    PrintableRun(me, es, k);
    BytesDecode(Run(me, es, k).s);
    AcknowledgedRowsSurvive(me, es, k, victims);
    CountsOnDisk(me, es, k);
  }

  /** A crash that leaves any number of bytes of what was written or queued: a boot reads the
      snapshot and exactly the records that were completed. */
  lemma TornReplay(me: int, es: seq<Event>, k: Code, cut: nat)
    requires 0 <= me < MAX_INSTANCES && Orderly(me, es, k) && cut <= |LogBytes(Run(me, es, k).s)|
    ensures var s := Run(me, es, k).s;
      ReadBack(SnapBytes(s), LogBytes(s)[..cut]) == s.snap + (s.log + s.buf)[..Completed(s.log + s.buf, cut)]
  {
    PrintableRun(me, es, k);
    var s := Run(me, es, k).s;
    LogRoundTrip(s.snap);
    EncodeAppend(s.log, s.buf);
    TornLogRecovery(s.log + s.buf, cut);
  }
}
