/** What survives: acknowledged rows and flushed hits, at every point of compact and after a crash. */
module Durability {
  import opened Bytes
  import opened Codec
  import opened Engine
  import opened Sums
  import opened Compaction
  import opened CompactionHits

  /** Every row a caller has been told about is in the files or queued for them: with no mutation
      of `k` still in flight, replaying snapshot, log and queue gives exactly the live row. */
  lemma AcknowledgedRowsSurvive(me: int, es: seq<Event>, k: Code, victims: seq<Code>)
    requires 0 <= me < MAX_INSTANCES
    requires |victims| == |Stream(Run(me, es, k).s)|
    ensures var r := Run(me, es, k);
      !r.raced && r.pending.None? ==>
        ViewOf(Fold(EMPTY_MEM, me, Stream(r.s), victims), k).row == RowNow(r.s, k)
  {
    RowInvRun(me, es, k);
    FoldRow(EMPTY_MEM, me, Stream(Run(me, es, k).s), victims, k);
  }

  function Disk(s: Store): seq<LogOp> {
    s.snap + s.log
  }

  /** From the moment compact has written the queue to its end, whatever the files hold, a crash
      recovers all live rows. */
  lemma CrashInCompactKeepsRows(me: int, es: seq<Event>, k: Code)
    requires 0 <= me < MAX_INSTANCES
    ensures var r := Run(me, es, k);
      !r.raced && (r.s.phase.Copying? || r.s.phase.Renamed?) ==>
        RowFold(None, Disk(r.s), k) == RowNow(r.s, k)
  {
    RowInvRun(me, es, k);
    var r := Run(me, es, k);
    if r.s.phase.Copying? || r.s.phase.Renamed? {
      assert Stream(r.s) == Disk(r.s);
    }
  }

  /** Old snapshot and log, new snapshot and log, new snapshot and empty log: the same rows. */
  lemma ThreeImagesAgree(me: int, es: seq<Event>, k: Code)
    requires 0 <= me < MAX_INSTANCES && Enabled(Run(me, es, k), Rename) && !Run(me, es, k).raced
    ensures var r := Run(me, es, k);
      RowFold(None, Disk(r.s), k) == RowNow(r.s, k) &&
      RowFold(None, Disk(Do(r, Rename, k).s), k) == RowNow(r.s, k) &&
      RowFold(None, Disk(Do(Do(r, Rename, k), Truncate, k).s), k) == RowNow(r.s, k)
  {
    RowInvRun(me, es, k);
    ImagesFrom(Run(me, es, k), k);
  }

  lemma ImagesFrom(r: Trace, k: Code)
    requires RowInv(r, k) && !r.raced && Enabled(r, Rename)
    ensures RowFold(None, Disk(r.s), k) == RowNow(r.s, k) &&
      RowFold(None, Disk(Do(r, Rename, k).s), k) == RowNow(r.s, k) &&
      RowFold(None, Disk(Do(Do(r, Rename, k), Truncate, k).s), k) == RowNow(r.s, k)
  {
    RowsOnDisk(r, k);
    ImagesAfterRename(r, k);
    assert Disk(Do(AfterRename(r), Truncate, k).s) == r.s.phase.tmp;
  }

  lemma ImagesAfterRename(r: Trace, k: Code)
    requires RowInv(r, k) && !r.raced && Enabled(r, Rename)
    ensures var renamed := AfterRename(r);
      RowFold(None, Disk(renamed.s), k) == RowNow(r.s, k) &&
      RowFold(None, renamed.s.snap, k) == RowNow(r.s, k)
  {
    RowInvStep(r, Rename, k);
    RowsOnDisk(Do(r, Rename, k), k);
  }

  lemma RowsOnDisk(r: Trace, k: Code)
    requires RowInv(r, k) && !r.raced && r.s.buf == [] && r.pending.None?
    ensures RowFold(None, Disk(r.s), k) == RowNow(r.s, k)
  {
    assert Stream(r.s) == Disk(r.s);
  }

  // ---- overlapping mutations ----

  /** Thread `t` changes the row of `k`. */
  predicate Mutates(r: Trace, e: Event, k: Code) {
    Enabled(r, e) && (e.Insert? || e.Update? || e.Remove?) && e.c == k
  }

  /** The record a mutation will queue. */
  function Record(r: Trace, e: Event, k: Code): LogOp
    requires Mutates(r, e, k)
  {
    match e
    case Insert(_, c, u, now, ttl) => MintOp(r.s.me, c, u, now, ttl)
    case Update(_, c, u, now, ttl, hasTtl) => UpdateOp(r.s.mem, r.s.me, c, u, now, ttl, hasTtl)
    case Remove(_, c) => Del(c)
  }

  /** The row a record leaves, whatever was there before it. */
  function Leaves(op: LogOp, k: Code): Option<LinkRow> {
    RowStep(None, op, k)
  }

  lemma MutationIs(r: Trace, e: Event, k: Code)
    requires RowInv(r, k) && Mutates(r, e, k)
    ensures var r' := Do(r, e, k);
      var op := Record(r, e, k);
      r'.s == r.s.(mem := r'.s.mem, muts := r.s.muts[e.t := Owed(r.s, e.t) + [op]]) &&
      op.Code() == k && !op.Hit? && RowNow(r'.s, k) == Leaves(op, k)
  {
    var op := Record(r, e, k);
    assert RowStep(RowNow(r.s, k), op, k) == Leaves(op, k);
  }

  /** Any further events. */
  function Steps(r: Trace, es: seq<Event>, k: Code): Trace {
    if es == [] then r else Do(Steps(r, es[..|es| - 1], k), es[|es| - 1], k)
  }

  /** An event that neither changes the row of `k`, nor queues what these two threads owe, nor ends the
      process. */
  predicate Aside(r: Trace, e: Event, k: Code, t: nat, t': nat) {
    !Mutates(r, e, k) && !e.Reboot? && (e.Push? ==> e.t != t && e.t != t')
  }

  predicate AllAside(r: Trace, es: seq<Event>, k: Code, t: nat, t': nat) {
    es == [] || (AllAside(r, es[..|es| - 1], k, t, t') && Aside(Steps(r, es[..|es| - 1], k), es[|es| - 1], k, t, t'))
  }

  /** What thread `t` owes decides the row of `k`, whatever is queued before. */
  ghost predicate Decides(s: Store, t: nat, k: Code, row: Option<LinkRow>) {
    t in s.muts && forall before :: RowFold(before, s.muts[t], k) == row
  }

  lemma MutationDecides(r: Trace, e: Event, k: Code)
    requires RowInv(r, k) && Mutates(r, e, k)
    ensures var r' := Do(r, e, k);
      var row := Leaves(Record(r, e, k), k);
      Decides(r'.s, e.t, k, row) && RowNow(r'.s, k) == row && r'.s.phase.Idle? &&
      forall t :: t in r.s.muts && t != e.t ==> t in r'.s.muts && r'.s.muts[t] == r.s.muts[t]
  {
    MutationIs(r, e, k);
    var op := Record(r, e, k);
    forall before ensures RowFold(before, Owed(r.s, e.t) + [op], k) == Leaves(op, k) {
      RowFoldOne(before, Owed(r.s, e.t), op, k);
    }
  }

  /** As long as a mutation is in flight compact cannot start, and what is owed only grows by records of
      other codes. */
  lemma AsideStep(r: Trace, e: Event, k: Code, t: nat, t': nat, owes: nat, row: Option<LinkRow>)
    requires Aside(r, e, k, t, t') && (owes == t || owes == t') && Decides(r.s, owes, k, row) && r.s.phase.Idle?
    ensures var r' := Do(r, e, k); Decides(r'.s, owes, k, row) && r'.s.phase.Idle? && RowNow(r'.s, k) == RowNow(r.s, k)
  {
    if Enabled(r, e) {
      if e.Insert? || e.Update? || e.Remove? {
        AsideMutation(r, e, k, owes, row);
      } else if e.Push? {
        AsidePush(r, e, k, owes);
      } else {
        assert e.Lock? ==> r.s.muts == map[];
        AsideMuts(r, e, k);
      }
    }
  }

  lemma AsideMutation(r: Trace, e: Event, k: Code, owes: nat, row: Option<LinkRow>)
    requires Enabled(r, e) && (e.Insert? || e.Update? || e.Remove?) && e.c != k && Decides(r.s, owes, k, row)
    ensures var r' := Do(r, e, k);
      Decides(r'.s, owes, k, row) && r'.s.phase == r.s.phase && RowNow(r'.s, k) == RowNow(r.s, k)
  {
    var op := Record(r, e, e.c);
    assert Do(r, e, k).s.muts == r.s.muts[e.t := Owed(r.s, e.t) + [op]];
    forall before ensures e.t == owes ==> RowFold(before, r.s.muts[owes] + [op], k) == row {
      if e.t == owes {
        RowFoldOne(before, r.s.muts[owes], op, k);
      }
    }
  }

  lemma AsidePush(r: Trace, e: Event, k: Code, owes: nat)
    requires Enabled(r, e) && e.Push? && e.t != owes && owes in r.s.muts
    ensures var r' := Do(r, e, k);
      owes in r'.s.muts && r'.s.muts[owes] == r.s.muts[owes] && r'.s.phase == r.s.phase && r'.s.mem == r.s.mem
  {
  }

  lemma AsideMuts(r: Trace, e: Event, k: Code)
    requires Enabled(r, e) && r.s.phase.Idle? && !e.Insert? && !e.Update? && !e.Remove? && !e.Push? && !e.Reboot? &&
      !e.Lock?
    ensures var r' := Do(r, e, k); r'.s.muts == r.s.muts && r'.s.phase.Idle? && RowNow(r'.s, k) == RowNow(r.s, k)
  {
    if e.Bump? || e.Count? {
      BumpsOnly(r, e, k);
    } else {
      EnabledIdle(r, e);
      FlushAside(r, e, k);
    }
  }

  lemma EnabledIdle(r: Trace, e: Event)
    requires Enabled(r, e) && r.s.phase.Idle?
    ensures !e.DrainOne? && !e.WriteAll? && !e.Copy? && !e.Rename? && !e.Truncate?
  {
  }

  lemma FlushAside(r: Trace, e: Event, k: Code)
    requires Enabled(r, e) && (e.FlushOpen? || e.FlushDrain? || e.FlushPush? || e.Sync?)
    ensures var r' := Do(r, e, k); r'.s.muts == r.s.muts && r'.s.phase == r.s.phase && r'.s.mem == r.s.mem
  {
  }

  lemma {:induction false} AsideSteps(r: Trace, es: seq<Event>, k: Code, t: nat, t': nat, owes: nat,
      row: Option<LinkRow>)
    requires AllAside(r, es, k, t, t') && (owes == t || owes == t') && Decides(r.s, owes, k, row) && r.s.phase.Idle?
    ensures var r' := Steps(r, es, k);
      Decides(r'.s, owes, k, row) && r'.s.phase.Idle? && RowNow(r'.s, k) == RowNow(r.s, k)
  {
    if es != [] {
      AsideSteps(r, es[..|es| - 1], k, t, t', owes, row);
      AsideStep(Steps(r, es[..|es| - 1], k), es[|es| - 1], k, t, t', owes, row);
    }
  }

  /** Queueing what is owed: the row it decides is what a replay gives. */
  lemma PushDecides(r: Trace, t: nat, k: Code, row: Option<LinkRow>)
    requires Decides(r.s, t, k, row)
    ensures RowFold(None, Stream(Do(r, Push(t), k).s), k) == row && RowNow(Do(r, Push(t), k).s, k) == RowNow(r.s, k)
  {
    var r' := Do(r, Push(t), k);
    assert Stream(r'.s) == Stream(r.s) + r.s.muts[t];
    RowFoldAppend(None, Stream(r.s), r.s.muts[t], k);
  }

  /** Two mutations, other events, two pushes with other events between them. */
  function Overlapped(r: Trace, e1: Event, m1: seq<Event>, e2: Event, m2: seq<Event>, t: nat, m3: seq<Event>, t': nat,
                      k: Code): Trace {
    Do(Steps(Do(Steps(Do(Steps(Do(r, e1, k), m1, k), e2, k), m2, k), Push(t), k), m3, k), Push(t'), k)
  }

  /** The two threads' mutations and pushes are the only events that matter to the row of `k`. */
  predicate Overlapping(r: Trace, e1: Event, m1: seq<Event>, e2: Event, m2: seq<Event>, t: nat, m3: seq<Event>, t': nat,
                        k: Code) {
    Mutates(r, e1, k) &&
    var r1 := Steps(Do(r, e1, k), m1, k);
    Mutates(r1, e2, k) && e1.t != e2.t &&
    var r2 := Steps(Do(r1, e2, k), m2, k);
    AllAside(Do(r, e1, k), m1, k, e1.t, e2.t) && AllAside(Do(r1, e2, k), m2, k, e1.t, e2.t) &&
    AllAside(Do(r2, Push(t), k), m3, k, e1.t, e2.t)
  }

  /** The second mutation leaves what the first thread owes as it is. */
  lemma BothDecide(r: Trace, r1: Trace, e1: Event, e2: Event, k: Code)
    requires RowInv(r1, k) && Mutates(r, e1, k) && Mutates(r1, e2, k) && e1.t != e2.t
    requires Decides(r1.s, e1.t, k, Leaves(Record(r, e1, k), k))
    ensures var r' := Do(r1, e2, k);
      Decides(r'.s, e1.t, k, Leaves(Record(r, e1, k), k)) && Decides(r'.s, e2.t, k, Leaves(Record(r1, e2, k), k)) &&
      r'.s.phase.Idle? && RowNow(r'.s, k) == Leaves(Record(r1, e2, k), k)
  {
    MutationDecides(r1, e2, k);
  }

  lemma {:induction false} StepsInv(r: Trace, es: seq<Event>, k: Code)
    requires RowInv(r, k)
    ensures RowInv(Steps(r, es, k), k)
  {
    if es != [] {
      StepsInv(r, es[..|es| - 1], k);
      RowInvStep(Steps(r, es[..|es| - 1], k), es[|es| - 1], k);
    }
  }

  lemma FirstPush(r: Trace, t: nat, t': nat, k: Code, row: Option<LinkRow>)
    requires t != t' && t in r.s.muts && Decides(r.s, t', k, row)
    ensures var r' := Do(r, Push(t), k); Decides(r'.s, t', k, row) && r'.s.phase == r.s.phase && r'.s.mem == r.s.mem
  {
    AsidePush(r, Push(t), k, t');
  }

  lemma LastPush(r: Trace, m: seq<Event>, t: nat, t': nat, k: Code, row: Option<LinkRow>)
    requires Decides(r.s, t', k, row) && r.s.phase.Idle? && AllAside(r, m, k, t, t')
    ensures var r' := Do(Steps(r, m, k), Push(t'), k);
      RowFold(None, Stream(r'.s), k) == row && RowNow(r'.s, k) == RowNow(r.s, k)
  {
    AsideSteps(r, m, k, t, t', t', row);
    PushDecides(Steps(r, m, k), t', k, row);
  }

  /** The two pushes: the one that comes last decides. */
  lemma LastPushDecides(r: Trace, t: nat, m: seq<Event>, t': nat, k: Code, row: Option<LinkRow>)
    requires t != t' && t in r.s.muts && Decides(r.s, t', k, row) && r.s.phase.Idle?
    requires AllAside(Do(r, Push(t), k), m, k, t, t')
    ensures var r' := Do(Steps(Do(r, Push(t), k), m, k), Push(t'), k);
      RowFold(None, Stream(r'.s), k) == row && RowNow(r'.s, k) == RowNow(r.s, k)
  {
    FirstPush(r, t, t', k, row);
    LastPush(Do(r, Push(t), k), m, t, t', k, row);
  }

  lemma AsideBoth(r: Trace, es: seq<Event>, k: Code, t: nat, t': nat, row: Option<LinkRow>, row': Option<LinkRow>)
    requires AllAside(r, es, k, t, t') && Decides(r.s, t, k, row) && Decides(r.s, t', k, row') && r.s.phase.Idle?
    ensures var r' := Steps(r, es, k);
      Decides(r'.s, t, k, row) && Decides(r'.s, t', k, row') && r'.s.phase.Idle? && RowNow(r'.s, k) == RowNow(r.s, k)
  {
    AsideSteps(r, es, k, t, t', t, row);
    AsideSteps(r, es, k, t, t', t', row');
  }

  lemma {:induction false} AsideSwap(r: Trace, es: seq<Event>, k: Code, t: nat, t': nat)
    requires AllAside(r, es, k, t, t')
    ensures AllAside(r, es, k, t', t)
  {
    if es != [] {
      AsideSwap(r, es[..|es| - 1], k, t, t');
    }
  }

  /** Both mutations made, neither record queued. */
  lemma InFlight(r: Trace, e1: Event, m1: seq<Event>, e2: Event, m2: seq<Event>, t: nat, m3: seq<Event>, t': nat,
      k: Code)
    requires RowInv(r, k) && Overlapping(r, e1, m1, e2, m2, t, m3, t', k)
    ensures var r1 := Steps(Do(r, e1, k), m1, k);
      var r2 := Steps(Do(r1, e2, k), m2, k);
      Decides(r2.s, e1.t, k, Leaves(Record(r, e1, k), k)) && Decides(r2.s, e2.t, k, Leaves(Record(r1, e2, k), k)) &&
      r2.s.phase.Idle? && RowNow(r2.s, k) == Leaves(Record(r1, e2, k), k)
  {
    MutationDecides(r, e1, k);
    RowInvStep(r, e1, k);
    AsideSteps(Do(r, e1, k), m1, k, e1.t, e2.t, e1.t, Leaves(Record(r, e1, k), k));
    StepsInv(Do(r, e1, k), m1, k);
    var r1 := Steps(Do(r, e1, k), m1, k);
    BothDecide(r, r1, e1, e2, k);
    AsideBoth(Do(r1, e2, k), m2, k, e1.t, e2.t, Leaves(Record(r, e1, k), k), Leaves(Record(r1, e2, k), k));
  }

  /** In any reachable state let two threads change the row of `k` one after the other, before either has
      queued its record, while any number of other events go on: other codes change, other threads queue
      what they owe, hits are counted and flushed. Queued in the order of the mutations, the records
      replay to the live row. Queued in the other order they do so if and only if both leave the same
      row: otherwise a restart serves the row that lost. */
  lemma OverlapDecides(me: int, es: seq<Event>, k: Code, e1: Event, m1: seq<Event>, e2: Event, m2: seq<Event>,
                       t: nat, m3: seq<Event>, t': nat)
    requires 0 <= me < MAX_INSTANCES && Overlapping(Run(me, es, k), e1, m1, e2, m2, t, m3, t', k)
    requires (t == e1.t && t' == e2.t) || (t == e2.t && t' == e1.t)
    ensures var r := Run(me, es, k);
      var r' := Overlapped(r, e1, m1, e2, m2, t, m3, t', k);
      RowFold(None, Stream(r'.s), k) == RowNow(r'.s, k) <==>
        t == e1.t || Leaves(Record(r, e1, k), k) == Leaves(Record(Steps(Do(r, e1, k), m1, k), e2, k), k)
  {
    var r := Run(me, es, k);
    RowInvRun(me, es, k);
    InFlight(r, e1, m1, e2, m2, t, m3, t', k);
    var r1 := Steps(Do(r, e1, k), m1, k);
    var r2 := Steps(Do(r1, e2, k), m2, k);
    if t == e1.t {
      LastPushDecides(r2, t, m3, t', k, Leaves(Record(r1, e2, k), k));
    } else {
      AsideSwap(Do(r2, Push(t), k), m3, k, e1.t, e2.t);
      LastPushDecides(r2, t, m3, t', k, Leaves(Record(r, e1, k), k));
    }
  }

  /** Two updates by different threads that both find the row just minted. */
  lemma TwoUpdates(r: Trace, k: Code, u: bytes, u': bytes)
    requires r.s.phase.Idle? && r.s.muts == map[] && k in r.s.mem.index && u != u'
    requires var en := r.s.mem.index[k]; en.i == r.s.me && en.a == 0 && en.e == 0
    ensures var e1, e2 := Update(1, k, u, 0, 0, false), Update(2, k, u', 0, 0, false);
      Overlapping(r, e1, [], e2, [], 2, [], 1, k) &&
      Leaves(Record(r, e1, k), k) != Leaves(Record(Do(r, e1, k), e2, k), k) &&
      Overlapped(r, e1, [], e2, [], 2, [], 1, k).s.muts == map[]
  {
    var e1, e2 := Update(1, k, u, 0, 0, false), Update(2, k, u', 0, 0, false);
    var r1 := Do(r, e1, k);
    assert Record(r, e1, k) == Row(k, u, 0, 0, r.s.me, 0);
    assert Record(r1, e2, k) == Row(k, u', 0, 0, r.s.me, 0);
    var r2 := Do(r1, e2, k);
    assert r2.s.muts.Keys == {1, 2};
  }

  lemma RunFour(me: int, es: seq<Event>, e1: Event, e2: Event, t: nat, t': nat, k: Code)
    ensures Run(me, es + [e1] + [e2] + [Push(t)] + [Push(t')], k) ==
            Overlapped(Run(me, es, k), e1, [], e2, [], t, [], t', k)
  {
    RunOne(me, es, e1, k);
    RunOne(me, es + [e1], e2, k);
    RunOne(me, es + [e1] + [e2], Push(t), k);
    RunOne(me, es + [e1] + [e2] + [Push(t)], Push(t'), k);
  }

  /** Nothing is in flight, and a restart would not serve the live row. */
  predicate LosesRow(r: Trace, k: Code) {
    r.s.muts == map[] && RowFold(None, Stream(r.s), k) != RowNow(r.s, k)
  }

  lemma SwappedRun(me: int, es: seq<Event>, k: Code, e1: Event, e2: Event)
    requires 0 <= me < MAX_INSTANCES
    requires var r := Run(me, es, k);
      Mutates(r, e1, k) && Mutates(Do(r, e1, k), e2, k) &&
      Overlapping(r, e1, [], e2, [], e2.t, [], e1.t, k) &&
      Leaves(Record(r, e1, k), k) != Leaves(Record(Do(r, e1, k), e2, k), k) &&
      Overlapped(r, e1, [], e2, [], e2.t, [], e1.t, k).s.muts == map[]
    ensures LosesRow(Run(me, es + [e1] + [e2] + [Push(e2.t)] + [Push(e1.t)], k), k)
  {
    OverlapDecides(me, es, k, e1, [], e2, [], e2.t, [], e1.t);
    RunFour(me, es, e1, e2, e2.t, e1.t, k);
  }

  /** So two updates of one code can leave the log with the row that lost. */
  lemma OverlappingUpdatesReorder(me: int, k: Code, u: bytes, u': bytes)
    requires 0 <= me < MAX_INSTANCES && u != u'
    ensures exists es :: LosesRow(Run(me, es, k), k)
  {
    var es := MintRun(me, k, u);
    var e1, e2 := Update(1, k, u, 0, 0, false), Update(2, k, u', 0, 0, false);
    TwoUpdates(Run(me, es, k), k, u, u');
    SwappedRun(me, es, k, e1, e2);
  }

  lemma MintRun(me: int, k: Code, u: bytes) returns (es: seq<Event>)
    requires 0 <= me < MAX_INSTANCES
    ensures var s := Run(me, es, k).s;
      s.phase.Idle? && s.muts == map[] && s.me == me && k in s.mem.index && s.mem.index[k] == Entry(u, 0, 0, me, 0, 0)
  {
    es := [] + [Insert(0, k, u, 0, 0)] + [Push(0)];
    RunOne(me, [], Insert(0, k, u, 0, 0), k);
    RunOne(me, [] + [Insert(0, k, u, 0, 0)], Push(0), k);
    var r := Minted(me, k, u);
  }

  lemma Minted(me: int, k: Code, u: bytes) returns (r: Trace)
    requires 0 <= me < MAX_INSTANCES
    ensures r == Do(Do(Start(me), Insert(0, k, u, 0, 0), k), Push(0), k)
    ensures r.s == Store(me, Mem(map[k := Entry(u, 0, 0, me, 0, 0)], map[]), map[], [Row(k, u, 0, 0, me, 0)], [], [],
                         map[], map[], [], Idle)
    ensures r.pending.None? && !r.raced
  {
    var op := Row(k, u, 0, 0, me, 0);
    var r1 := Do(Start(me), Insert(0, k, u, 0, 0), k);
    assert [] + [op] == [op] && Owed(Start(me).s, 0) == [];
    r := Do(r1, Push(0), k);
    assert r.s.muts == map[];
  }

  lemma RunOne(me: int, es: seq<Event>, e: Event, k: Code)
    ensures Run(me, es + [e], k) == Do(Run(me, es, k), e, k)
  {
    assert (es + [e])[..|es|] == es;
  }

  // ---- hits ----

  /** Nothing of `k` is in flight: no compact, no resolve between its bumps, no drained line. */
  predicate Settled(r: Trace, k: Code) {
    r.s.phase.Idle? && r.bumped == r.counted && GateFree(r.s)
  }

  lemma SettledCounts(r: Trace, k: Code)
    requires CountsOk(r, k) && Settled(r, k)
    ensures k in r.s.mem.index ==> r.s.mem.index[k].oh == r.base + |r.bumped|
    ensures r.over <= r.bumped && (!r.overlapped ==> r.over == {})
    ensures OwnCount(r.s.me, Stream(r.s), k) + DirtyOf(r.s.dirty, k) == r.base + r.inherited + |r.bumped| + |r.over|
  {
    HeldClosed(r, k);
  }

  /** Compaction never undercounts, and overcounts by exactly the resolves whose first bump came
      before the snapshot read and whose second came after the drain. The live counter is exact
      throughout; when no resolve of `k` overlapped the last compact, so is the durable one, but for
      the hits of a row that a crash lost. */
  lemma CompactionCounts(me: int, es: seq<Event>, k: Code)
    requires 0 <= me < MAX_INSTANCES
    ensures var r := Run(me, es, k);
      Clean(r) && Settled(r, k) ==>
        (k in r.s.mem.index ==> r.s.mem.index[k].oh == r.base + |r.bumped|) &&
        r.over <= r.bumped && (!r.overlapped ==> r.over == {}) &&
        OwnCount(r.s.me, Stream(r.s), k) + DirtyOf(r.s.dirty, k) == r.base + r.inherited + |r.bumped| + |r.over|
  {
    HitInvRun(me, es, k);
    if Clean(Run(me, es, k)) && Settled(Run(me, es, k), k) {
      SettledCounts(Run(me, es, k), k);
    }
  }

  lemma CopyingCounts(r: Trace, k: Code)
    requires RowInv(r, k) && CountsOk(r, k) && r.s.phase.Copying?
    ensures OwnCount(r.s.me, Disk(r.s), k) == r.base + r.inherited + |r.atDrain| + |r.over|
  {
    HeldClosed(r, k);
    assert Stream(r.s) == Disk(r.s);
  }

  /** A crash while compact copies rows recovers every hit counted before it drained the code, and
      beyond these only what the files held too many before. */
  lemma CrashWhileCopying(me: int, es: seq<Event>, k: Code)
    requires 0 <= me < MAX_INSTANCES && Run(me, es, k).s.phase.Copying? && Clean(Run(me, es, k))
    ensures var r := Run(me, es, k);
      OwnCount(r.s.me, Disk(r.s), k) == r.base + r.inherited + |r.atDrain| + |r.over|
  {
    HitInvRun(me, es, k);
    CopyingCounts(Run(me, es, k), k);
  }

  /** The double-counted tickets, spelled out at the moment the snapshot is renamed. */
  lemma OvercountIsTheOverlap(me: int, es: seq<Event>, k: Code)
    requires 0 <= me < MAX_INSTANCES && Enabled(Run(me, es, k), Rename) && Clean(Run(me, es, k))
    ensures var r := Run(me, es, k);
      var r' := Do(r, Rename, k);
      r'.over == (set t | t in r.atRead && t !in r.atDrain) &&
      (k in r.s.mem.index ==> r.atDrain <= r.atRead <= r.bumped) &&
      OwnCount(r.s.me, r'.s.snap, k) == r.base + |r.atRead|
  {
    HitInvRun(me, es, k);
    var r := Run(me, es, k);
    if k !in r.s.phase.copied {
      NoOpsFold(NO_VIEW, r.s.me, r.s.phase.tmp, k);
    }
  }
}
