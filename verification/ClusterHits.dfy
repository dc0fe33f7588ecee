/** Hit counts across the cluster: nothing is counted twice and nothing is forgotten. */
module ClusterHits {
  import opened Bytes
  import opened Codec
  import opened Engine
  import opened Cluster
  import opened Sums

  // ---- at most one row, and no hit before it ----

  /** `k` was minted only by its prefix owner and never updated or removed. */
  predicate Plain(w: World) {
    !w.foreign && !w.touched
  }

  function OwnLog(ns: seq<Node>, o: int): seq<LogOp> {
    if 0 <= o < |ns| then ns[o].log else []
  }

  function OwnAll(ns: seq<Node>, o: int): seq<LogOp> {
    if 0 <= o < |ns| then ns[o].log + ns[o].buf else []
  }

  /** Until the row is durable at its owner `o` no hit is durable anywhere and no sibling holds
      one; until it is queued the owner holds none. */
  predicate HitsFollowRow(ns: seq<Node>, k: Code, o: int) {
    RowCount(OwnAll(ns, o), k) <= 1 &&
    (RowCount(OwnLog(ns, o), k) == 0 ==> forall j :: 0 <= j < |ns| ==> NothingDurable(ns[j], j, k, o)) &&
    (RowCount(OwnAll(ns, o), k) == 0 && 0 <= o < |ns| ==> NothingHeld(ns[o], k))
  }

  predicate NothingDurable(d: Node, j: nat, k: Code, o: int) {
    NoHits(d.log, k) && (j != o ==> NothingHeld(d, k))
  }

  predicate NothingHeld(d: Node, k: Code) {
    NoHits(d.buf, k) && k !in d.dirty
  }

  predicate PlainInv(w: World, k: Code) {
    RowInv(w, k) && (Plain(w) ==> HitsFollowRow(w.nodes, k, Owner(k)))
  }

  lemma LogsHaveNoDels(w: World, j: nat, k: Code)
    requires RowInv(w, k) && !w.touched && j < |w.nodes|
    ensures NoDels(w.nodes[j].log, k) && NoDels(w.nodes[j].buf, k)
  {
    assert LogOk(w, j, k);
  }

  /** An instance that has the row got it from the owner's durable log, or is the owner. */
  lemma RowComesFromOwner(w: World, i: nat, k: Code)
    requires RowInv(w, k) && Plain(w) && i < |w.nodes|
    ensures ViewOf(w.nodes[i].mem, k).row.Some? ==>
      RowCount(if i == Owner(k) then OwnAll(w.nodes, Owner(k)) else OwnLog(w.nodes, Owner(k)), k) > 0
    ensures i == Owner(k) && w.nodes[i].live && ViewOf(w.nodes[i].mem, k).row.None? ==>
      RowCount(OwnAll(w.nodes, Owner(k)), k) == 0
  {
    assert RowOk(w, i, k);
    if 0 <= Owner(k) < |w.nodes| {
      var o: nat := Owner(k);
      LogsHaveNoDels(w, o, k);
      var part := Known(w.nodes, i, o);
      assert NoDels(part, k);
      RowCountFold(part, k);
      RowCountAppend(w.nodes[o].log, w.nodes[o].buf, k);
      if !(i == o && w.nodes[i].live) {
        RowCountPrefix(w.nodes[o].log, w.nodes[i].seen[o], k);
      }
    }
  }

  lemma PlainInvStep(w: World, e: Event, k: Code)
    requires PlainInv(w, k)
    ensures PlainInv(Do(w, e, k), k)
  {
    RowInvStep(w, e, k);
    if Enabled(w, e) && Plain(Do(w, e, k)) {
      match e
      case Shorten(_, _, _, _, _) => PlainShorten(w, e, k);
      case Resolve(_, _, _, _) => PlainResolve(w, e, k);
      case Drain(_, _) => PlainDrain(w, e, k);
      case Write(_) => PlainWrite(w, e, k);
      case Update(_, _, _, _, _, _) => PlainOther(w, e, k);
      case Remove(_, _) => PlainOther(w, e, k);
      case Tail(_, _, _) =>
      case Crash(_) => PlainCrash(w, e, k);
      case Replay(_, _) =>
      case Boot(_) =>
    }
  }

  /** Queueing one record: a hit line only for a dirty code, a row only for a code without one. */
  predicate MayQueue(ns: seq<Node>, m: nat, d: Node, op: LogOp, k: Code, o: int)
    requires m < |ns|
  {
    d.log == ns[m].log && d.buf == ns[m].buf + [op] &&
    (k in d.dirty ==> k in ns[m].dirty) && (op.Hit? && op.h == k ==> k in ns[m].dirty) &&
    (op.Row? && op.c == k ==> m != o || RowCount(OwnAll(ns, o), k) == 0)
  }

  lemma OwnerQueueFollows(ns: seq<Node>, m: nat, d: Node, op: LogOp, k: Code, o: int)
    requires HitsFollowRow(ns, k, o) && m < |ns| && MayQueue(ns, m, d, op, k, o) && m == o
    ensures HitsFollowRow(ns[m := d], k, o)
  {
    RowCountQueued(ns[m].log, ns[m].buf, op, k);
    var ns' := ns[m := d];
    assert OwnLog(ns', o) == OwnLog(ns, o) && OwnAll(ns', o) == ns[m].log + (ns[m].buf + [op]);
    if RowCount(OwnLog(ns, o), k) == 0 {
      assert NothingDurable(ns[m], m, k, o);
      forall j | 0 <= j < |ns'|
        ensures NothingDurable(ns'[j], j, k, o)
      {
        assert NothingDurable(ns[j], j, k, o);
      }
    }
  }

  lemma RowCountQueued(log: seq<LogOp>, buf: seq<LogOp>, op: LogOp, k: Code)
    ensures RowCount(log + (buf + [op]), k) == RowCount(log + buf, k) + (if op.Row? && op.c == k then 1 else 0)
  {
    assert log + (buf + [op]) == (log + buf) + [op];
    RowCountOne(log + buf, op, k);
  }

  lemma SiblingQueueFollows(ns: seq<Node>, m: nat, d: Node, op: LogOp, k: Code, o: int)
    requires HitsFollowRow(ns, k, o) && m < |ns| && MayQueue(ns, m, d, op, k, o) && m != o
    ensures HitsFollowRow(ns[m := d], k, o)
  {
    assert OwnAll(ns[m := d], o) == OwnAll(ns, o) && OwnLog(ns[m := d], o) == OwnLog(ns, o);
  }

  lemma QueueFollows(ns: seq<Node>, m: nat, d: Node, op: LogOp, k: Code, o: int)
    requires HitsFollowRow(ns, k, o) && m < |ns| && MayQueue(ns, m, d, op, k, o)
    ensures HitsFollowRow(ns[m := d], k, o)
  {
    if m == o {
      OwnerQueueFollows(ns, m, d, op, k, o);
    } else {
      SiblingQueueFollows(ns, m, d, op, k, o);
    }
  }

  lemma PlainShorten(w: World, e: Event, k: Code)
    requires PlainInv(w, k) && e.Shorten? && Enabled(w, e) && Plain(Do(w, e, k))
    ensures HitsFollowRow(Do(w, e, k).nodes, k, Owner(k))
  {
    if e.c == k {
      RowComesFromOwner(w, e.i, k);
    }
    QueueFollows(w.nodes, e.i, Do(w, e, k).nodes[e.i], MintOp(e.i, e.c, e.u, e.now, e.ttl), k, Owner(k));
  }

  lemma PlainResolve(w: World, e: Event, k: Code)
    requires PlainInv(w, k) && e.Resolve? && Enabled(w, e) && Plain(Do(w, e, k))
    ensures HitsFollowRow(Do(w, e, k).nodes, k, Owner(k))
  {
    if e.c == k {
      RowComesFromOwner(w, e.i, k);
      if 0 <= Owner(k) < |w.nodes| {
        RowCountAppend(w.nodes[Owner(k)].log, w.nodes[Owner(k)].buf, k);
      }
    }
  }

  lemma PlainDrain(w: World, e: Event, k: Code)
    requires PlainInv(w, k) && e.Drain? && Enabled(w, e) && Plain(Do(w, e, k))
    ensures HitsFollowRow(Do(w, e, k).nodes, k, Owner(k))
  {
    QueueFollows(w.nodes, e.i, Do(w, e, k).nodes[e.i], Hit(e.c, w.nodes[e.i].dirty[e.c], e.i), k, Owner(k));
  }

  lemma PlainWrite(w: World, e: Event, k: Code)
    requires PlainInv(w, k) && e.Write? && Enabled(w, e) && Plain(Do(w, e, k))
    ensures HitsFollowRow(Do(w, e, k).nodes, k, Owner(k))
  {
    var ns, ns' := w.nodes, Do(w, e, k).nodes;
    if e.i == Owner(k) {
      assert ns'[e.i].log + ns'[e.i].buf == OwnAll(ns, Owner(k));
      RowCountAppend(ns[e.i].log, ns[e.i].buf, k);
    }
  }

  lemma PlainOther(w: World, e: Event, k: Code)
    requires PlainInv(w, k) && (e.Update? || e.Remove?) && Enabled(w, e) && Plain(Do(w, e, k))
    ensures HitsFollowRow(Do(w, e, k).nodes, k, Owner(k))
  {
    var d := Do(w, e, k).nodes[e.i];
    QueueFollows(w.nodes, e.i, d, d.buf[|w.nodes[e.i].buf|], k, Owner(k));
  }

  lemma PlainCrash(w: World, e: Event, k: Code)
    requires PlainInv(w, k) && e.Crash? && Enabled(w, e) && Plain(Do(w, e, k))
    ensures HitsFollowRow(Do(w, e, k).nodes, k, Owner(k))
  {
    var ns, ns' := w.nodes, Do(w, e, k).nodes;
    if e.i == Owner(k) {
      assert OwnAll(ns', Owner(k)) == OwnLog(ns, Owner(k));
      RowCountAppend(ns[e.i].log, ns[e.i].buf, k);
    }
  }

  // ---- hit counts ----

  function Contributions(ns: seq<Node>, i: nat, k: Code): seq<int>
    requires Shape(ns) && i < |ns|
  {
    seq(|ns|, j requires 0 <= j < |ns| => HitSum(Known(ns, i, j), k))
  }

  /** Instance `i` counts exactly the hits in the records it has folded, plus its unflushed own. */
  predicate HitOk(ns: seq<Node>, i: nat, k: Code)
    requires Shape(ns) && i < |ns|
  {
    var v := ViewOf(ns[i].mem, k);
    Tidy(ns[i].mem, k) &&
    v.h == Sum(Contributions(ns, i, k)) + DirtyOf(ns[i].dirty, k) &&
    v.oh == HitSum(Known(ns, i, i), k) + DirtyOf(ns[i].dirty, k)
  }

  /** No history event broke `k`'s counts. */
  predicate Clean(w: World) {
    Plain(w) && !w.evicted
  }

  predicate HitInv(w: World, k: Code) {
    PlainInv(w, k) &&
    (Clean(w) ==> forall i :: 0 <= i < |w.nodes| ==> HitOk(w.nodes, i, k)) &&
    Sum(Ledger(w.nodes, k)) == w.total - w.lost
  }

  /** What each instance has logged, queued or not yet logged of `k`'s hits. */
  function Ledger(ns: seq<Node>, k: Code): (s: seq<int>)
    ensures |s| == |ns|
  {
    seq(|ns|, j requires 0 <= j < |ns| => LedgerOf(ns[j], k))
  }

  function LedgerOf(d: Node, k: Code): int {
    HitSum(d.log, k) + HitSum(d.buf, k) + DirtyOf(d.dirty, k)
  }

  lemma LedgerUpdate(ns: seq<Node>, m: nat, d: Node, k: Code)
    requires m < |ns|
    ensures Sum(Ledger(ns[m := d], k)) == Sum(Ledger(ns, k)) - LedgerOf(ns[m], k) + LedgerOf(d, k)
  {
    assert Ledger(ns[m := d], k) == Ledger(ns, k)[m := LedgerOf(d, k)];
    SumUpdate(Ledger(ns, k), m, LedgerOf(d, k));
  }

  /** Only node `i` changed, and its ledger changed by what the run gained or lost. */
  predicate LedgerMoves(w: World, w': World, i: nat, k: Code) {
    i < |w.nodes| && |w'.nodes| == |w.nodes| && w'.nodes == w.nodes[i := w'.nodes[i]] &&
    LedgerOf(w'.nodes[i], k) - LedgerOf(w.nodes[i], k) == (w'.total - w'.lost) - (w.total - w.lost)
  }

  lemma LedgerQueue(w: World, w': World, i: nat, op: LogOp, k: Code)
    requires i < |w.nodes| && |w'.nodes| == |w.nodes| && w'.nodes == w.nodes[i := w'.nodes[i]]
    requires w'.total == w.total && w'.lost == w.lost
    requires w'.nodes[i].log == w.nodes[i].log && w'.nodes[i].buf == w.nodes[i].buf + [op]
    requires DirtyOf(w'.nodes[i].dirty, k) + HitOf(op, k) == DirtyOf(w.nodes[i].dirty, k)
    ensures LedgerMoves(w, w', i, k)
  {
    HitSumOne(w.nodes[i].buf, op, k);
  }

  lemma LedgerWrite(w: World, i: nat, k: Code)
    requires i < |w.nodes|
    ensures LedgerMoves(w, AfterWrite(w, i), i, k)
  {
    HitSumAppend(w.nodes[i].log, w.nodes[i].buf, k);
  }

  lemma LedgerResolve(w: World, i: nat, c: Code, tracked: bool, k: Code)
    requires i < |w.nodes| && c in w.nodes[i].mem.index
    ensures LedgerMoves(w, AfterResolve(w, i, c, tracked, k), i, k)
  {
    assert w.nodes[i := w.nodes[i]] == w.nodes;
  }

  lemma LedgerRest(w: World, w': World, i: nat, k: Code)
    requires i < |w.nodes| && |w'.nodes| == |w.nodes| && w'.nodes == w.nodes[i := w'.nodes[i]]
    requires w'.total == w.total && w'.nodes[i].log == w.nodes[i].log
    requires var d, d' := w.nodes[i], w'.nodes[i];
      HitSum(d'.buf, k) + DirtyOf(d'.dirty, k) + w'.lost == HitSum(d.buf, k) + DirtyOf(d.dirty, k) + w.lost
    ensures LedgerMoves(w, w', i, k)
  {
  }

  /** How much one event adds to what its node has logged, queued or not yet logged. */
  lemma LedgerNode(w: World, e: Event, k: Code)
    requires Enabled(w, e)
    ensures LedgerMoves(w, Do(w, e, k), e.i, k)
  {
    var d, w' := w.nodes[e.i], Do(w, e, k);
    match e
    case Shorten(i, c, u, now, ttl) => LedgerQueue(w, w', i, MintOp(i, c, u, now, ttl), k);
    case Update(i, c, u, now, ttl, hasTtl) => LedgerQueue(w, w', i, UpdateOp(d.mem, i, c, u, now, ttl, hasTtl), k);
    case Remove(i, c) => LedgerQueue(w, w', i, Del(c), k);
    case Drain(i, c) => LedgerQueue(w, w', i, Hit(c, d.dirty[c], i), k);
    case Write(i) => LedgerWrite(w, i, k);
    case Resolve(i, c, _, tracked) => LedgerResolve(w, i, c, tracked, k);
    case Tail(i, _, _) => LedgerRest(w, w', i, k);
    case Crash(i) => LedgerRest(w, w', i, k);
    case Replay(i, _) => LedgerRest(w, w', i, k);
    case Boot(i) => LedgerRest(w, w', i, k);
  }

  lemma LedgerStep(w: World, e: Event, k: Code)
    requires Sum(Ledger(w.nodes, k)) == w.total - w.lost
    ensures var w' := Do(w, e, k); Sum(Ledger(w'.nodes, k)) == w'.total - w'.lost
  {
    if Enabled(w, e) {
      LedgerNode(w, e, k);
      LedgerUpdate(w.nodes, e.i, Do(w, e, k).nodes[e.i], k);
    }
  }

  // ---- each event keeps every instance's count ----

  lemma HitOkElsewhere(ns: seq<Node>, ns': seq<Node>, m: nat, d: Node, i: nat, k: Code)
    requires Shape(ns) && Changed(ns, ns', m, d) && i < |ns| && i != m && HitOk(ns, i, k)
    ensures Shape(ns') && HitOk(ns', i, k)
  {
    forall j | 0 <= j < |ns| ensures Known(ns', i, j) == Known(ns, i, j) {
      KnownElsewhere(ns, ns', m, d, i, j);
    }
    KnownElsewhere(ns, ns', m, d, i, i);
    assert Contributions(ns', i, k) == Contributions(ns, i, k);
  }

  lemma ContributesOne(ns: seq<Node>, ns': seq<Node>, m: nat, from: nat, op: LogOp, k: Code)
    requires Shape(ns) && Shape(ns') && |ns'| == |ns| && m < |ns| && from < |ns|
    requires Known(ns', m, from) == Known(ns, m, from) + [op]
    requires forall j :: 0 <= j < |ns| && j != from ==> Known(ns', m, j) == Known(ns, m, j)
    ensures Sum(Contributions(ns', m, k)) == Sum(Contributions(ns, m, k)) + HitOf(op, k)
    ensures HitSum(Known(ns', m, m), k) == HitSum(Known(ns, m, m), k) + if m == from then HitOf(op, k) else 0
  {
    HitSumOne(Known(ns, m, from), op, k);
    SumOne(Contributions(ns, m, k), Contributions(ns', m, k), from, HitOf(op, k));
  }

  lemma HitOkQueue(ns: seq<Node>, ns': seq<Node>, m: nat, d: Node, op: LogOp, k: Code)
    requires Shape(ns) && m < |ns| && Queues(ns[m], d, [op]) && ns' == ns[m := d] && HitOk(ns, m, k)
    requires Tidy(d.mem, k)
    requires var v, v' := ViewOf(ns[m].mem, k), ViewOf(d.mem, k);
      var gain := HitOf(op, k) + DirtyOf(d.dirty, k) - DirtyOf(ns[m].dirty, k);
      v'.h == v.h + gain && v'.oh == v.oh + gain
    ensures Changed(ns, ns', m, d) && Shape(ns') && HitOk(ns', m, k)
  {
    KnownQueue(ns, ns', m, d, [op], m);
    forall j | 0 <= j < |ns| && j != m ensures Known(ns', m, j) == Known(ns, m, j) {
      KnownQueue(ns, ns', m, d, [op], j);
    }
    ContributesOne(ns, ns', m, m, op, k);
  }

  lemma HitOkCount(ns: seq<Node>, ns': seq<Node>, m: nat, d: Node, k: Code)
    requires Shape(ns) && m < |ns| && Queues(ns[m], d, []) && ns' == ns[m := d] && HitOk(ns, m, k)
    requires Tidy(d.mem, k)
    requires var v, v' := ViewOf(ns[m].mem, k), ViewOf(d.mem, k);
      var gain := DirtyOf(d.dirty, k) - DirtyOf(ns[m].dirty, k);
      v'.h == v.h + gain && v'.oh == v.oh + gain
    ensures Changed(ns, ns', m, d) && Shape(ns') && HitOk(ns', m, k)
  {
    forall j | 0 <= j < |ns| ensures Shape(ns') && Known(ns', m, j) == Known(ns, m, j) {
      KnownQueue(ns, ns', m, d, [], j);
      assert Known(ns, m, j) + [] == Known(ns, m, j);
    }
    KnownQueue(ns, ns', m, d, [], m);
    assert Contributions(ns', m, k) == Contributions(ns, m, k);
  }

  lemma HitOkSettle(ns: seq<Node>, ns': seq<Node>, m: nat, d: Node, k: Code)
    requires Shape(ns) && m < |ns| && Settles(ns[m], d, m) && ns' == ns[m := d] && HitOk(ns, m, k)
    ensures Changed(ns, ns', m, d) && Shape(ns') && HitOk(ns', m, k)
  {
    forall j | 0 <= j < |ns| ensures Shape(ns') && Known(ns', m, j) == Known(ns, m, j) {
      KnownSettle(ns, ns', m, d, j);
    }
    KnownSettle(ns, ns', m, d, m);
    assert Contributions(ns', m, k) == Contributions(ns, m, k);
  }

  lemma HitOkFold(w: World, ns': seq<Node>, m: nat, d: Node, from: nat, victim: Code, k: Code)
    requires HitInv(w, k) && Clean(w) && Folds(w.nodes, m, d, from) && ns' == w.nodes[m := d]
    requires var op := w.nodes[from].log[w.nodes[m].seen[from]];
      d.mem == Apply(w.nodes[m].mem, m, op, victim) && !Evicts(w.nodes[m].mem, op, victim, k)
    ensures Changed(w.nodes, ns', m, d) && Shape(ns') && HitOk(ns', m, k)
  {
    var op := w.nodes[from].log[w.nodes[m].seen[from]];
    FoldContributes(w.nodes, ns', m, d, from, op, k);
    assert HitOk(w.nodes, m, k);
    ApplyView(w.nodes[m].mem, m, op, victim, k);
    FoldedCounts(w, m, from, op, k);
  }

  lemma FoldContributes(ns: seq<Node>, ns': seq<Node>, m: nat, d: Node, from: nat, op: LogOp, k: Code)
    requires Shape(ns) && Folds(ns, m, d, from) && ns' == ns[m := d]
    requires op == ns[from].log[ns[m].seen[from]]
    ensures Changed(ns, ns', m, d) && Shape(ns')
    ensures Sum(Contributions(ns', m, k)) == Sum(Contributions(ns, m, k)) + HitOf(op, k)
    ensures HitSum(Known(ns', m, m), k) == HitSum(Known(ns, m, m), k) + if m == from then HitOf(op, k) else 0
  {
    KnownFold(ns, ns', m, d, from, from);
    forall j | 0 <= j < |ns| && j != from ensures Known(ns', m, j) == Known(ns, m, j) {
      KnownFold(ns, ns', m, d, from, j);
    }
    ContributesOne(ns, ns', m, from, op, k);
  }

  lemma RowIsNew(w: World, m: nat, from: nat, op: LogOp, k: Code)
    requires HitInv(w, k) && Clean(w) && m < |w.nodes| && from < |w.nodes| && op.Row? && op.c == k
    requires w.nodes[m].seen[from] < |w.nodes[from].log| && op == w.nodes[from].log[w.nodes[m].seen[from]]
    requires !(m == from && w.nodes[m].live) && OpOk(w, from, op, k)
    ensures ViewOf(w.nodes[m].mem, k).row.None?
  {
    assert RowOk(w, m, k);
    LogsHaveNoDels(w, from, k);
    RowCountAppend(w.nodes[from].log, w.nodes[from].buf, k);
    FirstRow(w.nodes[from].log, w.nodes[m].seen[from], k);
  }

  /** Before its only row, a log leaves no row behind. */
  lemma FirstRow(log: seq<LogOp>, p: nat, k: Code)
    requires NoDels(log, k) && RowCount(log, k) <= 1 && p < |log| && log[p].Row? && log[p].c == k
    ensures RowFold(None, log[..p], k).None?
  {
    assert log[..p + 1] == log[..p] + [log[p]];
    RowCountOne(log[..p], log[p], k);
    RowCountPrefix(log, p + 1, k);
    RowCountFold(log[..p], k);
  }

  /** Folding a record changes the counts by exactly its hits: a row is new to the instance that
      folds it, so the hits waiting for it are kept. */
  lemma FoldedCounts(w: World, m: nat, from: nat, op: LogOp, k: Code)
    requires HitInv(w, k) && Clean(w) && m < |w.nodes| && from < |w.nodes|
    requires w.nodes[m].seen[from] < |w.nodes[from].log| && op == w.nodes[from].log[w.nodes[m].seen[from]]
    requires !(m == from && w.nodes[m].live)
    ensures var v := ViewOf(w.nodes[m].mem, k);
      Step(v, m, op, k).h == v.h + HitOf(op, k) &&
      Step(v, m, op, k).oh == v.oh + if m == from then HitOf(op, k) else 0
  {
    assert OpOk(w, from, op, k) by {
      assert LogOk(w, from, k);
    }
    if op.Row? && op.c == k {
      RowIsNew(w, m, from, op, k);
    }
  }

  lemma HitOkCrash(ns: seq<Node>, ns': seq<Node>, m: nat, d: Node, k: Code)
    requires Shape(ns) && m < |ns| && ns' == ns[m := d]
    requires d == Node(EMPTY_MEM, map[], ns[m].log, [], seq(|ns|, _ => 0), false)
    ensures Changed(ns, ns', m, d) && Shape(ns') && HitOk(ns', m, k)
  {
    KnownElsewhere(ns, ns', m, d, m, m);
    forall j | 0 <= j < |ns| ensures Known(ns', m, j) == [] {
    }
    SumZero(Contributions(ns', m, k));
  }

  /** A freshly minted code starts at zero because nobody can have counted a hit for it. */
  lemma MintStartsAtZero(w: World, i: nat, k: Code)
    requires HitInv(w, k) && Clean(w) && i < |w.nodes| && w.nodes[i].live && i == Owner(k) && k !in w.nodes[i].mem.index
    ensures ViewOf(w.nodes[i].mem, k) == NO_VIEW && DirtyOf(w.nodes[i].dirty, k) == 0
  {
    var ns := w.nodes;
    RowComesFromOwner(w, i, k);
    RowCountAppend(ns[i].log, ns[i].buf, k);
    assert HitOk(ns, i, k);
    forall j | 0 <= j < |ns| ensures HitSum(Known(ns, i, j), k) == 0 {
      NoHitsSum(Known(ns, i, j), k);
    }
    SumZero(Contributions(ns, i, k));
  }

  /** Node `i` kept its counts in the step to `w'`. */
  predicate Kept(w: World, w': World, i: nat, k: Code) {
    i < |w.nodes| && |w'.nodes| == |w.nodes| &&
    Changed(w.nodes, w'.nodes, i, w'.nodes[i]) && Shape(w'.nodes) && HitOk(w'.nodes, i, k)
  }

  lemma MintKept(w: World, e: Event, k: Code)
    requires HitInv(w, k) && Enabled(w, e) && e.Shorten? && Clean(Do(w, e, k))
    ensures Kept(w, Do(w, e, k), e.i, k)
  {
    var w' := AfterShorten(w, e.i, e.c, e.u, e.now, e.ttl, k);
    assert HitOk(w.nodes, e.i, k);
    if e.c == k {
      MintStartsAtZero(w, e.i, k);
    }
    HitOkQueue(w.nodes, w'.nodes, e.i, w'.nodes[e.i], MintOp(e.i, e.c, e.u, e.now, e.ttl), k);
  }

  lemma UpdateKept(w: World, e: Event, k: Code)
    requires HitInv(w, k) && Enabled(w, e) && e.Update? && Clean(Do(w, e, k))
    ensures Kept(w, Do(w, e, k), e.i, k)
  {
    var w' := AfterUpdate(w, e.i, e.c, e.u, e.now, e.ttl, e.hasTtl, k);
    assert HitOk(w.nodes, e.i, k);
    HitOkQueue(w.nodes, w'.nodes, e.i, w'.nodes[e.i],
      UpdateOp(w.nodes[e.i].mem, e.i, e.c, e.u, e.now, e.ttl, e.hasTtl), k);
  }

  lemma RemoveKept(w: World, e: Event, k: Code)
    requires HitInv(w, k) && Enabled(w, e) && e.Remove? && Clean(Do(w, e, k))
    ensures Kept(w, Do(w, e, k), e.i, k)
  {
    var w' := AfterRemove(w, e.i, e.c, k);
    assert HitOk(w.nodes, e.i, k);
    HitOkQueue(w.nodes, w'.nodes, e.i, w'.nodes[e.i], Del(e.c), k);
  }

  lemma DrainKept(w: World, e: Event, k: Code)
    requires HitInv(w, k) && Enabled(w, e) && e.Drain? && Clean(Do(w, e, k))
    ensures Kept(w, Do(w, e, k), e.i, k)
  {
    var w' := AfterDrain(w, e.i, e.c);
    assert HitOk(w.nodes, e.i, k);
    HitOkQueue(w.nodes, w'.nodes, e.i, w'.nodes[e.i], Hit(e.c, w.nodes[e.i].dirty[e.c], e.i), k);
  }

  lemma ResolveKept(w: World, e: Event, k: Code)
    requires HitInv(w, k) && Enabled(w, e) && e.Resolve? && Clean(Do(w, e, k))
    ensures Kept(w, Do(w, e, k), e.i, k)
  {
    var w' := AfterResolve(w, e.i, e.c, e.tracked, k);
    var d := w.nodes[e.i];
    assert HitOk(w.nodes, e.i, k);
    assert d.buf + [] == d.buf && w.nodes[e.i := d] == w.nodes;
    HitOkCount(w.nodes, w'.nodes, e.i, w'.nodes[e.i], k);
  }

  lemma SettleKept(w: World, w': World, i: nat, k: Code)
    requires HitInv(w, k) && Clean(w) && i < |w.nodes| && |w'.nodes| == |w.nodes|
    requires w'.nodes == w.nodes[i := w'.nodes[i]] && Settles(w.nodes[i], w'.nodes[i], i)
    requires w'.nodes[i].mem == w.nodes[i].mem && w'.nodes[i].dirty == w.nodes[i].dirty
    ensures Kept(w, w', i, k)
  {
    assert HitOk(w.nodes, i, k);
    HitOkSettle(w.nodes, w'.nodes, i, w'.nodes[i], k);
  }

  lemma WriteKept(w: World, i: nat, k: Code)
    requires HitInv(w, k) && Enabled(w, Write(i)) && Clean(w)
    ensures Kept(w, AfterWrite(w, i), i, k)
  {
    SettleKept(w, AfterWrite(w, i), i, k);
  }

  lemma BootKept(w: World, i: nat, k: Code)
    requires HitInv(w, k) && Enabled(w, Boot(i)) && Clean(w)
    ensures Kept(w, AfterBoot(w, i), i, k)
  {
    assert RowOk(w, i, k);
    SettleKept(w, AfterBoot(w, i), i, k);
  }

  lemma CrashKept(w: World, i: nat, k: Code)
    requires HitInv(w, k) && i < |w.nodes|
    ensures Kept(w, AfterCrash(w, i, k), i, k)
  {
    HitOkCrash(w.nodes, AfterCrash(w, i, k).nodes, i, AfterCrash(w, i, k).nodes[i], k);
  }

  lemma FoldKept(w: World, i: nat, j: nat, victim: Code, k: Code)
    requires HitInv(w, k) && i < |w.nodes| && j < |w.nodes| && w.nodes[i].seen[j] < |w.nodes[j].log|
    requires !(i == j && w.nodes[i].live) && Clean(FoldNext(w, i, j, victim, k))
    ensures Kept(w, FoldNext(w, i, j, victim, k), i, k)
  {
    var w' := FoldNext(w, i, j, victim, k);
    HitOkFold(w, w'.nodes, i, w'.nodes[i], j, victim, k);
  }

  lemma HitOkStep(w: World, e: Event, k: Code)
    requires HitInv(w, k) && Enabled(w, e) && Clean(Do(w, e, k))
    ensures Kept(w, Do(w, e, k), e.i, k)
  {
    match e
    case Tail(i, j, victim) => FoldKept(w, i, j, victim, k);
    case Replay(i, victim) => FoldKept(w, i, i, victim, k);
    case Shorten(_, _, _, _, _) => MintKept(w, e, k);
    case Update(_, _, _, _, _, _) => UpdateKept(w, e, k);
    case Remove(_, _) => RemoveKept(w, e, k);
    case Resolve(_, _, _, _) => ResolveKept(w, e, k);
    case Drain(_, _) => DrainKept(w, e, k);
    case Write(i) => WriteKept(w, i, k);
    case Crash(i) => CrashKept(w, i, k);
    case Boot(i) => BootKept(w, i, k);
  }

  lemma HitInvStep(w: World, e: Event, k: Code)
    requires HitInv(w, k)
    ensures HitInv(Do(w, e, k), k)
  {
    PlainInvStep(w, e, k);
    LedgerStep(w, e, k);
    var w' := Do(w, e, k);
    if Enabled(w, e) && Clean(w') {
      HitOkStep(w, e, k);
      forall i | 0 <= i < |w.nodes| ensures HitOk(w'.nodes, i, k) {
        if i != e.i {
          HitOkElsewhere(w.nodes, w'.nodes, e.i, w'.nodes[e.i], i, k);
        }
      }
    }
  }

  lemma StartCounts(n: nat, k: Code)
    requires n <= MAX_INSTANCES
    ensures HitInv(Start(n), k)
  {
    var ns := Start(n).nodes;
    SumZero(Ledger(ns, k));
    forall i | 0 <= i < n ensures HitOk(ns, i, k) {
      SumZero(Contributions(ns, i, k));
    }
    RowInvRun(n, [], k);
  }

  lemma {:induction false} HitInvRun(n: nat, es: seq<Event>, k: Code)
    requires n <= MAX_INSTANCES
    ensures HitInv(Run(n, es, k), k)
  {
    if es == [] {
      StartCounts(n, k);
    } else {
      HitInvRun(n, es[..|es| - 1], k);
      HitInvStep(Run(n, es[..|es| - 1], k), es[|es| - 1], k);
    }
  }
}
