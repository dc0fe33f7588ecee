/** N instances, each with its own log, folding one another's logs into memory. */
module Cluster {
  import opened Bytes
  import opened Codec
  import opened Engine
  import opened Sums

  /** One instance: memory and unflushed hits (volatile), its log file (durable) and the queued
      records (volatile), and how much of each log is folded into memory. An instance that is not
      `live` is replaying its own log. */
  datatype Node = Node(mem: Mem, dirty: map<Code, int>, log: seq<LogOp>, buf: seq<LogOp>,
                       seen: seq<nat>, live: bool)

  /** The cluster, with the history of one code `k` beside it: successful tracked resolves, hit
      deltas lost in crashes, and whether it was ever minted off its prefix owner, updated or
      removed, or evicted from a stray map. */
  datatype World = World(nodes: seq<Node>, total: int, lost: int,
                         foreign: bool, touched: bool, evicted: bool)

  datatype Event =
    | Shorten(i: nat, c: Code, u: bytes, now: int, ttl: int)
    | Resolve(i: nat, c: Code, now: int, tracked: bool)
    | Update(i: nat, c: Code, u: bytes, now: int, ttl: int, hasTtl: bool)
    | Remove(i: nat, c: Code)
    | Drain(i: nat, c: Code)                // one dirty delta becomes a queued hit line
    | Write(i: nat)                         // queued records reach the log file
    | Tail(i: nat, j: nat, victim: Code)    // fold one record of a sibling's log
    | Crash(i: nat)
    | Replay(i: nat, victim: Code)          // while booting, fold one record of the own log
    | Boot(i: nat)                          // the own log is fully replayed

  function Start(n: nat): World {
    World(seq(n, _ => Node(EMPTY_MEM, map[], [], [], seq(n, _ => 0), true)), 0, 0, false, false, false)
  }

  predicate Enabled(w: World, e: Event) {
    e.i < |w.nodes| &&
    var d := w.nodes[e.i];
    match e
    case Shorten(_, c, _, _, _) => d.live && c !in d.mem.index
    case Resolve(_, c, now, _) => d.live && c in d.mem.index && Unexpired(d.mem.index[c], now)
    case Update(i, c, _, _, _, _) => d.live && MayMutate(d.mem, i, c) == Done
    case Remove(i, c) => d.live && MayMutate(d.mem, i, c) == Done
    case Drain(_, c) => d.live && c in d.dirty
    case Write(_) => d.live
    case Tail(i, j, _) => d.live && j < |w.nodes| && j != i && j < |d.seen| && d.seen[j] < |w.nodes[j].log|
    case Crash(_) => true
    case Replay(i, _) => !d.live && i < |d.seen| && d.seen[i] < |d.log|
    case Boot(i) => !d.live && i < |d.seen| && d.seen[i] == |d.log|
  }

  function SetNode(w: World, i: nat, d: Node): World
    requires i < |w.nodes|
  {
    w.(nodes := w.nodes[i := d])
  }

  function AfterShorten(w: World, i: nat, c: Code, u: bytes, now: int, ttl: int, k: Code): World
    requires i < |w.nodes|
  {
    var d := w.nodes[i];
    SetNode(w, i, d.(mem := Mint(d.mem, i, c, u, now, ttl), buf := d.buf + [MintOp(i, c, u, now, ttl)]))
      .(foreign := w.foreign || (c == k && Owner(k) != i))
  }

  function AfterResolve(w: World, i: nat, c: Code, tracked: bool, k: Code): World
    requires i < |w.nodes| && c in w.nodes[i].mem.index
  {
    var d := w.nodes[i];
    if !tracked then w
    else SetNode(w, i, d.(mem := CountHit(d.mem, c), dirty := Dirtied(d.dirty, c)))
      .(total := w.total + if c == k then 1 else 0)
  }

  function AfterUpdate(w: World, i: nat, c: Code, u: bytes, now: int, ttl: int, hasTtl: bool, k: Code): World
    requires i < |w.nodes| && c in w.nodes[i].mem.index
  {
    var d := w.nodes[i];
    SetNode(w, i, d.(mem := Updated(d.mem, c, u, now, ttl, hasTtl),
                     buf := d.buf + [UpdateOp(d.mem, i, c, u, now, ttl, hasTtl)]))
      .(touched := w.touched || c == k)
  }

  function AfterRemove(w: World, i: nat, c: Code, k: Code): World
    requires i < |w.nodes|
  {
    var d := w.nodes[i];
    SetNode(w, i, d.(mem := Removed(d.mem, c), buf := d.buf + [Del(c)])).(touched := w.touched || c == k)
  }

  function AfterDrain(w: World, i: nat, c: Code): World
    requires i < |w.nodes| && c in w.nodes[i].dirty
  {
    var d := w.nodes[i];
    SetNode(w, i, d.(dirty := d.dirty - {c}, buf := d.buf + [Hit(c, d.dirty[c], i)]))
  }

  function AfterWrite(w: World, i: nat): World
    requires i < |w.nodes|
  {
    SetNode(w, i, w.nodes[i].(log := w.nodes[i].log + w.nodes[i].buf, buf := []))
  }

  function AfterCrash(w: World, i: nat, k: Code): World
    requires i < |w.nodes|
  {
    var d := w.nodes[i];
    SetNode(w, i, Node(EMPTY_MEM, map[], d.log, [], seq(|w.nodes|, _ => 0), false))
      .(lost := w.lost + DirtyOf(d.dirty, k) + HitSum(d.buf, k))
  }

  function AfterBoot(w: World, i: nat): World
    requires i < |w.nodes|
  {
    SetNode(w, i, w.nodes[i].(live := true))
  }

  /** One event, with the history of code `k`; an event that is not enabled changes nothing. */
  function Do(w: World, e: Event, k: Code): (w': World)
    ensures |w'.nodes| == |w.nodes|
  {
    if !Enabled(w, e) then w
    else
      match e
      case Shorten(i, c, u, now, ttl) => AfterShorten(w, i, c, u, now, ttl, k)
      case Resolve(i, c, _, tracked) => AfterResolve(w, i, c, tracked, k)
      case Update(i, c, u, now, ttl, hasTtl) => AfterUpdate(w, i, c, u, now, ttl, hasTtl, k)
      case Remove(i, c) => AfterRemove(w, i, c, k)
      case Drain(i, c) => AfterDrain(w, i, c)
      case Write(i) => AfterWrite(w, i)
      case Tail(i, j, victim) => FoldNext(w, i, j, victim, k)
      case Crash(i) => AfterCrash(w, i, k)
      case Replay(i, victim) => FoldNext(w, i, i, victim, k)
      case Boot(i) => AfterBoot(w, i)
  }

  /** Instance `i` folds the next unread record of log `j`. */
  function FoldNext(w: World, i: nat, j: nat, victim: Code, k: Code): World
    requires i < |w.nodes| && j < |w.nodes| && j < |w.nodes[i].seen|
    requires w.nodes[i].seen[j] < |w.nodes[j].log|
  {
    var d := w.nodes[i];
    var op := w.nodes[j].log[d.seen[j]];
    SetNode(w, i, d.(mem := Apply(d.mem, i, op, victim), seen := d.seen[j := d.seen[j] + 1]))
      .(evicted := w.evicted || Evicts(d.mem, op, victim, k))
  }

  /** The cluster of `n` instances after any list of events. */
  function Run(n: nat, es: seq<Event>, k: Code): (w: World)
    ensures |w.nodes| == n
  {
    if es == [] then Start(n) else Do(Run(n, es[..|es| - 1], k), es[|es| - 1], k)
  }

  // ---- what an instance has folded ----

  predicate Shape(ns: seq<Node>) {
    |ns| <= MAX_INSTANCES &&
    (forall i :: 0 <= i < |ns| ==> |ns[i].seen| == |ns|) &&
    (forall i, j :: 0 <= i < |ns| && 0 <= j < |ns| ==> ns[i].seen[j] <= |ns[j].log|)
  }

  /** The records of log `j` that instance `i` has in memory. */
  function Known(ns: seq<Node>, i: nat, j: nat): seq<LogOp>
    requires Shape(ns) && i < |ns| && j < |ns|
  {
    if i == j && ns[i].live then ns[i].log + ns[i].buf else ns[j].log[..ns[i].seen[j]]
  }

  /** Node `m` became `d`, and its log at most grew. */
  predicate Changed(ns: seq<Node>, ns': seq<Node>, m: nat, d: Node) {
    m < |ns| && ns' == ns[m := d] && ns[m].log <= d.log &&
    |d.seen| == |ns| && forall j :: 0 <= j < |ns| ==> d.seen[j] <= |(if j == m then d else ns[j]).log|
  }

  lemma KnownElsewhere(ns: seq<Node>, ns': seq<Node>, m: nat, d: Node, i: nat, j: nat)
    requires Shape(ns) && Changed(ns, ns', m, d) && i < |ns| && j < |ns|
    ensures Shape(ns')
    ensures i != m ==> Known(ns', i, j) == Known(ns, i, j)
  {
    forall a, b | 0 <= a < |ns| && 0 <= b < |ns| ensures ns'[a].seen[b] <= |ns'[b].log| {
    }
    if i != m && j == m {
      assert ns[j].log[..ns[i].seen[j]] == d.log[..ns[i].seen[j]];
    }
  }

  /** A live node that only queues `ops`. */
  predicate Queues(d: Node, d': Node, ops: seq<LogOp>) {
    d.live && d' == d.(mem := d'.mem, dirty := d'.dirty, buf := d.buf + ops)
  }

  lemma KnownQueue(ns: seq<Node>, ns': seq<Node>, m: nat, d: Node, ops: seq<LogOp>, j: nat)
    requires Shape(ns) && m < |ns| && j < |ns| && Queues(ns[m], d, ops) && ns' == ns[m := d]
    ensures Changed(ns, ns', m, d) && Shape(ns')
    ensures Known(ns', m, j) == Known(ns, m, j) + if m == j then ops else []
  {
    KnownElsewhere(ns, ns', m, d, m, j);
    if m == j {
      assert (d.log + ns[m].buf) + ops == d.log + d.buf;
    }
  }

  /** A node that writes its queue or finishes booting has folded what it had folded. */
  predicate Settles(d: Node, d': Node, self: nat) {
    (d.live && d' == d.(log := d.log + d.buf, buf := [])) ||
    (!d.live && self < |d.seen| && d.seen[self] == |d.log| && d.buf == [] && d' == d.(live := true))
  }

  lemma KnownSettle(ns: seq<Node>, ns': seq<Node>, m: nat, d: Node, j: nat)
    requires Shape(ns) && m < |ns| && j < |ns| && Settles(ns[m], d, m) && ns' == ns[m := d]
    ensures Changed(ns, ns', m, d) && Shape(ns')
    ensures Known(ns', m, j) == Known(ns, m, j)
  {
    KnownElsewhere(ns, ns', m, d, m, j);
  }

  /** A node that folds the next record of log `from`. */
  predicate Folds(ns: seq<Node>, m: nat, d: Node, from: nat) {
    m < |ns| && from < |ns| && |ns[m].seen| == |ns| && ns[m].seen[from] < |ns[from].log| &&
    !(m == from && ns[m].live) &&
    d == ns[m].(mem := d.mem, seen := ns[m].seen[from := ns[m].seen[from] + 1])
  }

  lemma KnownFold(ns: seq<Node>, ns': seq<Node>, m: nat, d: Node, from: nat, j: nat)
    requires Shape(ns) && j < |ns| && Folds(ns, m, d, from) && ns' == ns[m := d]
    ensures Changed(ns, ns', m, d) && Shape(ns')
    ensures Known(ns', m, j) == Known(ns, m, j) + if j == from then [ns[from].log[ns[m].seen[from]]] else []
  {
    KnownElsewhere(ns, ns', m, d, m, j);
  }

  // ---- rows: every instance follows the owner's log ----

  /** What the log of instance `j` may say about code `k`. */
  predicate OpOk(w: World, j: nat, op: LogOp, k: Code) {
    op.Code() == k ==>
      match op
      case Hit(_, _, node) => node == j
      case Row(_, _, _, _, i, n) => i == j && n == 0 && (j != Owner(k) ==> w.foreign)
      case Del(_) => w.touched && (j != Owner(k) ==> w.foreign)
  }

  predicate LogOk(w: World, j: nat, k: Code)
    requires j < |w.nodes|
  {
    (forall p :: 0 <= p < |w.nodes[j].log| ==> OpOk(w, j, w.nodes[j].log[p], k)) &&
    (forall p :: 0 <= p < |w.nodes[j].buf| ==> OpOk(w, j, w.nodes[j].buf[p], k))
  }

  /** The owner's records that instance `i` has folded. */
  function OwnersPart(ns: seq<Node>, i: nat, k: Code): seq<LogOp>
    requires Shape(ns) && i < |ns|
  {
    if 0 <= Owner(k) < |ns| then Known(ns, i, Owner(k)) else []
  }

  predicate RowOk(w: World, i: nat, k: Code)
    requires Shape(w.nodes) && i < |w.nodes|
  {
    !w.foreign ==> ViewOf(w.nodes[i].mem, k).row == RowFold(None, OwnersPart(w.nodes, i, k), k)
  }

  predicate RowInv(w: World, k: Code) {
    Shape(w.nodes) &&
    (forall j :: 0 <= j < |w.nodes| ==> LogOk(w, j, k)) &&
    (forall i :: 0 <= i < |w.nodes| ==> RowOk(w, i, k)) &&
    (forall i :: 0 <= i < |w.nodes| && !w.nodes[i].live ==> w.nodes[i].buf == [] && w.nodes[i].dirty == map[])
  }

  predicate Flags(w: World, w': World) {
    (w.foreign ==> w'.foreign) && (w.touched ==> w'.touched) && (w.evicted ==> w'.evicted)
  }

  /** It is enough to look at the node that changed. */
  lemma RowFrame(w: World, w': World, m: nat, d: Node, k: Code)
    requires RowInv(w, k) && Flags(w, w') && Changed(w.nodes, w'.nodes, m, d) && Shape(w'.nodes)
    requires LogOk(w', m, k) && RowOk(w', m, k)
    requires !d.live ==> d.buf == [] && d.dirty == map[]
    ensures RowInv(w', k)
  {
    forall i | 0 <= i < |w.nodes| && i != m ensures LogOk(w', i, k) && RowOk(w', i, k) {
      assert LogOk(w, i, k) && RowOk(w, i, k);
      if 0 <= Owner(k) < |w.nodes| {
        KnownElsewhere(w.nodes, w'.nodes, m, d, i, Owner(k));
      }
    }
  }

  lemma QueueRows(w: World, w': World, m: nat, d: Node, op: LogOp, k: Code)
    requires RowInv(w, k) && Flags(w, w') && m < |w.nodes|
    requires Queues(w.nodes[m], d, [op]) && w'.nodes == w.nodes[m := d]
    requires OpOk(w', m, op, k)
    requires var row := ViewOf(w.nodes[m].mem, k).row;
      !w'.foreign ==> ViewOf(d.mem, k).row == (if m == Owner(k) then RowStep(row, op, k) else row)
    ensures RowInv(w', k)
  {
    KnownQueue(w.nodes, w'.nodes, m, d, [op], m);
    assert LogOk(w', m, k) by {
      assert LogOk(w, m, k);
    }
    QueueRowOk(w, w', m, d, op, k);
    RowFrame(w, w', m, d, k);
  }

  lemma QueueRowOk(w: World, w': World, m: nat, d: Node, op: LogOp, k: Code)
    requires RowInv(w, k) && Flags(w, w') && m < |w.nodes| && Shape(w'.nodes)
    requires Queues(w.nodes[m], d, [op]) && w'.nodes == w.nodes[m := d]
    requires var row := ViewOf(w.nodes[m].mem, k).row;
      !w'.foreign ==> ViewOf(d.mem, k).row == (if m == Owner(k) then RowStep(row, op, k) else row)
    ensures RowOk(w', m, k)
  {
    assert RowOk(w, m, k);
    if 0 <= Owner(k) < |w.nodes| {
      KnownQueue(w.nodes, w'.nodes, m, d, [op], Owner(k));
      if m == Owner(k) {
        RowFoldOne(None, Known(w.nodes, m, m), op, k);
      } else {
        assert Known(w'.nodes, m, Owner(k)) == Known(w.nodes, m, Owner(k));
      }
    }
  }

  lemma CountRows(w: World, w': World, m: nat, d: Node, k: Code)
    requires RowInv(w, k) && Flags(w, w') && m < |w.nodes|
    requires Queues(w.nodes[m], d, []) && w'.nodes == w.nodes[m := d]
    requires ViewOf(d.mem, k).row == ViewOf(w.nodes[m].mem, k).row
    ensures RowInv(w', k)
  {
    KnownQueue(w.nodes, w'.nodes, m, d, [], m);
    assert d.buf == w.nodes[m].buf;
    assert LogOk(w', m, k) by {
      assert LogOk(w, m, k);
    }
    if 0 <= Owner(k) < |w.nodes| {
      KnownQueue(w.nodes, w'.nodes, m, d, [], Owner(k));
      assert Known(w'.nodes, m, Owner(k)) == Known(w.nodes, m, Owner(k));
    }
    assert RowOk(w, m, k);
    RowFrame(w, w', m, d, k);
  }

  lemma SettleRows(w: World, w': World, m: nat, d: Node, k: Code)
    requires RowInv(w, k) && Flags(w, w') && m < |w.nodes|
    requires Settles(w.nodes[m], d, m) && w'.nodes == w.nodes[m := d]
    ensures RowInv(w', k)
  {
    KnownSettle(w.nodes, w'.nodes, m, d, m);
    assert LogOk(w', m, k) by {
      assert LogOk(w, m, k);
    }
    assert RowOk(w, m, k);
    if 0 <= Owner(k) < |w.nodes| {
      KnownSettle(w.nodes, w'.nodes, m, d, Owner(k));
    }
    RowFrame(w, w', m, d, k);
  }

  lemma FoldRows(w: World, w': World, m: nat, d: Node, from: nat, victim: Code, k: Code)
    requires RowInv(w, k) && Flags(w, w') && w'.foreign == w.foreign
    requires Folds(w.nodes, m, d, from) && w'.nodes == w.nodes[m := d]
    requires d.mem == Apply(w.nodes[m].mem, m, w.nodes[from].log[w.nodes[m].seen[from]], victim)
    ensures RowInv(w', k)
  {
    KnownFold(w.nodes, w'.nodes, m, d, from, m);
    assert LogOk(w', m, k) by {
      assert LogOk(w, m, k);
    }
    FoldRowOk(w, w', m, d, from, victim, k);
    RowFrame(w, w', m, d, k);
  }

  lemma FoldRowOk(w: World, w': World, m: nat, d: Node, from: nat, victim: Code, k: Code)
    requires RowInv(w, k) && Shape(w'.nodes) && w'.foreign == w.foreign
    requires Folds(w.nodes, m, d, from) && w'.nodes == w.nodes[m := d]
    requires d.mem == Apply(w.nodes[m].mem, m, w.nodes[from].log[w.nodes[m].seen[from]], victim)
    ensures RowOk(w', m, k)
  {
    var op := w.nodes[from].log[w.nodes[m].seen[from]];
    ApplyRow(w.nodes[m].mem, m, op, victim, k);
    assert RowOk(w, m, k);
    assert OpOk(w, from, op, k) by {
      assert LogOk(w, from, k);
    }
    if 0 <= Owner(k) < |w.nodes| {
      KnownFold(w.nodes, w'.nodes, m, d, from, Owner(k));
      if from == Owner(k) {
        RowFoldOne(None, Known(w.nodes, m, from), op, k);
      } else {
        assert Known(w'.nodes, m, Owner(k)) == Known(w.nodes, m, Owner(k));
      }
    }
  }

  lemma CrashRows(w: World, w': World, m: nat, d: Node, k: Code)
    requires RowInv(w, k) && Flags(w, w') && m < |w.nodes| && w'.nodes == w.nodes[m := d]
    requires d == Node(EMPTY_MEM, map[], w.nodes[m].log, [], seq(|w.nodes|, _ => 0), false)
    ensures RowInv(w', k)
  {
    KnownElsewhere(w.nodes, w'.nodes, m, d, m, m);
    assert LogOk(w', m, k) by {
      assert LogOk(w, m, k);
    }
    RowFrame(w, w', m, d, k);
  }

  /** The owner of a row that was never minted elsewhere is its prefix owner. */
  lemma {:induction false} RowsNameOwner(w: World, ops: seq<LogOp>, k: Code)
    requires !w.foreign && 0 <= Owner(k)
    requires forall p :: 0 <= p < |ops| ==> OpOk(w, Owner(k), ops[p], k)
    ensures RowFold(None, ops, k).Some? ==> RowFold(None, ops, k).value.i == Owner(k)
  {
    if ops != [] {
      RowsNameOwner(w, ops[..|ops| - 1], k);
    }
  }

  lemma OnlyOwnerMutates(w: World, m: nat, k: Code)
    requires RowInv(w, k) && m < |w.nodes| && MayMutate(w.nodes[m].mem, m, k) == Done && !w.foreign
    ensures m == Owner(k)
  {
    assert RowOk(w, m, k);
    if 0 <= Owner(k) < |w.nodes| {
      assert LogOk(w, Owner(k), k);
      RowsNameOwner(w, Known(w.nodes, m, Owner(k)), k);
    }
  }

  lemma MintRows(w: World, e: Event, k: Code)
    requires RowInv(w, k) && e.Shorten? && Enabled(w, e)
    ensures RowInv(Do(w, e, k), k)
  {
    QueueRows(w, Do(w, e, k), e.i, Do(w, e, k).nodes[e.i], MintOp(e.i, e.c, e.u, e.now, e.ttl), k);
  }

  lemma UpdateRows(w: World, e: Event, k: Code)
    requires RowInv(w, k) && e.Update? && Enabled(w, e)
    ensures RowInv(Do(w, e, k), k)
  {
    if e.c == k && !w.foreign {
      OnlyOwnerMutates(w, e.i, k);
    }
    QueueRows(w, Do(w, e, k), e.i, Do(w, e, k).nodes[e.i],
      UpdateOp(w.nodes[e.i].mem, e.i, e.c, e.u, e.now, e.ttl, e.hasTtl), k);
  }

  lemma RemoveRows(w: World, e: Event, k: Code)
    requires RowInv(w, k) && e.Remove? && Enabled(w, e)
    ensures RowInv(Do(w, e, k), k)
  {
    if e.c == k && !w.foreign {
      OnlyOwnerMutates(w, e.i, k);
    }
    QueueRows(w, Do(w, e, k), e.i, Do(w, e, k).nodes[e.i], Del(e.c), k);
  }

  lemma DrainRows(w: World, e: Event, k: Code)
    requires RowInv(w, k) && e.Drain? && Enabled(w, e)
    ensures RowInv(Do(w, e, k), k)
  {
    QueueRows(w, Do(w, e, k), e.i, Do(w, e, k).nodes[e.i], Hit(e.c, w.nodes[e.i].dirty[e.c], e.i), k);
  }

  lemma WriteRows(w: World, i: nat, k: Code)
    requires RowInv(w, k) && Enabled(w, Write(i))
    ensures RowInv(AfterWrite(w, i), k)
  {
    SettleRows(w, AfterWrite(w, i), i, AfterWrite(w, i).nodes[i], k);
  }

  lemma BootRows(w: World, i: nat, k: Code)
    requires RowInv(w, k) && Enabled(w, Boot(i))
    ensures RowInv(AfterBoot(w, i), k)
  {
    SettleRows(w, AfterBoot(w, i), i, AfterBoot(w, i).nodes[i], k);
  }

  lemma CrashedRows(w: World, i: nat, k: Code)
    requires RowInv(w, k) && i < |w.nodes|
    ensures RowInv(AfterCrash(w, i, k), k)
  {
    CrashRows(w, AfterCrash(w, i, k), i, AfterCrash(w, i, k).nodes[i], k);
  }

  lemma TailRows(w: World, i: nat, j: nat, victim: Code, k: Code)
    requires RowInv(w, k) && i < |w.nodes| && j < |w.nodes| && w.nodes[i].seen[j] < |w.nodes[j].log|
    requires !(i == j && w.nodes[i].live)
    ensures RowInv(FoldNext(w, i, j, victim, k), k)
  {
    FoldRows(w, FoldNext(w, i, j, victim, k), i, FoldNext(w, i, j, victim, k).nodes[i], j, victim, k);
  }

  lemma RowInvStep(w: World, e: Event, k: Code)
    requires RowInv(w, k)
    ensures RowInv(Do(w, e, k), k)
  {
    if Enabled(w, e) {
      match e
      case Shorten(_, _, _, _, _) => MintRows(w, e, k);
      case Resolve(_, _, _, _) => CountRowsOf(w, e, k);
      case Update(_, _, _, _, _, _) => UpdateRows(w, e, k);
      case Remove(_, _) => RemoveRows(w, e, k);
      case Drain(_, _) => DrainRows(w, e, k);
      case Write(i) => WriteRows(w, i, k);
      case Tail(i, j, victim) => TailRows(w, i, j, victim, k);
      case Crash(i) => CrashedRows(w, i, k);
      case Replay(i, victim) => TailRows(w, i, i, victim, k);
      case Boot(i) => BootRows(w, i, k);
    }
  }

  lemma CountRowsOf(w: World, e: Event, k: Code)
    requires RowInv(w, k) && e.Resolve? && Enabled(w, e)
    ensures RowInv(Do(w, e, k), k)
  {
    var w' := Do(w, e, k);
    if e.tracked {
      assert w.nodes[e.i].buf + [] == w.nodes[e.i].buf;
      CountRows(w, w', e.i, w'.nodes[e.i], k);
    }
  }

  lemma {:induction false} RowInvRun(n: nat, es: seq<Event>, k: Code)
    requires n <= MAX_INSTANCES
    ensures RowInv(Run(n, es, k), k)
  {
    if es != [] {
      RowInvRun(n, es[..|es| - 1], k);
      RowInvStep(Run(n, es[..|es| - 1], k), es[|es| - 1], k);
    }
  }
}
