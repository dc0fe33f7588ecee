/** N stores on bytes: files, queues of bytes, and a reader for every sibling's log file. Every run of
    them is a run of the cluster on records, so what is proved there holds of the bytes. */
module ByteCluster {
  import opened Bytes
  import opened Codec
  import opened Aof
  import opened Engine
  import opened Times
  import opened Sums
  import C = Cluster
  import H = ClusterHits
  import V = Convergence
  import D = DurableBytes
  import S = LocalStores
  import W = Visibility

  /** One store: what LocalStore keeps in memory, its log file, and the bytes queued for it. */
  datatype Node = Node(mem: Mem, dirty: map<Code, int>, file: bytes, queue: bytes,
                       readers: map<int, Reader>, live: bool)

  /** A read obtains any number of the bytes that are there; what each record evicts is given. */
  datatype Event =
    | Shorten(i: nat, c: Code, u: bytes, now: int, ttl: int)
    | Resolve(i: nat, c: Code, now: int, tracked: bool)
    | Update(i: nat, c: Code, u: bytes, now: int, ttl: int, hasTtl: bool)
    | Remove(i: nat, c: Code)
    | Drain(i: nat, c: Code)
    | Write(i: nat)
    | Read(i: nat, j: nat, got: nat, victims: seq<Code>)
    | Crash(i: nat)
    | Boot(i: nat, victims: seq<Code>)

  predicate Readable(b: seq<Node>, i: nat, j: nat, got: nat) {
    i < |b| && j < |b| && i != j && b[i].live &&
    got <= |b[j].file| - ResumeAt(S.At(b[i].readers, j), b[j].file).offset
  }

  /** What instance `i` makes of the next bytes of log file `j`: its reader, and the records delivered. */
  function Obtained(b: seq<Node>, i: nat, j: nat, got: nat): (Reader, seq<LogOp>)
    requires Readable(b, i, j, got)
  {
    var (r, lines) := ReadStep(S.At(b[i].readers, j), b[j].file, got);
    (r, DecodeAll(lines))
  }

  predicate Enabled(b: seq<Node>, e: Event) {
    e.i < |b| &&
    var d := b[e.i];
    match e
    case Shorten(_, c, _, _, _) => d.live && c !in d.mem.index
    case Resolve(_, c, now, _) => d.live && c in d.mem.index && Unexpired(d.mem.index[c], now)
    case Update(i, c, _, _, _, _) => d.live && MayMutate(d.mem, i, c) == Done
    case Remove(i, c) => d.live && MayMutate(d.mem, i, c) == Done
    case Drain(_, c) => d.live && c in d.dirty
    case Write(_) => d.live
    case Read(i, j, got, victims) => Readable(b, i, j, got) && |victims| == |Obtained(b, i, j, got).1|
    case Crash(_) => true
    case Boot(_, victims) => !d.live && |victims| == |FileOps(d.file)|
  }

  /** The memory changes and a record is queued. */
  function Queues(d: Node, mem: Mem, dirty: map<Code, int>, op: LogOp): Node {
    d.(mem := mem, dirty := dirty, queue := d.queue + EncodeLog([op]))
  }

  function After(b: seq<Node>, e: Event): Node
    requires Enabled(b, e)
  {
    var d := b[e.i];
    match e
    case Shorten(i, c, u, now, ttl) => Queues(d, Mint(d.mem, i, c, u, now, ttl), d.dirty, MintOp(i, c, u, now, ttl))
    case Resolve(_, c, _, tracked) =>
      if tracked then d.(mem := CountHit(d.mem, c), dirty := Dirtied(d.dirty, c)) else d
    case Update(i, c, u, now, ttl, hasTtl) =>
      Queues(d, Updated(d.mem, c, u, now, ttl, hasTtl), d.dirty, UpdateOp(d.mem, i, c, u, now, ttl, hasTtl))
    case Remove(_, c) => Queues(d, Removed(d.mem, c), d.dirty, Del(c))
    case Drain(i, c) => Queues(d, d.mem, d.dirty - {c}, Hit(c, d.dirty[c], i))
    case Write(_) => d.(file := d.file + d.queue, queue := [])
    case Read(i, j, got, victims) =>
      var (r, ops) := Obtained(b, i, j, got);
      d.(mem := Fold(d.mem, i, ops, victims), readers := d.readers[j := r])
    case Crash(_) => Node(EMPTY_MEM, map[], d.file, [], map[], false)
    case Boot(i, victims) => d.(mem := Fold(EMPTY_MEM, i, FileOps(d.file), victims), live := true)
  }

  function Do(b: seq<Node>, e: Event): (b': seq<Node>)
    ensures |b'| == |b|
  {
    if Enabled(b, e) then b[e.i := After(b, e)] else b
  }

  function Run(n: nat, es: seq<Event>): (b: seq<Node>)
    ensures |b| == n
  {
    if es == [] then seq(n, _ => Node(EMPTY_MEM, map[], [], [], map[], true))
    else Do(Run(n, es[..|es| - 1]), es[|es| - 1])
  }

  /** What the API lets through. */
  predicate InputOk(e: Event) {
    match e
    case Shorten(_, c, u, now, ttl) => CodeOk(c) && ValidUtf8(u) && IsI64(now) && IsI64(ExpiryAt(now, ttl))
    case Update(_, _, u, now, ttl, hasTtl) => ValidUtf8(u) && (hasTtl ==> IsI64(ExpiryAt(now, ttl)))
    case _ => true
  }

  /** No unflushed count has outgrown its 64 bits. */
  predicate CountsFit(b: seq<Node>) {
    forall i :: 0 <= i < |b| ==> forall c :: c in b[i].dirty ==> IsI64(b[i].dirty[c])
  }

  predicate Orderly(n: nat, es: seq<Event>) {
    es == [] || (Orderly(n, es[..|es| - 1]) && CountsFit(Run(n, es[..|es| - 1])) && InputOk(es[|es| - 1]))
  }

  /** No instance but its prefix owner tries to mint `k`. */
  predicate MintedAtHome(es: seq<Event>, k: Code) {
    forall x :: 0 <= x < |es| ==> AtHome(es[x], k)
  }

  predicate AtHome(e: Event, k: Code) {
    e.Shorten? && e.c == k ==> e.i == Owner(k)
  }

  /** Nobody updates or removes `k`. */
  predicate Untouched(es: seq<Event>, k: Code) {
    forall x :: 0 <= x < |es| ==> LeavesAlone(es[x], k)
  }

  predicate LeavesAlone(e: Event, k: Code) {
    e.Update? || e.Remove? ==> e.c != k
  }

  // ---- the bytes mirror the records ----

  /** Everything in the node's memory and pipes can be printed. */
  predicate Sound(d: Node, c: C.Node) {
    AllLoggable(c.log) && AllLoggable(c.buf) && D.IndexOk(d.mem) && forall code :: code in d.dirty ==> CodeOk(code)
  }

  predicate Mirrors(d: Node, c: C.Node) {
    d.mem == c.mem && d.dirty == c.dirty && d.live == c.live &&
    d.file == EncodeLog(c.log) && d.queue == EncodeLog(c.buf) && Sound(d, c)
  }

  /** A live node's readers stand where it stands; a node that is down has read nothing. */
  predicate Placed(d: Node, w: C.World, i: nat, j: nat) {
    i < |w.nodes| && j < |w.nodes| && j < |w.nodes[i].seen| &&
    if d.live then j != i ==> W.InStep(w, i, j, S.At(d.readers, j))
    else d.mem == EMPTY_MEM && d.dirty == map[] && d.readers == map[] && w.nodes[i].seen[j] == 0
  }

  predicate Refines(b: seq<Node>, w: C.World, k: Code) {
    |b| == |w.nodes| <= MAX_INSTANCES && C.RowInv(w, k) &&
    (forall i :: 0 <= i < |b| ==> Mirrors(b[i], w.nodes[i])) &&
    forall i, j :: 0 <= i < |b| && 0 <= j < |b| ==> Placed(b[i], w, i, j)
  }

  /** It is enough to look at the node that changed, if no log did. */
  lemma OnlyNode(b: seq<Node>, w: C.World, i: nat, d: Node, w': C.World, k: Code)
    requires Refines(b, w, k) && i < |b| && |w'.nodes| == |w.nodes| && w'.nodes == w.nodes[i := w'.nodes[i]]
    requires w'.nodes[i].log == w.nodes[i].log && C.RowInv(w', k) && Mirrors(d, w'.nodes[i])
    requires forall j :: 0 <= j < |b| ==> Placed(d, w', i, j)
    ensures Refines(b[i := d], w', k)
  {
    var b' := b[i := d];
    forall x, j | 0 <= x < |b'| && 0 <= j < |b'| ensures Placed(b'[x], w', x, j) {
      if x != i {
        assert Placed(b[x], w, x, j);
        assert w'.nodes[j].log == w.nodes[j].log && w'.nodes[x] == w.nodes[x];
      }
    }
  }

  lemma Unmoved(d: Node, d': Node, w: C.World, w': C.World, i: nat, j: nat)
    requires Placed(d, w, i, j) && d.live && d'.live && d'.readers == d.readers
    requires |w'.nodes| == |w.nodes| && w'.nodes[j].log == w.nodes[j].log && w'.nodes[i].seen == w.nodes[i].seen
    ensures Placed(d', w', i, j)
  {
  }

  /** A change of one live node that reads nothing and writes nothing. */
  lemma NodeChanged(b: seq<Node>, w: C.World, i: nat, d: Node, w': C.World, k: Code)
    requires Refines(b, w, k) && i < |b| && |w'.nodes| == |w.nodes| && w'.nodes == w.nodes[i := w'.nodes[i]]
    requires w'.nodes[i].log == w.nodes[i].log && w'.nodes[i].seen == w.nodes[i].seen && C.RowInv(w', k)
    requires Mirrors(d, w'.nodes[i]) && b[i].live && d.live && d.readers == b[i].readers
    ensures Refines(b[i := d], w', k)
  {
    forall j | 0 <= j < |b| ensures Placed(d, w', i, j) {
      assert Placed(b[i], w, i, j);
      Unmoved(b[i], d, w, w', i, j);
    }
    OnlyNode(b, w, i, d, w', k);
  }

  // ---- events that change one node's memory and queue ----

  /** The same event on records. */
  function Same(e: Event): C.Event
    requires !e.Read? && !e.Boot?
  {
    match e
    case Shorten(i, c, u, now, ttl) => C.Shorten(i, c, u, now, ttl)
    case Resolve(i, c, now, tracked) => C.Resolve(i, c, now, tracked)
    case Update(i, c, u, now, ttl, hasTtl) => C.Update(i, c, u, now, ttl, hasTtl)
    case Remove(i, c) => C.Remove(i, c)
    case Drain(i, c) => C.Drain(i, c)
    case Write(i) => C.Write(i)
    case Crash(i) => C.Crash(i)
  }

  predicate Queueing(e: Event) {
    e.Shorten? || e.Update? || e.Remove? || e.Drain?
  }

  /** The record a queueing event queues. */
  function Queued(d: Node, e: Event): LogOp
    requires Queueing(e) && (e.Update? ==> e.c in d.mem.index) && (e.Drain? ==> e.c in d.dirty)
  {
    match e
    case Shorten(i, c, u, now, ttl) => MintOp(i, c, u, now, ttl)
    case Update(i, c, u, now, ttl, hasTtl) => UpdateOp(d.mem, i, c, u, now, ttl, hasTtl)
    case Remove(_, c) => Del(c)
    case Drain(i, c) => Hit(c, d.dirty[c], i)
  }

  lemma QueueingIs(b: seq<Node>, w: C.World, e: Event, k: Code)
    requires Refines(b, w, k) && Enabled(b, e) && Queueing(e)
    ensures var d', c, w' := After(b, e), w.nodes[e.i], C.Do(w, Same(e), k);
      var op := Queued(b[e.i], e);
      C.Enabled(w, Same(e)) && w'.nodes == w.nodes[e.i := c.(mem := d'.mem, dirty := d'.dirty, buf := c.buf + [op])] &&
      d' == Queues(b[e.i], d'.mem, d'.dirty, op)
  {
    assert Mirrors(b[e.i], w.nodes[e.i]);
  }

  lemma QueueingSound(b: seq<Node>, w: C.World, e: Event, k: Code)
    requires Refines(b, w, k) && Enabled(b, e) && Queueing(e) && InputOk(e) && CountsFit(b)
    ensures Loggable(Queued(b[e.i], e)) && D.IndexOk(After(b, e).mem)
    ensures forall code :: code in After(b, e).dirty ==> CodeOk(code)
  {
    var d := b[e.i];
    assert Mirrors(d, w.nodes[e.i]);
    if e.Update? || e.Remove? {
      assert D.EntryOk(e.c, d.mem.index[e.c]);
    }
  }

  lemma QueueMirrors(d: Node, c: C.Node, d': Node, c': C.Node, op: LogOp)
    requires Mirrors(d, c) && Loggable(op) && D.IndexOk(d'.mem) && forall code :: code in d'.dirty ==> CodeOk(code)
    requires d' == Queues(d, d'.mem, d'.dirty, op) && c' == c.(mem := d'.mem, dirty := d'.dirty, buf := c.buf + [op])
    ensures Mirrors(d', c')
  {
    EncodeAppend(c.buf, [op]);
  }

  lemma QueueStep(b: seq<Node>, w: C.World, e: Event, k: Code)
    requires Refines(b, w, k) && Enabled(b, e) && Queueing(e) && InputOk(e) && CountsFit(b)
    ensures Refines(Do(b, e), C.Do(w, Same(e), k), k)
  {
    QueueingIs(b, w, e, k);
    QueueingSound(b, w, e, k);
    C.RowInvStep(w, Same(e), k);
    QueuedOne(b, w, e, After(b, e), Queued(b[e.i], e), C.Do(w, Same(e), k), k);
  }

  lemma QueuedOne(b: seq<Node>, w: C.World, e: Event, d': Node, op: LogOp, w': C.World, k: Code)
    requires Refines(b, w, k) && e.i < |b| && b[e.i].live && C.RowInv(w', k)
    requires Loggable(op) && D.IndexOk(d'.mem) && forall code :: code in d'.dirty ==> CodeOk(code)
    requires d' == Queues(b[e.i], d'.mem, d'.dirty, op)
    requires var c := w.nodes[e.i];
      w'.nodes == w.nodes[e.i := c.(mem := d'.mem, dirty := d'.dirty, buf := c.buf + [op])]
    ensures Refines(b[e.i := d'], w', k)
  {
    QueueMirrors(b[e.i], w.nodes[e.i], d', w'.nodes[e.i], op);
    NodeChanged(b, w, e.i, d', w', k);
  }

  lemma ResolveIs(b: seq<Node>, w: C.World, e: Event, k: Code)
    requires Refines(b, w, k) && Enabled(b, e) && e.Resolve?
    ensures var d', c, w' := After(b, e), w.nodes[e.i], C.Do(w, Same(e), k);
      w'.nodes == w.nodes[e.i := c.(mem := d'.mem, dirty := d'.dirty)] && Mirrors(d', w'.nodes[e.i]) &&
      d' == b[e.i].(mem := d'.mem, dirty := d'.dirty)
  {
    assert Mirrors(b[e.i], w.nodes[e.i]) && D.EntryOk(e.c, b[e.i].mem.index[e.c]);
    assert w.nodes[e.i := w.nodes[e.i]] == w.nodes;
  }

  lemma ResolveStep(b: seq<Node>, w: C.World, e: Event, k: Code)
    requires Refines(b, w, k) && Enabled(b, e) && e.Resolve?
    ensures Refines(Do(b, e), C.Do(w, Same(e), k), k)
  {
    ResolveIs(b, w, e, k);
    C.RowInvStep(w, Same(e), k);
    NodeChanged(b, w, e.i, After(b, e), C.Do(w, Same(e), k), k);
  }

  // ---- a log file grows ----

  /** A reader that stands in a log stands in the longer one, with the same records behind it. */
  lemma StandsLonger(r: Reader, log: seq<LogOp>, more: seq<LogOp>)
    requires AllLoggable(log + more) && StandsIn(r, EncodeLog(log))
    ensures StandsIn(r, EncodeLog(log + more)) && Completed(log + more, r.offset) == Completed(log, r.offset)
  {
    EncodeAppend(log, more);
    LinesOfLog(log + more);
    LinesOfAppend(log, more);
    WholeLinesStable(LinesOf(log), LinesOf(more), r.offset);
    assert EncodeLog(log + more)[..r.offset] == EncodeLog(log)[..r.offset];
  }

  lemma InStepLonger(w: C.World, w': C.World, i: nat, j: nat, r: Reader, more: seq<LogOp>)
    requires W.InStep(w, i, j, r) && |w'.nodes| == |w.nodes| && w'.nodes[i].seen == w.nodes[i].seen
    requires w'.nodes[j].log == w.nodes[j].log + more && AllLoggable(w'.nodes[j].log)
    ensures W.InStep(w', i, j, r)
  {
    StandsLonger(r, w.nodes[j].log, more);
  }

  lemma PlacedLonger(d: Node, w: C.World, w': C.World, i: nat, j: nat, more: seq<LogOp>)
    requires Placed(d, w, i, j) && |w'.nodes| == |w.nodes| && w'.nodes[i].seen == w.nodes[i].seen
    requires w'.nodes[j].log == w.nodes[j].log + more && AllLoggable(w'.nodes[j].log)
    ensures Placed(d, w', i, j)
  {
    if d.live && j != i {
      InStepLonger(w, w', i, j, S.At(d.readers, j), more);
    }
  }

  lemma WritePlaces(b: seq<Node>, w: C.World, i: nat, b': seq<Node>, w': C.World, k: Code)
    requires Refines(b, w, k) && i < |b| && b[i].live && |b'| == |b| && b' == b[i := b'[i]]
    requires b'[i].readers == b[i].readers && b'[i].live
    requires var c := w.nodes[i]; w'.nodes == w.nodes[i := c.(log := c.log + c.buf, buf := [])]
    ensures forall x, j :: 0 <= x < |b| && 0 <= j < |b| ==> Placed(b'[x], w', x, j)
  {
    forall x, j | 0 <= x < |b| && 0 <= j < |b| ensures Placed(b'[x], w', x, j) {
      assert Placed(b[x], w, x, j) && Mirrors(b[j], w.nodes[j]);
      assert w.nodes[j].log + [] == w.nodes[j].log;
      PlacedLonger(b[x], w, w', x, j, if j == i then w.nodes[i].buf else []);
    }
  }

  lemma WriteStep(b: seq<Node>, w: C.World, i: nat, k: Code)
    requires Refines(b, w, k) && Enabled(b, Write(i))
    ensures Refines(Do(b, Write(i)), C.Do(w, C.Write(i), k), k)
  {
    var w', b' := C.Do(w, C.Write(i), k), Do(b, Write(i));
    var c := w.nodes[i];
    assert Mirrors(b[i], c);
    C.RowInvStep(w, C.Write(i), k);
    assert w'.nodes == w.nodes[i := c.(log := c.log + c.buf, buf := [])];
    EncodeAppend(c.log, c.buf);
    assert Mirrors(b'[i], w'.nodes[i]);
    WritePlaces(b, w, i, b', w', k);
    WriteMirrors(b, w, i, w', b');
  }

  lemma WriteMirrors(b: seq<Node>, w: C.World, i: nat, w': C.World, b': seq<Node>)
    requires |b| == |w.nodes| == |w'.nodes| == |b'| && i < |b| && Mirrors(b'[i], w'.nodes[i])
    requires forall x :: 0 <= x < |b| ==> Mirrors(b[x], w.nodes[x])
    requires forall x :: 0 <= x < |b| && x != i ==> b'[x] == b[x] && w'.nodes[x] == w.nodes[x]
    ensures forall x :: 0 <= x < |b'| ==> Mirrors(b'[x], w'.nodes[x])
  {
  }

  // ---- a sibling's log file is read ----

  /** The bytes obtained deliver exactly the records they complete. */
  lemma Delivers(b: seq<Node>, w: C.World, i: nat, j: nat, got: nat, k: Code)
    requires Refines(b, w, k) && Readable(b, i, j, got)
    ensures var (r, ops) := Obtained(b, i, j, got);
      var log, from := w.nodes[j].log, w.nodes[i].seen[j];
      from + |ops| <= |log| && ops == log[from..from + |ops|] && StandsIn(r, EncodeLog(log)) &&
      Completed(log, r.offset) == from + |ops|
  {
    var log := w.nodes[j].log;
    assert Placed(b[i], w, i, j) && Mirrors(b[j], w.nodes[j]) && log + [] == log;
    TailDeliversOps(S.At(b[i].readers, j), log, [], got);
  }

  /** Instance `i` has folded what it read. */
  lemma ReadWorld(b: seq<Node>, w: C.World, i: nat, j: nat, got: nat, victims: seq<Code>, k: Code)
    requires Refines(b, w, k) && Enabled(b, Read(i, j, got, victims))
    ensures var (r, ops) := Obtained(b, i, j, got);
      var w' := W.Tails(w, i, j, victims, k);
      var c := w.nodes[i];
      C.RowInv(w', k) && w'.foreign == w.foreign && w'.touched == w.touched && j < |c.seen| && |victims| == |ops| &&
      w'.nodes == w.nodes[i := W.Moved(c, i, j, ops, victims, c.seen[j] + |victims|)]
  {
    assert Mirrors(b[i], w.nodes[i]) && Placed(b[i], w, i, j);
    Delivers(b, w, i, j, got, k);
    FoldsRead(w, i, j, Obtained(b, i, j, got).1, victims, k);
  }

  lemma FoldsRead(w: C.World, i: nat, j: nat, ops: seq<LogOp>, victims: seq<Code>, k: Code)
    requires C.RowInv(w, k) && W.MayFold(w, i, j) && |victims| == |ops|
    requires var from := w.nodes[i].seen[j];
      from + |ops| <= |w.nodes[j].log| && ops == w.nodes[j].log[from..from + |ops|]
    ensures var w' := W.Tails(w, i, j, victims, k);
      C.RowInv(w', k) && w'.foreign == w.foreign && w'.touched == w.touched && j < |w.nodes[i].seen| &&
      w'.nodes == w.nodes[i := W.Moved(w.nodes[i], i, j, ops, victims, w.nodes[i].seen[j] + |victims|)]
  {
    W.TailsFold(w, i, j, victims, k);
    W.FoldedRecords(w, W.Tails(w, i, j, victims, k), i, j, ops, victims);
  }

  lemma ReadPlaces(d: Node, d': Node, w: C.World, w': C.World, i: nat, j: nat, x: nat, r: Reader)
    requires Placed(d, w, i, x) && d.live && d'.live && d'.readers == d.readers[j := r] && i != j
    requires |w'.nodes| == |w.nodes| && w'.nodes[x].log == w.nodes[x].log && j < |w.nodes| && j < |w.nodes[i].seen|
    requires StandsIn(r, EncodeLog(w.nodes[j].log))
    requires w'.nodes[i].seen == w.nodes[i].seen[j := Completed(w.nodes[j].log, r.offset)]
    ensures Placed(d', w', i, x)
  {
  }

  /** The reader moved on; the others stand where they stood. */
  lemma ReadersPlaced(b: seq<Node>, w: C.World, i: nat, j: nat, r: Reader, d': Node, w': C.World, to: nat, k: Code)
    requires Refines(b, w, k) && i < |b| && j < |b| && i != j && b[i].live && j < |w.nodes[i].seen|
    requires StandsIn(r, EncodeLog(w.nodes[j].log)) && Completed(w.nodes[j].log, r.offset) == to
    requires |w'.nodes| == |w.nodes| && forall x :: 0 <= x < |b| ==> w'.nodes[x].log == w.nodes[x].log
    requires w'.nodes[i].seen == w.nodes[i].seen[j := to] && d'.live && d'.readers == b[i].readers[j := r]
    ensures forall x :: 0 <= x < |b| ==> Placed(d', w', i, x)
  {
    forall x | 0 <= x < |b| ensures Placed(d', w', i, x) {
      assert Placed(b[i], w, i, x);
      ReadPlaces(b[i], d', w, w', i, j, x, r);
    }
  }

  /** The node and the world after the read. */
  lemma ReadNode(b: seq<Node>, w: C.World, i: nat, j: nat, r: Reader, mem: Mem, to: nat, d': Node, c': C.Node,
      w': C.World, k: Code)
    requires Refines(b, w, k) && i < |b| && j < |b| && i != j && b[i].live && C.RowInv(w', k) && j < |w.nodes[i].seen|
    requires StandsIn(r, EncodeLog(w.nodes[j].log)) && Completed(w.nodes[j].log, r.offset) == to
    requires w'.nodes == w.nodes[i := c'] && c' == w.nodes[i].(mem := mem, seen := w.nodes[i].seen[j := to])
    requires D.IndexOk(mem) && d' == b[i].(mem := mem, readers := b[i].readers[j := r])
    ensures Refines(b[i := d'], w', k)
  {
    assert Mirrors(b[i], w.nodes[i]);
    assert Mirrors(d', c');
    ReadersPlaced(b, w, i, j, r, d', w', to, k);
    OnlyNode(b, w, i, d', w', k);
  }

  lemma MovedIs(c: C.Node, i: nat, j: nat, ops: seq<LogOp>, victims: seq<Code>, to: nat, mem: Mem)
    requires |victims| == |ops| && j < |c.seen| && mem == Fold(c.mem, i, ops, victims)
    ensures W.Moved(c, i, j, ops, victims, to) == c.(mem := mem, seen := c.seen[j := to])
  {
  }

  lemma ReadSound(b: seq<Node>, w: C.World, i: nat, ops: seq<LogOp>, victims: seq<Code>, k: Code)
    requires Refines(b, w, k) && i < |b| && |victims| == |ops| && AllLoggable(ops)
    ensures D.IndexOk(Fold(b[i].mem, i, ops, victims)) && b[i].mem == w.nodes[i].mem
  {
    assert Mirrors(b[i], w.nodes[i]);
    D.FoldIndexOk(b[i].mem, i, ops, victims);
  }

  lemma DeliversPrintable(b: seq<Node>, w: C.World, i: nat, j: nat, got: nat, k: Code)
    requires Refines(b, w, k) && Readable(b, i, j, got)
    ensures AllLoggable(Obtained(b, i, j, got).1)
  {
    Delivers(b, w, i, j, got, k);
    assert Mirrors(b[j], w.nodes[j]);
  }

  lemma RecordsRead(b: seq<Node>, w: C.World, i: nat, j: nat, r: Reader, ops: seq<LogOp>, victims: seq<Code>,
      to: nat, d': Node, c': C.Node, w': C.World, k: Code)
    requires Refines(b, w, k) && i < |b| && j < |b| && i != j && b[i].live && |victims| == |ops| && C.RowInv(w', k)
    requires j < |w.nodes[i].seen| && StandsIn(r, EncodeLog(w.nodes[j].log)) &&
      Completed(w.nodes[j].log, r.offset) == to
    requires w'.nodes == w.nodes[i := c'] && c' == W.Moved(w.nodes[i], i, j, ops, victims, to) && AllLoggable(ops)
    requires d' == b[i].(mem := Fold(b[i].mem, i, ops, victims), readers := b[i].readers[j := r])
    ensures Refines(b[i := d'], w', k)
  {
    ReadSound(b, w, i, ops, victims, k);
    MovedIs(w.nodes[i], i, j, ops, victims, to, d'.mem);
    ReadNode(b, w, i, j, r, d'.mem, to, d', c', w', k);
  }

  /** What a read comes to, in one place. */
  lemma ReadFacts(b: seq<Node>, w: C.World, i: nat, j: nat, got: nat, victims: seq<Code>, k: Code)
      returns (r: Reader, ops: seq<LogOp>, to: nat, c': C.Node)
    requires Refines(b, w, k) && Enabled(b, Read(i, j, got, victims))
    ensures (r, ops) == Obtained(b, i, j, got) && |victims| == |ops| && C.RowInv(W.Tails(w, i, j, victims, k), k)
    ensures j < |w.nodes[i].seen| && StandsIn(r, EncodeLog(w.nodes[j].log)) && Completed(w.nodes[j].log, r.offset) == to
    ensures W.Tails(w, i, j, victims, k).nodes == w.nodes[i := c'] && c' == W.Moved(w.nodes[i], i, j, ops, victims, to)
    ensures AllLoggable(ops)
  {
    ReadWorld(b, w, i, j, got, victims, k);
    Delivers(b, w, i, j, got, k);
    DeliversPrintable(b, w, i, j, got, k);
    r, ops := Obtained(b, i, j, got).0, Obtained(b, i, j, got).1;
    to := w.nodes[i].seen[j] + |victims|;
    c' := W.Moved(w.nodes[i], i, j, ops, victims, to);
  }

  lemma ReadStepRefines(b: seq<Node>, w: C.World, i: nat, j: nat, got: nat, victims: seq<Code>, k: Code)
    requires Refines(b, w, k) && Enabled(b, Read(i, j, got, victims))
    ensures Refines(Do(b, Read(i, j, got, victims)), W.Tails(w, i, j, victims, k), k)
  {
    var r, ops, to, c' := ReadFacts(b, w, i, j, got, victims, k);
    RecordsRead(b, w, i, j, r, ops, victims, to, After(b, Read(i, j, got, victims)), c',
                W.Tails(w, i, j, victims, k), k);
  }

  // ---- crash and boot ----

  lemma CrashStep(b: seq<Node>, w: C.World, i: nat, k: Code)
    requires Refines(b, w, k) && i < |b|
    ensures Refines(Do(b, Crash(i)), C.Do(w, C.Crash(i), k), k)
  {
    var w', d' := C.Do(w, C.Crash(i), k), After(b, Crash(i));
    assert Mirrors(b[i], w.nodes[i]);
    C.RowInvStep(w, C.Crash(i), k);
    assert w'.nodes == w.nodes[i := w'.nodes[i]];
    assert Mirrors(d', w'.nodes[i]);
    OnlyNode(b, w, i, d', w', k);
  }

  /** The records of the own log file, folded one after the other. */
  lemma Replayed(b: seq<Node>, w: C.World, i: nat, victims: seq<Code>, k: Code)
    requires Refines(b, w, k) && Enabled(b, Boot(i, victims))
    ensures var w' := W.Tails(w, i, i, victims, k);
      var c := w.nodes[i];
      C.RowInv(w', k) && w'.foreign == w.foreign && w'.touched == w.touched && FileOps(b[i].file) == c.log &&
      i < |c.seen| && c.seen[i] == 0 && |victims| == |c.log| &&
      w'.nodes == w.nodes[i := W.Moved(c, i, i, c.log, victims, c.seen[i] + |victims|)]
  {
    var c := w.nodes[i];
    assert Mirrors(b[i], c) && Placed(b[i], w, i, i);
    LogRoundTrip(c.log);
    assert c.log[0..|c.log|] == c.log;
    FoldsRead(w, i, i, c.log, victims, k);
  }

  /** A new reader stands at the beginning of any log. */
  lemma NewReaderStands(log: seq<LogOp>)
    requires AllLoggable(log)
    ensures StandsIn(S.NEW_READER, EncodeLog(log)) && Completed(log, 0) == 0
  {
    assert EncodeLog(log)[..0] == [];
    LinesOfLog(log);
    SplitOfTornFile(LinesOf(log), 0);
    assert LinesOf(log)[..Completed(log, 0)] == [];
  }

  lemma BootPlaces(b: seq<Node>, w: C.World, w': C.World, i: nat, j: nat, d': Node, k: Code)
    requires Refines(b, w, k) && i < |b| && j < |b| && !b[i].live && d'.live && d'.readers == map[]
    requires |w'.nodes| == |w.nodes| && w'.nodes[j].log == w.nodes[j].log
    requires w'.nodes[i].seen == w.nodes[i].seen[i := |w.nodes[i].log|]
    ensures Placed(d', w', i, j)
  {
    assert Placed(b[i], w, i, j) && Mirrors(b[j], w.nodes[j]);
    NewReaderStands(w.nodes[j].log);
  }

  lemma BootStep(b: seq<Node>, w: C.World, i: nat, victims: seq<Code>, k: Code)
    requires Refines(b, w, k) && Enabled(b, Boot(i, victims))
    ensures Refines(Do(b, Boot(i, victims)), C.Do(W.Tails(w, i, i, victims, k), C.Boot(i), k), k)
  {
    var w1 := W.Tails(w, i, i, victims, k);
    var w', d' := C.Do(w1, C.Boot(i), k), After(b, Boot(i, victims));
    var c := w.nodes[i];
    Replayed(b, w, i, victims, k);
    assert Mirrors(b[i], c) && Placed(b[i], w, i, i);
    D.FoldIndexOk(EMPTY_MEM, i, c.log, victims);
    C.RowInvStep(w1, C.Boot(i), k);
    assert w'.nodes == w.nodes[i := w1.nodes[i].(live := true)];
    assert Mirrors(d', w'.nodes[i]);
    forall j | 0 <= j < |b| ensures Placed(d', w', i, j) {
      BootPlaces(b, w, w', i, j, d', k);
    }
    OnlyNode(b, w, i, d', w', k);
  }

  // ---- whole runs ----

  lemma OneMore(n: nat, es: seq<C.Event>, e: C.Event, k: Code)
    ensures C.Run(n, es + [e], k) == C.Do(C.Run(n, es, k), e, k)
  {
    assert (es + [e])[..|es|] == es;
  }

  /** Folding records one by one at the end of a run. */
  lemma {:induction false} TailsRun(n: nat, es: seq<C.Event>, i: nat, j: nat, victims: seq<Code>, k: Code)
      returns (es': seq<C.Event>)
    ensures C.Run(n, es', k) == W.Tails(C.Run(n, es, k), i, j, victims, k)
  {
    if victims == [] {
      es' := es;
    } else {
      es' := TailsRun(n, es, i, j, victims[..|victims| - 1], k);
      OneMore(n, es', W.FoldEvent(i, j, victims[|victims| - 1]), k);
      es' := es' + [W.FoldEvent(i, j, victims[|victims| - 1])];
    }
  }

  /** What the events say of `k`, in the cluster's flags. */
  predicate Flagged(w: C.World, bs: seq<Event>, k: Code) {
    (MintedAtHome(bs, k) ==> !w.foreign) && (Untouched(bs, k) ==> !w.touched)
  }

  lemma FlagsStay(w: C.World, w': C.World, bs: seq<Event>, k: Code)
    requires bs != [] && Flagged(w, bs[..|bs| - 1], k)
    requires var e := bs[|bs| - 1];
      (AtHome(e, k) ==> w'.foreign == w.foreign) && (LeavesAlone(e, k) ==> w'.touched == w.touched)
    ensures Flagged(w', bs, k)
  {
    var e := bs[|bs| - 1];
    assert MintedAtHome(bs, k) ==> MintedAtHome(bs[..|bs| - 1], k) && AtHome(e, k);
    assert Untouched(bs, k) ==> Untouched(bs[..|bs| - 1], k) && LeavesAlone(e, k);
  }

  lemma SameFlags(w: C.World, e: Event, k: Code)
    requires !e.Read? && !e.Boot?
    ensures AtHome(e, k) ==> C.Do(w, Same(e), k).foreign == w.foreign
    ensures LeavesAlone(e, k) ==> C.Do(w, Same(e), k).touched == w.touched
  {
  }

  lemma RefineRead(n: nat, b: seq<Node>, es: seq<C.Event>, e: Event, k: Code) returns (es': seq<C.Event>)
    requires Refines(b, C.Run(n, es, k), k) && Enabled(b, e) && e.Read?
    ensures Refines(Do(b, e), C.Run(n, es', k), k)
    ensures C.Run(n, es', k).foreign == C.Run(n, es, k).foreign && C.Run(n, es', k).touched == C.Run(n, es, k).touched
  {
    es' := TailsRun(n, es, e.i, e.j, e.victims, k);
    ReadWorld(b, C.Run(n, es, k), e.i, e.j, e.got, e.victims, k);
    ReadStepRefines(b, C.Run(n, es, k), e.i, e.j, e.got, e.victims, k);
  }

  lemma RefineBoot(n: nat, b: seq<Node>, es: seq<C.Event>, e: Event, k: Code) returns (es': seq<C.Event>)
    requires Refines(b, C.Run(n, es, k), k) && Enabled(b, e) && e.Boot?
    ensures Refines(Do(b, e), C.Run(n, es', k), k)
    ensures C.Run(n, es', k).foreign == C.Run(n, es, k).foreign && C.Run(n, es', k).touched == C.Run(n, es, k).touched
  {
    es' := TailsRun(n, es, e.i, e.i, e.victims, k);
    Replayed(b, C.Run(n, es, k), e.i, e.victims, k);
    BootStep(b, C.Run(n, es, k), e.i, e.victims, k);
    OneMore(n, es', C.Boot(e.i), k);
    es' := es' + [C.Boot(e.i)];
  }

  /** One event on bytes is one event on records, or a few when it reads. */
  lemma RefineEvent(n: nat, b: seq<Node>, es: seq<C.Event>, e: Event, k: Code) returns (es': seq<C.Event>)
    requires Refines(b, C.Run(n, es, k), k) && Enabled(b, e) && InputOk(e) && CountsFit(b)
    ensures Refines(Do(b, e), C.Run(n, es', k), k)
    ensures AtHome(e, k) ==> C.Run(n, es', k).foreign == C.Run(n, es, k).foreign
    ensures LeavesAlone(e, k) ==> C.Run(n, es', k).touched == C.Run(n, es, k).touched
  {
    if e.Read? {
      es' := RefineRead(n, b, es, e, k);
    } else if e.Boot? {
      es' := RefineBoot(n, b, es, e, k);
    } else {
      OneMore(n, es, Same(e), k);
      es' := es + [Same(e)];
      SimpleStep(b, C.Run(n, es, k), e, k);
      SameFlags(C.Run(n, es, k), e, k);
    }
  }

  lemma SimpleStep(b: seq<Node>, w: C.World, e: Event, k: Code)
    requires Refines(b, w, k) && Enabled(b, e) && InputOk(e) && CountsFit(b) && !e.Read? && !e.Boot?
    ensures Refines(Do(b, e), C.Do(w, Same(e), k), k)
  {
    if e.Resolve? {
      ResolveStep(b, w, e, k);
    } else if e.Write? {
      WriteStep(b, w, e.i, k);
    } else if e.Crash? {
      CrashStep(b, w, e.i, k);
    } else {
      QueueStep(b, w, e, k);
    }
  }

  lemma StartRefines(n: nat, k: Code)
    requires n <= MAX_INSTANCES
    ensures Refines(Run(n, []), C.Run(n, [], k), k) && H.Plain(C.Run(n, [], k))
  {
    C.RowInvRun(n, [], k);
    var b, w := Run(n, []), C.Run(n, [], k);
    NewReaderStands([]);
    assert EncodeLog([]) == [];
    forall i | 0 <= i < |b| ensures Mirrors(b[i], w.nodes[i]) {
    }
    forall i, j | 0 <= i < |b| && 0 <= j < |b| ensures Placed(b[i], w, i, j) {
    }
  }

  /** Every run of the stores on bytes, however many bytes each read obtains, is a run of the cluster on
      records: the files and queues are the printed logs, memories are equal, and every reader stands
      where its instance stands. */
  lemma {:induction false} BytesRefine(n: nat, bs: seq<Event>, k: Code) returns (es: seq<C.Event>)
    requires n <= MAX_INSTANCES && Orderly(n, bs)
    ensures Refines(Run(n, bs), C.Run(n, es, k), k) && Flagged(C.Run(n, es, k), bs, k)
  {
    if bs == [] {
      StartRefines(n, k);
      es := [];
    } else {
      var front, e := bs[..|bs| - 1], bs[|bs| - 1];
      es := BytesRefine(n, front, k);
      var w := C.Run(n, es, k);
      if Enabled(Run(n, front), e) {
        es := RefineEvent(n, Run(n, front), es, e, k);
      }
      FlagsStay(w, C.Run(n, es, k), bs, k);
    }
  }

  // ---- what follows for the bytes ----

  /** Everything instance `i` queued is in its file and it has read every other file to its end. */
  predicate CaughtUp(b: seq<Node>, i: nat)
    requires i < |b|
  {
    b[i].live && b[i].queue == [] &&
    forall j :: 0 <= j < |b| && j != i ==> S.At(b[i].readers, j).offset == |b[j].file|
  }

  lemma CaughtUpRecords(b: seq<Node>, w: C.World, i: nat, k: Code)
    requires Refines(b, w, k) && i < |b| && CaughtUp(b, i)
    ensures V.CaughtUp(w, i)
  {
    assert Mirrors(b[i], w.nodes[i]) && Placed(b[i], w, i, i);
    EmptyQueue(w.nodes[i].buf);
    forall j | 0 <= j < |b| && j != i ensures w.nodes[i].seen[j] == |w.nodes[j].log| {
      assert Mirrors(b[j], w.nodes[j]) && Placed(b[i], w, i, j);
      AllCompleted(w.nodes[j].log);
    }
  }

  lemma EmptyQueue(ops: seq<LogOp>)
    requires AllLoggable(ops) && EncodeLog(ops) == []
    ensures ops == []
  {
    LogRoundTrip(ops);
    LogRoundTrip([]);
    assert EncodeLog([]) == [];
  }

  /** In every run two instances that have read all files to their end hold the same row of a code that
      its prefix owner alone minted, updates, removals, crashes and split reads included. */
  lemma RowsConverge(n: nat, bs: seq<Event>, k: Code, i: nat, i': nat)
    requires n <= MAX_INSTANCES && Orderly(n, bs) && i < n && i' < n && MintedAtHome(bs, k)
    requires CaughtUp(Run(n, bs), i) && CaughtUp(Run(n, bs), i')
    ensures ViewOf(Run(n, bs)[i].mem, k).row == ViewOf(Run(n, bs)[i'].mem, k).row
  {
    var es := BytesRefine(n, bs, k);
    var b, w := Run(n, bs), C.Run(n, es, k);
    CaughtUpRecords(b, w, i, k);
    CaughtUpRecords(b, w, i', k);
    V.RowsConverge(n, es, k, i, i');
    assert Mirrors(b[i], w.nodes[i]) && Mirrors(b[i'], w.nodes[i']);
  }

  /** Once the owner's file holds the row of a code that is never updated or removed, a lookup on any
      sibling that reads that file to its end, from wherever its reader stands, answers with the url as
      long as it has not expired: the answer LocalStore.Resolve promises after a miss. */
  lemma LookupFinds(n: nat, bs: seq<Event>, k: Code, p: nat, i: nat, files: map<int, bytes>, now: int,
      victims: seq<Code>)
    requires n <= MAX_INSTANCES && Orderly(n, bs) && MintedAtHome(bs, k) && Untouched(bs, k) && i < n &&
      0 <= Owner(k) < n && Owner(k) != i
    requires var b, o := Run(n, bs), Owner(k);
      b[i].live && S.FileOf(files, o) == b[o].file && |victims| == |S.Polled([o], b[i].readers, files)| &&
      p < |FileOps(b[o].file)| && FileOps(b[o].file)[p].Row? && FileOps(b[o].file)[p].c == k
    ensures var b, o := Run(n, bs), Owner(k);
      var row := FileOps(b[o].file)[p];
      Served(Fold(b[i].mem, i, S.Polled([o], b[i].readers, files), victims), k, now) ==
        if row.e == 0 || row.e > now then Some(row.u) else None
  {
    var es := BytesRefine(n, bs, k);
    var b, w, o := Run(n, bs), C.Run(n, es, k), Owner(k);
    assert Mirrors(b[i], w.nodes[i]) && Mirrors(b[o], w.nodes[o]) && Placed(b[i], w, i, o);
    LogRoundTrip(w.nodes[o].log);
    W.MissFindsFlushed(n, es, k, p, i, b[i].readers, files, now, victims);
  }

  // ---- what became of a mint ----

  /** Every row of `k` this node has written or queued is `row`. */
  ghost predicate OnlyRows(d: Node, k: Code, row: LogOp) {
    forall op :: op in FileOps(d.file) || op in FileOps(d.queue) ==> op.Row? && op.c == k ==> op == row
  }

  lemma MirroredRecords(d: Node, c: C.Node)
    requires Mirrors(d, c)
    ensures FileOps(d.file) == c.log && FileOps(d.queue) == c.buf
  {
    LogRoundTrip(c.log);
    LogRoundTrip(c.buf);
  }

  lemma QueuedRecords(d: Node, c: C.Node, op: LogOp)
    requires Mirrors(d, c) && Loggable(op)
    ensures FileOps(d.queue + EncodeLog([op])) == c.buf + [op] && FileOps(d.file + d.queue) == c.log + c.buf
    ensures FileOps([]) == []
  {
    EncodeAppend(c.buf, [op]);
    EncodeAppend(c.log, c.buf);
    LogRoundTrip(c.buf + [op]);
    LogRoundTrip(c.log + c.buf);
    LogRoundTrip([]);
    assert EncodeLog([]) == [];
  }

  /** An event that does not mint or update `k` queues no row of `k`. */
  predicate NoRowOf(e: Event, k: Code) {
    (e.Shorten? ==> e.c != k) && LeavesAlone(e, k)
  }

  lemma QueueRows(b: seq<Node>, w: C.World, e: Event, k: Code, row: LogOp)
    requires Refines(b, w, k) && Enabled(b, e) && Queueing(e) && InputOk(e) && CountsFit(b) && NoRowOf(e, k)
    requires OnlyRows(b[e.i], k, row)
    ensures OnlyRows(After(b, e), k, row)
  {
    var d, op := b[e.i], Queued(b[e.i], e);
    QueueingIs(b, w, e, k);
    QueueingSound(b, w, e, k);
    MirroredRecords(d, w.nodes[e.i]);
    QueuedRecords(d, w.nodes[e.i], op);
    assert !(op.Row? && op.c == k);
    assert FileOps(After(b, e).queue) == FileOps(d.queue) + [op] && After(b, e).file == d.file;
  }

  /** Other events move records to the file or drop those queued. */
  lemma MovedRecords(b: seq<Node>, e: Event)
    requires Enabled(b, e) && !Queueing(e)
    ensures var d, d' := b[e.i], After(b, e);
      (d'.file == d.file && (d'.queue == d.queue || d'.queue == [])) || (d'.file == d.file + d.queue && d'.queue == [])
  {
  }

  lemma MovedRows(b: seq<Node>, w: C.World, e: Event, k: Code, row: LogOp)
    requires Refines(b, w, k) && Enabled(b, e) && !Queueing(e) && OnlyRows(b[e.i], k, row)
    ensures OnlyRows(After(b, e), k, row)
  {
    var d, c := b[e.i], w.nodes[e.i];
    assert Mirrors(d, c);
    MovedRecords(b, e);
    MirroredRecords(d, c);
    QueuedRecords(d, c, Del([97]));
    assert forall op :: op in c.log + c.buf ==> op in c.log || op in c.buf;
  }

  lemma StepRows(b: seq<Node>, w: C.World, e: Event, o: nat, k: Code, row: LogOp)
    requires Refines(b, w, k) && InputOk(e) && CountsFit(b) && NoRowOf(e, k) && o < |b| && OnlyRows(b[o], k, row)
    ensures OnlyRows(Do(b, e)[o], k, row)
  {
    if Enabled(b, e) && e.i == o {
      if Queueing(e) {
        QueueRows(b, w, e, k, row);
      } else {
        MovedRows(b, w, e, k, row);
      }
    }
  }

  lemma {:induction false} NoneCounted(ops: seq<LogOp>, k: Code)
    requires RowCount(ops, k) == 0
    ensures forall op :: op in ops ==> !(op.Row? && op.c == k)
  {
    if ops != [] {
      NoneCounted(ops[..|ops| - 1], k);
      assert ops == ops[..|ops| - 1] + [ops[|ops| - 1]];
    }
  }

  /** Right after a mint its row is the only one. */
  lemma MintRows(n: nat, b: seq<Node>, es: seq<C.Event>, e: Event, k: Code)
    requires n <= MAX_INSTANCES && Refines(b, C.Run(n, es, k), k) && H.Plain(C.Run(n, es, k)) && Enabled(b, e)
    requires e.Shorten? && e.c == k && e.i == Owner(k) && InputOk(e) && CountsFit(b)
    ensures OnlyRows(Do(b, e)[e.i], k, Row(k, e.u, e.now, if e.ttl > 0 then e.now + e.ttl else 0, e.i, 0))
  {
    var w := C.Run(n, es, k);
    var d, c, op := b[e.i], w.nodes[e.i], Queued(b[e.i], e);
    QueueingSound(b, w, e, k);
    assert Mirrors(d, c);
    H.HitInvRun(n, es, k);
    H.RowComesFromOwner(w, e.i, k);
    NoneCounted(c.log + c.buf, k);
    MirroredRecords(d, c);
    QueuedRecords(d, c, op);
    MintedOnly(c.log, c.buf, op, k);
  }

  lemma MintedOnly(log: seq<LogOp>, buf: seq<LogOp>, row: LogOp, k: Code)
    requires forall op :: op in log + buf ==> !(op.Row? && op.c == k)
    ensures forall op :: op in log || op in buf + [row] ==> op.Row? && op.c == k ==> op == row
  {
    forall op | (op in log || op in buf + [row]) && op.Row? && op.c == k ensures op == row {
      assert op in log ==> op in log + buf;
      assert op in buf ==> op in log + buf;
    }
  }

  lemma {:induction false} OrderlyPrefix(n: nat, bs: seq<Event>, m: nat)
    requires m <= |bs| && Orderly(n, bs)
    ensures Orderly(n, bs[..m])
  {
    if m < |bs| {
      assert bs[..|bs| - 1][..m] == bs[..m];
      OrderlyPrefix(n, bs[..|bs| - 1], m);
    } else {
      assert bs[..m] == bs;
    }
  }

  lemma RunPrefix(n: nat, bs: seq<Event>, m: nat)
    requires m < |bs| && Orderly(n, bs)
    ensures Run(n, bs[..m + 1]) == Do(Run(n, bs[..m]), bs[m]) && Orderly(n, bs[..m]) && Orderly(n, bs[..m + 1])
    ensures CountsFit(Run(n, bs[..m])) && InputOk(bs[m])
  {
    assert bs[..m + 1][..m] == bs[..m];
    OrderlyPrefix(n, bs, m);
    OrderlyPrefix(n, bs, m + 1);
  }

  /** Event `at` of the run mints `k` at its prefix owner, successfully, and no later one mints it. */
  predicate MintedAt(n: nat, bs: seq<Event>, at: nat, k: Code) {
    at < |bs| && bs[at].Shorten? && bs[at].c == k && bs[at].i == Owner(k) && Enabled(Run(n, bs[..at]), bs[at]) &&
    MintedAtHome(bs, k) && Untouched(bs, k) && forall x :: at < x < |bs| && bs[x].Shorten? ==> bs[x].c != k
  }

  function RowMinted(e: Event): LogOp
    requires e.Shorten?
  {
    Row(e.c, e.u, e.now, if e.ttl > 0 then e.now + e.ttl else 0, e.i, 0)
  }

  lemma UpToMint(n: nat, bs: seq<Event>, at: nat, k: Code)
    requires Orderly(n, bs) && MintedAt(n, bs, at, k)
    ensures MintedAtHome(bs[..at], k) && Untouched(bs[..at], k) && Orderly(n, bs[..at])
    ensures Run(n, bs[..at + 1]) == Do(Run(n, bs[..at]), bs[at]) && CountsFit(Run(n, bs[..at])) && InputOk(bs[at])
  {
    RunPrefix(n, bs, at);
    assert forall x :: 0 <= x < at ==> bs[..at][x] == bs[x];
  }

  lemma MintedNow(n: nat, bs: seq<Event>, at: nat, k: Code)
    requires n <= MAX_INSTANCES && Orderly(n, bs) && MintedAt(n, bs, at, k)
    ensures OnlyRows(Run(n, bs[..at + 1])[bs[at].i], k, RowMinted(bs[at]))
  {
    UpToMint(n, bs, at, k);
    var before, e := bs[..at], bs[at];
    var es := BytesRefine(n, before, k);
    MintRows(n, Run(n, before), es, e, k);
  }

  lemma MintKept(n: nat, front: seq<Event>, e: Event, o: nat, k: Code, row: LogOp)
    requires n <= MAX_INSTANCES && Orderly(n, front) && CountsFit(Run(n, front)) && InputOk(e) && NoRowOf(e, k) && o < n
    requires OnlyRows(Run(n, front)[o], k, row)
    ensures OnlyRows(Do(Run(n, front), e)[o], k, row)
  {
    var es := BytesRefine(n, front, k);
    StepRows(Run(n, front), C.Run(n, es, k), e, o, k, row);
  }

  lemma {:induction false} RowsStay(n: nat, bs: seq<Event>, m: nat, o: nat, k: Code, row: LogOp)
    requires n <= MAX_INSTANCES && Orderly(n, bs) && o < n && m <= |bs|
    requires OnlyRows(Run(n, bs[..m])[o], k, row) && forall x :: m <= x < |bs| ==> NoRowOf(bs[x], k)
    ensures OnlyRows(Run(n, bs)[o], k, row)
  {
    if m == |bs| {
      assert bs[..m] == bs;
    } else {
      var front := bs[..|bs| - 1];
      assert front[..m] == bs[..m];
      RowsStay(n, front, m, o, k, row);
      MintKept(n, front, bs[|bs| - 1], o, k, row);
    }
  }

  lemma NoneMintsLater(n: nat, bs: seq<Event>, at: nat, k: Code)
    requires MintedAt(n, bs, at, k)
    ensures bs[at].i == Owner(k) && forall x :: at + 1 <= x < |bs| ==> NoRowOf(bs[x], k)
  {
  }

  /** From the mint to the end of the run its row is the only one. */
  lemma MintStays(n: nat, bs: seq<Event>, at: nat, k: Code)
    requires n <= MAX_INSTANCES && Orderly(n, bs) && MintedAt(n, bs, at, k) && 0 <= Owner(k) < n
    ensures OnlyRows(Run(n, bs)[Owner(k)], k, RowMinted(bs[at]))
  {
    MintedNow(n, bs, at, k);
    NoneMintsLater(n, bs, at, k);
    RowsStay(n, bs, at + 1, Owner(k), k, RowMinted(bs[at]));
  }

  /** In every run: a code that its prefix owner minted at event `at`, never updated or removed, is
      served with its url for exactly its time to live, or for ever when that is not positive, by every
      sibling that looks it up once the owner's file has the row, whatever happened in between. */
  lemma MintIsServed(n: nat, bs: seq<Event>, at: nat, k: Code, i: nat, files: map<int, bytes>, later: int,
      victims: seq<Code>)
    requires n <= MAX_INSTANCES && Orderly(n, bs) && MintedAt(n, bs, at, k) && bs[at].now >= 0
    requires i < n && 0 <= Owner(k) < n && Owner(k) != i
    requires var b, o := Run(n, bs), Owner(k);
      b[i].live && S.FileOf(files, o) == b[o].file && |victims| == |S.Polled([o], b[i].readers, files)| &&
      exists op :: op in FileOps(b[o].file) && op.Row? && op.c == k
    ensures var e := bs[at];
      Served(Fold(Run(n, bs)[i].mem, i, S.Polled([Owner(k)], Run(n, bs)[i].readers, files), victims), k, later) ==
        if e.ttl <= 0 || later < e.now + e.ttl then Some(e.u) else None
  {
    var b, o := Run(n, bs), Owner(k);
    MintStays(n, bs, at, k);
    var op :| op in FileOps(b[o].file) && op.Row? && op.c == k;
    var p :| 0 <= p < |FileOps(b[o].file)| && FileOps(b[o].file)[p] == op;
    LookupFinds(n, bs, k, p, i, files, later, victims);
  }

  lemma {:induction false} OnlyRowFolds(ops: seq<LogOp>, k: Code, row: LogOp)
    requires row.Row? && NoDels(ops, k) && forall x :: 0 <= x < |ops| && ops[x].Row? && ops[x].c == k ==> ops[x] == row
    ensures RowFold(None, ops, k) in {None, Some(LinkRow(row.u, row.a, row.e, AsI32(row.i)))}
  {
    if ops != [] {
      OnlyRowFolds(ops[..|ops| - 1], k, row);
    }
  }

  /** So does every instance that has the link in memory, the owner included. */
  lemma MemoryServes(n: nat, bs: seq<Event>, at: nat, k: Code, i: nat, now: int)
    requires n <= MAX_INSTANCES && Orderly(n, bs) && MintedAt(n, bs, at, k) && bs[at].now >= 0
    requires i < n && 0 <= Owner(k) < n && k in Run(n, bs)[i].mem.index
    ensures var e := bs[at];
      Served(Run(n, bs)[i].mem, k, now) == if e.ttl <= 0 || now < e.now + e.ttl then Some(e.u) else None
  {
    var es := BytesRefine(n, bs, k);
    var b, w, o := Run(n, bs), C.Run(n, es, k), Owner(k);
    MintStays(n, bs, at, k);
    H.HitInvRun(n, es, k);
    H.LogsHaveNoDels(w, o, k);
    KnownRows(b, w, i, o, k, RowMinted(bs[at]));
    OnlyRowFolds(C.Known(w.nodes, i, o), k, RowMinted(bs[at]));
    assert Mirrors(b[i], w.nodes[i]) && C.RowOk(w, i, k);
  }

  lemma KnownRows(b: seq<Node>, w: C.World, i: nat, o: nat, k: Code, row: LogOp)
    requires Refines(b, w, k) && i < |b| && o < |b| && OnlyRows(b[o], k, row)
    requires NoDels(w.nodes[o].log, k) && NoDels(w.nodes[o].buf, k)
    ensures var part := C.Known(w.nodes, i, o);
      NoDels(part, k) && forall x :: 0 <= x < |part| && part[x].Row? && part[x].c == k ==> part[x] == row
  {
    MirroredRecords(b[o], w.nodes[o]);
    var part := C.Known(w.nodes, i, o);
    forall x | 0 <= x < |part| && part[x].Row? && part[x].c == k ensures part[x] == row {
      assert part[x] in w.nodes[o].log || part[x] in w.nodes[o].buf;
    }
  }

  /** The store as the object the program runs, in the state of node `i`. */
  ghost predicate IsNode(s: S.LocalStore, d: Node, i: nat)
    reads s
  {
    s.Valid() && s.persistent && s.me == i && s.Memory() == d.mem && s.readers == d.readers
  }

  /** And that is what the store's own lookup answers, from memory or from the owner's file. */
  method LookupAnswers(s: S.LocalStore, ghost n: nat, ghost bs: seq<Event>, ghost at: nat, k: Code, i: nat,
      listed: seq<int>, files: map<int, bytes>, now: int, later: int)
      returns (r: Option<bytes>)
    requires n <= MAX_INSTANCES && Orderly(n, bs) && MintedAt(n, bs, at, k) && bs[at].now >= 0
    requires i < n && 0 <= Owner(k) < n && i !in listed && IsNode(s, Run(n, bs)[i], i) && Run(n, bs)[i].live
    requires var b, o := Run(n, bs), Owner(k);
      k in s.index ||
      (o != i && S.FileOf(files, o) == b[o].file && exists op :: op in FileOps(b[o].file) && op.Row? && op.c == k)
    modifies s`index, s`stray, s`readers, s`lastPoll, s`dirty
    ensures var e := bs[at];
      var clock := if k in old(s.index) then now else later;
      r == if e.ttl <= 0 || clock < e.now + e.ttl then Some(e.u) else None
  {
    ghost var o, rs, known := Owner(k), s.readers, k in s.index;
    S.PolledOne(o, rs, files);
    ghost var order, victims;
    r, order, victims := s.Resolve(k, now, later, listed, files);
    if known {
      MemoryServes(n, bs, at, k, i, now);
    } else {
      MintIsServed(n, bs, at, k, i, files, later, victims);
    }
  }
}
