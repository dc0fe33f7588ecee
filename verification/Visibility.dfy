/** The store on bytes and the cluster on records: a read of a sibling's log file folds in exactly the
    records that tailing events fold in, so what the cluster guarantees holds of the store's lookup. */
module Visibility {
  import opened Bytes
  import opened Codec
  import opened Aof
  import opened Engine
  import C = Cluster
  import H = ClusterHits
  import V = Convergence
  import S = LocalStores

  /** One record of a sibling's log, or while booting of the own one. */
  function FoldEvent(i: nat, j: nat, victim: Code): C.Event {
    if i == j then C.Replay(i, victim) else C.Tail(i, j, victim)
  }

  /** Instance `i` folds the next records of log `j`, one event each; what each evicts is given. */
  function Tails(w: C.World, i: nat, j: nat, victims: seq<Code>, k: Code): C.World {
    if victims == [] then w
    else C.Do(Tails(w, i, j, victims[..|victims| - 1], k), FoldEvent(i, j, victims[|victims| - 1]), k)
  }

  /** A live instance folds the logs of its siblings, a booting one its own. */
  predicate MayFold(w: C.World, i: nat, j: nat) {
    i < |w.nodes| && j < |w.nodes| && (w.nodes[i].live <==> i != j)
  }

  /** Node `d` after folding `ops` and moving its place in log `j` to `to`. */
  function Moved(d: C.Node, i: nat, j: nat, ops: seq<LogOp>, victims: seq<Code>, to: nat): C.Node
    requires |victims| == |ops| && j < |d.seen|
  {
    d.(mem := Fold(d.mem, i, ops, victims), seen := d.seen[j := to])
  }

  /** `w'` is `w` after instance `i` folded `count` records of log `j`. */
  predicate Folded(w: C.World, w': C.World, i: nat, j: nat, victims: seq<Code>) {
    i < |w.nodes| && j < |w.nodes| && j < |w.nodes[i].seen| &&
    var d := w.nodes[i];
    var from, to := d.seen[j], d.seen[j] + |victims|;
    to <= |w.nodes[j].log| &&
    w'.nodes == w.nodes[i := Moved(d, i, j, w.nodes[j].log[from..to], victims, to)]
  }

  lemma FoldNextIn(m: Mem, me: int, log: seq<LogOp>, from: nat, to: nat, victims: seq<Code>)
    requires from < to <= |log| && |victims| == to - from
    ensures Fold(m, me, log[from..to], victims) ==
            Apply(Fold(m, me, log[from..to - 1], victims[..|victims| - 1]), me, log[to - 1], victims[|victims| - 1])
  {
    assert log[from..to][..to - from - 1] == log[from..to - 1];
  }

  lemma FoldedKeeps(w: C.World, w0: C.World, i: nat, j: nat, victims: seq<Code>)
    requires Folded(w, w0, i, j, victims)
    ensures |w0.nodes| == |w.nodes| && w0.nodes[j].log == w.nodes[j].log && w0.nodes[i].live == w.nodes[i].live
    ensures |w0.nodes[i].seen| == |w.nodes[i].seen| && w0.nodes[i].seen[j] == w.nodes[i].seen[j] + |victims|
  {
  }

  lemma TailIs(w: C.World, w0: C.World, i: nat, j: nat, victims: seq<Code>, victim: Code, k: Code)
    requires Folded(w, w0, i, j, victims) && MayFold(w, i, j)
    requires w.nodes[i].seen[j] + |victims| < |w.nodes[j].log|
    ensures var d := w0.nodes[i];
            var at := w.nodes[i].seen[j] + |victims|;
            C.Do(w0, FoldEvent(i, j, victim), k).nodes ==
              w0.nodes[i := d.(mem := Apply(d.mem, i, w.nodes[j].log[at], victim), seen := d.seen[j := at + 1])]
  {
    FoldedKeeps(w, w0, i, j, victims);
  }

  lemma Overwritten<T>(s: seq<T>, i: nat, a: T, b: T)
    requires i < |s|
    ensures s[i := a][i := b] == s[i := b]
  {
  }

  lemma MovedOn(d: C.Node, i: nat, j: nat, log: seq<LogOp>, to: nat, victims: seq<Code>, victim: Code)
    requires j < |d.seen| && d.seen[j] + |victims| == to < |log|
    ensures var d0 := Moved(d, i, j, log[d.seen[j]..to], victims, to);
            Moved(d, i, j, log[d.seen[j]..to + 1], victims + [victim], to + 1) ==
            d0.(mem := Apply(d0.mem, i, log[to], victim), seen := d0.seen[j := to + 1])
  {
    FoldNextIn(d.mem, i, log, d.seen[j], to + 1, victims + [victim]);
    assert (victims + [victim])[..|victims|] == victims;
    Overwritten(d.seen, j, to, to + 1);
  }

  lemma FoldedAs(w: C.World, w': C.World, i: nat, j: nat, d: C.Node, victims: seq<Code>)
    requires i < |w.nodes| && j < |w.nodes| && j < |w.nodes[i].seen| && w'.nodes == w.nodes[i := d]
    requires w.nodes[i].seen[j] + |victims| <= |w.nodes[j].log|
    requires var from := w.nodes[i].seen[j];
      d == Moved(w.nodes[i], i, j, w.nodes[j].log[from..from + |victims|], victims, from + |victims|)
    ensures Folded(w, w', i, j, victims)
  {
  }

  /** The same with the records named. */
  lemma FoldedRecords(w: C.World, w': C.World, i: nat, j: nat, ops: seq<LogOp>, victims: seq<Code>)
    requires Folded(w, w', i, j, victims) && |victims| == |ops|
    requires var from := w.nodes[i].seen[j]; ops == w.nodes[j].log[from..from + |victims|]
    ensures w'.nodes == w.nodes[i := Moved(w.nodes[i], i, j, ops, victims, w.nodes[i].seen[j] + |victims|)]
  {
  }

  lemma NoTails(w: C.World, i: nat, j: nat)
    requires i < |w.nodes| && j < |w.nodes| && j < |w.nodes[i].seen| && w.nodes[i].seen[j] <= |w.nodes[j].log|
    ensures Folded(w, w, i, j, [])
  {
    var d := w.nodes[i];
    assert w.nodes[j].log[d.seen[j]..d.seen[j]] == [];
    assert d.seen[j := d.seen[j]] == d.seen;
    assert w.nodes[i := d] == w.nodes;
  }

  /** One more record, given what the event did to the node. */
  lemma OneMoved(w: C.World, w0: C.World, w': C.World, i: nat, j: nat, victims: seq<Code>, victim: Code)
    requires Folded(w, w0, i, j, victims) && w.nodes[i].seen[j] + |victims| < |w.nodes[j].log|
    requires var d, to := w0.nodes[i], w.nodes[i].seen[j] + |victims|;
      j < |d.seen| &&
      w'.nodes == w0.nodes[i := d.(mem := Apply(d.mem, i, w.nodes[j].log[to], victim), seen := d.seen[j := to + 1])]
    ensures Folded(w, w', i, j, victims + [victim])
  {
    var to := w.nodes[i].seen[j] + |victims|;
    MovedOn(w.nodes[i], i, j, w.nodes[j].log, to, victims, victim);
    Overwritten(w.nodes, i, w0.nodes[i], w'.nodes[i]);
    FoldedAs(w, w', i, j, w'.nodes[i], victims + [victim]);
  }

  lemma OneTail(w: C.World, w0: C.World, i: nat, j: nat, victims: seq<Code>, victim: Code, k: Code)
    requires Folded(w, w0, i, j, victims) && MayFold(w, i, j)
    requires w.nodes[i].seen[j] + |victims| < |w.nodes[j].log|
    ensures Folded(w, C.Do(w0, FoldEvent(i, j, victim), k), i, j, victims + [victim])
  {
    FoldedKeeps(w, w0, i, j, victims);
    TailIs(w, w0, i, j, victims, victim, k);
    OneMoved(w, w0, C.Do(w0, FoldEvent(i, j, victim), k), i, j, victims, victim);
  }

  lemma {:induction false} TailsFold(w: C.World, i: nat, j: nat, victims: seq<Code>, k: Code)
    requires C.RowInv(w, k) && MayFold(w, i, j) && w.nodes[i].seen[j] + |victims| <= |w.nodes[j].log|
    ensures var w' := Tails(w, i, j, victims, k);
            C.RowInv(w', k) && w'.foreign == w.foreign && w'.touched == w.touched && Folded(w, w', i, j, victims)
  {
    if victims == [] {
      NoTails(w, i, j);
    } else {
      var front, last := victims[..|victims| - 1], victims[|victims| - 1];
      assert front + [last] == victims;
      TailsFold(w, i, j, front, k);
      var w0 := Tails(w, i, j, front, k);
      C.RowInvStep(w0, FoldEvent(i, j, last), k);
      SameOwner(w0, FoldEvent(i, j, last), k);
      OneTail(w, w0, i, j, front, last, k);
    }
  }

  lemma SameOwner(w: C.World, e: C.Event, k: Code)
    requires e.Tail? || e.Replay?
    ensures C.Do(w, e, k).foreign == w.foreign && C.Do(w, e, k).touched == w.touched
  {
  }

  /** A reader of log `j` that stands where instance `i` stands in the cluster. */
  predicate InStep(w: C.World, i: nat, j: nat, r: Reader) {
    i < |w.nodes| && j < |w.nodes| && j < |w.nodes[i].seen| &&
    StandsIn(r, EncodeLog(w.nodes[j].log)) && Completed(w.nodes[j].log, r.offset) == w.nodes[i].seen[j]
  }

  /** Reading a log file to its end delivers exactly the records not yet folded. */
  lemma ReadsTheRest(w: C.World, i: nat, j: nat, r: Reader)
    requires InStep(w, i, j, r) && AllLoggable(w.nodes[j].log)
    ensures var log := w.nodes[j].log;
            var (r', lines) := S.Caught(r, EncodeLog(log));
            w.nodes[i].seen[j] <= |log| && DecodeAll(lines) == log[w.nodes[i].seen[j]..] &&
            StandsIn(r', EncodeLog(log)) && Completed(log, r'.offset) == |log|
  {
    var log := w.nodes[j].log;
    var file := EncodeLog(log);
    assert log + [] == log;
    TailDeliversOps(r, log, [], |file| - r.offset);
    AllCompleted(log);
  }

  /** The byte-level read of log `j` by instance `i` and the tailing events agree: same memory, and the
      reader is in step again. */
  lemma TailRefines(w: C.World, i: nat, j: nat, r: Reader, victims: seq<Code>, k: Code)
    requires C.RowInv(w, k) && i != j && InStep(w, i, j, r) && w.nodes[i].live && AllLoggable(w.nodes[j].log)
    requires var (_, lines) := S.Caught(r, EncodeLog(w.nodes[j].log)); |victims| == |DecodeAll(lines)|
    ensures var (r', lines) := S.Caught(r, EncodeLog(w.nodes[j].log));
            var w' := Tails(w, i, j, victims, k);
            C.RowInv(w', k) && |w'.nodes| == |w.nodes| && InStep(w', i, j, r') &&
            w'.nodes[i].mem == Fold(w.nodes[i].mem, i, DecodeAll(lines), victims)
  {
    ReadsTheRest(w, i, j, r);
    TailsFold(w, i, j, victims, k);
    var (r', lines) := S.Caught(r, EncodeLog(w.nodes[j].log));
    FoldedAll(w, Tails(w, i, j, victims, k), i, j, r', DecodeAll(lines), victims);
  }

  lemma ToTheEnd(log: seq<LogOp>, from: nat, count: nat)
    requires from + count == |log|
    ensures log[from..from + count] == log[from..]
  {
  }

  lemma FoldedMem(w: C.World, w': C.World, i: nat, j: nat, ops: seq<LogOp>, victims: seq<Code>)
    requires Folded(w, w', i, j, victims) && i != j && |victims| == |ops| && ops == w.nodes[j].log[w.nodes[i].seen[j]..]
    ensures |w'.nodes| == |w.nodes| && w'.nodes[j] == w.nodes[j] && w'.nodes[i].live == w.nodes[i].live
    ensures w'.nodes[i].mem == Fold(w.nodes[i].mem, i, ops, victims)
    ensures |w'.nodes[i].seen| == |w.nodes[i].seen| && w'.nodes[i].seen[j] == |w.nodes[j].log|
  {
    var from, log := w.nodes[i].seen[j], w.nodes[j].log;
    ToTheEnd(log, from, |victims|);
    FoldedRecords(w, w', i, j, ops, victims);
  }

  lemma FoldedAll(w: C.World, w': C.World, i: nat, j: nat, r: Reader, ops: seq<LogOp>, victims: seq<Code>)
    requires Folded(w, w', i, j, victims) && i != j && |victims| == |ops| && ops == w.nodes[j].log[w.nodes[i].seen[j]..]
    requires StandsIn(r, EncodeLog(w.nodes[j].log)) && Completed(w.nodes[j].log, r.offset) == |w.nodes[j].log|
    ensures |w'.nodes| == |w.nodes| && InStep(w', i, j, r)
    ensures w'.nodes[i].mem == Fold(w.nodes[i].mem, i, ops, victims)
  {
    FoldedMem(w, w', i, j, ops, victims);
  }

  /** Once the owner has flushed a code that is never updated or removed, the store's lookup on a
      sibling that misses it in memory, reading the bytes of the owner's log file from wherever its
      reader stands, answers with the url as long as it has not expired. The answer is the one
      LocalStore.Resolve promises. */
  lemma MissFindsFlushed(n: nat, es: seq<C.Event>, k: Code, p: nat, i: nat, readers: map<int, Reader>,
                         files: map<int, bytes>, now: int, victims: seq<Code>)
    requires n <= MAX_INSTANCES && i < n && 0 <= Owner(k) < n && Owner(k) != i
    requires var w, o := C.Run(n, es, k), Owner(k);
      H.Plain(w) && w.nodes[i].live && AllLoggable(w.nodes[o].log) &&
      p < |w.nodes[o].log| && w.nodes[o].log[p].Row? && w.nodes[o].log[p].c == k &&
      S.FileOf(files, o) == EncodeLog(w.nodes[o].log) && InStep(w, i, o, S.At(readers, o)) &&
      |victims| == |S.Polled([o], readers, files)|
    ensures var w, o := C.Run(n, es, k), Owner(k);
      var row := w.nodes[o].log[p];
      Served(Fold(w.nodes[i].mem, i, S.Polled([o], readers, files), victims), k, now) ==
        if row.e == 0 || row.e > now then Some(row.u) else None
  {
    H.HitInvRun(n, es, k);
    S.PolledOne(Owner(k), readers, files);
    MissFinds(C.Run(n, es, k), k, p, i, Owner(k), S.At(readers, Owner(k)), now, victims);
  }

  lemma MissFinds(w: C.World, k: Code, p: nat, i: nat, o: nat, r: Reader, now: int, victims: seq<Code>)
    requires H.HitInv(w, k) && H.Plain(w) && o == Owner(k) && o != i && InStep(w, i, o, r) && w.nodes[i].live
    requires AllLoggable(w.nodes[o].log) && p < |w.nodes[o].log| && w.nodes[o].log[p].Row? && w.nodes[o].log[p].c == k
    requires |victims| == |DecodeAll(S.Caught(r, EncodeLog(w.nodes[o].log)).1)|
    ensures var row := w.nodes[o].log[p];
      Served(Fold(w.nodes[i].mem, i, DecodeAll(S.Caught(r, EncodeLog(w.nodes[o].log)).1), victims), k, now) ==
        if row.e == 0 || row.e > now then Some(row.u) else None
  {
    ReadsTheRest(w, i, o, r);
    TailsFold(w, i, o, victims, k);
    var w' := Tails(w, i, o, victims, k);
    FoldedMem(w, w', i, o, DecodeAll(S.Caught(r, EncodeLog(w.nodes[o].log)).1), victims);
    OwnersRow(w, p, k);
    RowServed(w', i, o, k, w.nodes[o].log[p], now);
  }

  lemma RowServed(w: C.World, i: nat, o: nat, k: Code, row: LogOp, now: int)
    requires C.RowInv(w, k) && !w.foreign && i < |w.nodes| && o < |w.nodes| && o == Owner(k) && o != i && row.Row?
    requires w.nodes[i].seen[o] == |w.nodes[o].log|
    requires RowFold(None, w.nodes[o].log, k) == Some(LinkRow(row.u, row.a, row.e, AsI32(row.i)))
    ensures Served(w.nodes[i].mem, k, now) == if row.e == 0 || row.e > now then Some(row.u) else None
  {
    assert C.RowOk(w, i, k);
    assert C.Known(w.nodes, i, o) == w.nodes[o].log;
  }

  lemma OwnersRow(w: C.World, p: nat, k: Code)
    requires H.HitInv(w, k) && H.Plain(w) && 0 <= Owner(k) < |w.nodes|
    requires var log := w.nodes[Owner(k)].log; p < |log| && log[p].Row? && log[p].c == k
    ensures var row := w.nodes[Owner(k)].log[p];
            RowFold(None, w.nodes[Owner(k)].log, k) == Some(LinkRow(row.u, row.a, row.e, AsI32(row.i)))
  {
    var o := Owner(k);
    H.LogsHaveNoDels(w, o, k);
    RowCountAppend(w.nodes[o].log, w.nodes[o].buf, k);
    V.OnlyRow(w.nodes[o].log, k, p);
  }
}
