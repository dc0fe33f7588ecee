/** What whole runs of the cluster guarantee to its clients. */
module Convergence {
  import opened Bytes
  import opened Codec
  import opened Engine
  import opened Sums
  import opened Cluster
  import opened ClusterHits

  // ---- rows ----

  /** Instance `i` is up and has folded every durable record of every log, its own included. */
  predicate CaughtUp(w: World, i: nat)
    requires i < |w.nodes|
  {
    w.nodes[i].live && w.nodes[i].buf == [] && |w.nodes[i].seen| == |w.nodes| &&
    forall j :: 0 <= j < |w.nodes| && j != i ==> w.nodes[i].seen[j] == |w.nodes[j].log|
  }

  lemma CaughtUpKnows(w: World, i: nat, j: nat)
    requires Shape(w.nodes) && i < |w.nodes| && j < |w.nodes| && CaughtUp(w, i)
    ensures Known(w.nodes, i, j) == w.nodes[j].log
  {
  }

  /** At every moment of every run, what an instance serves for `k` is the row left behind by the
      part of the prefix owner's log it has folded: other logs do not matter, nor how far they
      are folded. Update, remove, crashes and reboots are included. */
  lemma RowFollowsOwner(n: nat, es: seq<Event>, k: Code, i: nat)
    requires n <= MAX_INSTANCES && i < n
    ensures var w := Run(n, es, k);
      Shape(w.nodes) &&
      (!w.foreign ==> ViewOf(w.nodes[i].mem, k).row == RowFold(None, OwnersPart(w.nodes, i, k), k))
  {
    RowInvRun(n, es, k);
    assert RowOk(Run(n, es, k), i, k);
  }

  /** Two instances that are caught up with the same logs serve the same row. */
  lemma RowsConverge(n: nat, es: seq<Event>, k: Code, i: nat, i': nat)
    requires n <= MAX_INSTANCES && i < n && i' < n
    ensures var w := Run(n, es, k);
      (!w.foreign && CaughtUp(w, i) && CaughtUp(w, i') ==>
        ViewOf(w.nodes[i].mem, k).row == ViewOf(w.nodes[i'].mem, k).row)
  {
    RowFollowsOwner(n, es, k, i);
    RowFollowsOwner(n, es, k, i');
    var w := Run(n, es, k);
    if !w.foreign && CaughtUp(w, i) && CaughtUp(w, i') && 0 <= Owner(k) < n {
      CaughtUpKnows(w, i, Owner(k));
      CaughtUpKnows(w, i', Owner(k));
    }
  }

  /** `picks` draws every record of every log, each log in its own order. */
  predicate IsWeave(logs: seq<seq<LogOp>>, picks: seq<nat>)
    decreases |picks|
  {
    if picks == [] then forall j :: 0 <= j < |logs| ==> logs[j] == []
    else
      var j := picks[|picks| - 1];
      j < |logs| && logs[j] != [] && IsWeave(logs[j := logs[j][..|logs[j]| - 1]], picks[..|picks| - 1])
  }

  /** The records in the order `picks` draws them. */
  function Weave(logs: seq<seq<LogOp>>, picks: seq<nat>): seq<LogOp>
    requires IsWeave(logs, picks)
    decreases |picks|
  {
    if picks == [] then []
    else
      var j := picks[|picks| - 1];
      var m := |logs[j]| - 1;
      Weave(logs[j := logs[j][..m]], picks[..|picks| - 1]) + [logs[j][m]]
  }

  /** `row` is the row log `j` leaves; with no such log, no log mentions the row. */
  predicate LeftBy(logs: seq<seq<LogOp>>, j: nat, row: Option<LinkRow>, k: Code) {
    if j < |logs| then !Silent(logs[j], k) && row == RowFold(None, logs[j], k)
    else row == None && forall i :: 0 <= i < |logs| ==> Silent(logs[i], k)
  }

  /** One more record of log `i` folded in. */
  lemma LeftByNext(logs: seq<seq<LogOp>>, i: nat, j: nat, row: Option<LinkRow>, k: Code) returns (j': nat)
    requires i < |logs| && logs[i] != []
    requires LeftBy(logs[i := logs[i][..|logs[i]| - 1]], j, row, k)
    ensures LeftBy(logs, j', RowStep(row, logs[i][|logs[i]| - 1], k), k)
  {
    var m := |logs[i]| - 1;
    var logs' := logs[i := logs[i][..m]];
    if logs[i][m].Code() == k && !logs[i][m].Hit? {
      j' := i;
    } else {
      j' := j;
      ShorterSilent(logs[i], k);
      forall x | 0 <= x < |logs| ensures Silent(logs[x], k) == Silent(logs'[x], k) {
      }
    }
  }

  /** The row an interleaving leaves is the one some log leaves. */
  lemma {:induction false} WeaveFollowsSome(logs: seq<seq<LogOp>>, picks: seq<nat>, k: Code) returns (j: nat)
    requires IsWeave(logs, picks)
    decreases |picks|
    ensures LeftBy(logs, j, RowFold(None, Weave(logs, picks), k), k)
  {
    if picks == [] {
      return |logs|;
    }
    var i := picks[|picks| - 1];
    var m := |logs[i]| - 1;
    var logs' := logs[i := logs[i][..m]];
    var front := Weave(logs', picks[..|picks| - 1]);
    j := WeaveFollowsSome(logs', picks[..|picks| - 1], k);
    RowFoldOne(None, front, logs[i][m], k);
    j := LeftByNext(logs, i, j, RowFold(None, front, k), k);
  }

  lemma ShorterSilent(ops: seq<LogOp>, k: Code)
    requires ops != [] && (ops[|ops| - 1].Code() == k ==> ops[|ops| - 1].Hit?)
    ensures Silent(ops, k) == Silent(ops[..|ops| - 1], k)
  {
  }

  /** If only log `o` says anything about the row, every interleaving leaves what log `o` leaves. */
  lemma WeaveRow(logs: seq<seq<LogOp>>, picks: seq<nat>, k: Code, o: int)
    requires IsWeave(logs, picks)
    requires forall j :: 0 <= j < |logs| && j != o ==> Silent(logs[j], k)
    ensures RowFold(None, Weave(logs, picks), k) == if 0 <= o < |logs| then RowFold(None, logs[o], k) else None
  {
    var j := WeaveFollowsSome(logs, picks, k);
    if j >= |logs| && 0 <= o < |logs| {
      SilentRow(None, logs[o], k);
    }
  }

  function Logs(ns: seq<Node>): (s: seq<seq<LogOp>>)
    ensures |s| == |ns| && forall j :: 0 <= j < |ns| ==> s[j] == ns[j].log
  {
    seq(|ns|, j requires 0 <= j < |ns| => ns[j].log)
  }

  /** Fold the logs of any run in any two interleavings, on any two instances, whatever strays are
      evicted on the way: the row of `k` comes out the same, and it is the one the owner's log
      alone leaves behind. */
  lemma InterleavingsAgree(n: nat, es: seq<Event>, k: Code,
                           me: int, picks: seq<nat>, victims: seq<Code>,
                           me': int, picks': seq<nat>, victims': seq<Code>)
    requires n <= MAX_INSTANCES && !Run(n, es, k).foreign
    requires var logs := Logs(Run(n, es, k).nodes);
      IsWeave(logs, picks) && |victims| == |Weave(logs, picks)| &&
      IsWeave(logs, picks') && |victims'| == |Weave(logs, picks')|
    ensures var logs := Logs(Run(n, es, k).nodes);
      var row := ViewOf(Fold(EMPTY_MEM, me, Weave(logs, picks), victims), k).row;
      row == ViewOf(Fold(EMPTY_MEM, me', Weave(logs, picks'), victims'), k).row &&
      row == RowFold(None, OwnLog(Run(n, es, k).nodes, Owner(k)), k)
  {
    var w := Run(n, es, k);
    var logs := Logs(w.nodes);
    RowInvRun(n, es, k);
    forall j | 0 <= j < |logs| && j != Owner(k) ensures Silent(logs[j], k) {
      assert LogOk(w, j, k);
    }
    WeaveRow(logs, picks, k, Owner(k));
    WeaveRow(logs, picks', k, Owner(k));
    FoldRow(EMPTY_MEM, me, Weave(logs, picks), victims, k);
    FoldRow(EMPTY_MEM, me', Weave(logs, picks'), victims', k);
  }

  // ---- more than one owner ----

  /** Folding the logs in any two interleavings leaves the same row. */
  ghost predicate InterleavingsAgreeOn(logs: seq<seq<LogOp>>, k: Code) {
    forall picks, picks' :: IsWeave(logs, picks) && IsWeave(logs, picks') ==>
      RowFold(None, Weave(logs, picks), k) == RowFold(None, Weave(logs, picks'), k)
  }

  /** Every log that says anything about the row of `k` ends up saying the same, a row or none. */
  predicate LogsAgreeOn(logs: seq<seq<LogOp>>, k: Code) {
    forall i, j :: 0 <= i < |logs| && 0 <= j < |logs| && !Silent(logs[i], k) && !Silent(logs[j], k) ==>
      RowFold(None, logs[i], k) == RowFold(None, logs[j], k)
  }

  lemma {:induction false} LoudDecidesRow(row: Option<LinkRow>, row': Option<LinkRow>, ops: seq<LogOp>, k: Code)
    requires !Silent(ops, k)
    ensures RowFold(row, ops, k) == RowFold(row', ops, k)
  {
    var n := |ops| - 1;
    if ops[n].Code() != k || ops[n].Hit? {
      LoudDecidesRow(row, row', ops[..n], k);
    }
  }

  /** Some interleaving of logs of which only the first `n` hold records. */
  lemma SomeWeave(logs: seq<seq<LogOp>>, n: nat) returns (picks: seq<nat>)
    requires n <= |logs| && forall i :: n <= i < |logs| ==> logs[i] == []
    ensures IsWeave(logs, picks)
    decreases n, if n == 0 then 0 else |logs[n - 1]|
  {
    if n == 0 {
      picks := [];
    } else if logs[n - 1] == [] {
      picks := SomeWeave(logs, n - 1);
    } else {
      var front := SomeWeave(logs[n - 1 := logs[n - 1][..|logs[n - 1]| - 1]], n);
      picks := front + [n - 1];
      assert picks[..|picks| - 1] == front;
    }
  }

  /** An interleaving that plays log `j` last leaves what log `j` leaves. */
  lemma PlayedLast(logs: seq<seq<LogOp>>, j: nat, k: Code) returns (picks: seq<nat>, before: Option<LinkRow>)
    requires j < |logs|
    ensures IsWeave(logs, picks) && RowFold(None, Weave(logs, picks), k) == RowFold(before, logs[j], k)
    decreases |logs[j]|
  {
    if logs[j] == [] {
      picks := SomeWeave(logs, |logs|);
      before := RowFold(None, Weave(logs, picks), k);
    } else {
      var m := |logs[j]| - 1;
      var logs' := logs[j := logs[j][..m]];
      var front;
      front, before := PlayedLast(logs', j, k);
      picks := front + [j];
      assert picks[..|picks| - 1] == front;
      RowFoldOne(None, Weave(logs', front), logs[j][m], k);
    }
  }

  /** Codes minted on two instances, as aliases can be, are outside the guarantee above. For any
      logs whatever, deletions included: all interleavings leave the same row of `k` if and only if
      all logs that mention its row leave the same one. */
  lemma InterleavingsAgreeIff(logs: seq<seq<LogOp>>, k: Code)
    ensures InterleavingsAgreeOn(logs, k) <==> LogsAgreeOn(logs, k)
  {
    if LogsAgreeOn(logs, k) {
      forall picks, picks' | IsWeave(logs, picks) && IsWeave(logs, picks')
        ensures RowFold(None, Weave(logs, picks), k) == RowFold(None, Weave(logs, picks'), k)
      {
        var j := WeaveFollowsSome(logs, picks, k);
        var j' := WeaveFollowsSome(logs, picks', k);
      }
    }
    if InterleavingsAgreeOn(logs, k) {
      forall i, j | 0 <= i < |logs| && 0 <= j < |logs| && !Silent(logs[i], k) && !Silent(logs[j], k)
        ensures RowFold(None, logs[i], k) == RowFold(None, logs[j], k)
      {
        var picks, before := PlayedLast(logs, i, k);
        var picks', before' := PlayedLast(logs, j, k);
        LoudDecidesRow(before, None, logs[i], k);
        LoudDecidesRow(before', None, logs[j], k);
      }
    }
  }

  // ---- hits ----

  /** All instances up, everything flushed, everybody caught up. */
  predicate Quiescent(w: World, k: Code) {
    forall i :: 0 <= i < |w.nodes| ==> CaughtUp(w, i) && k !in w.nodes[i].dirty
  }

  /** Once the cluster is quiet, every instance counts for `k` exactly the successful resolves of
      the whole run, on whatever instance they happened, less those a crash lost before they were
      flushed; and its own count is what it logged itself. Order of arrival, strays, and reboots
      on the way do not matter. */
  lemma HitsConverge(n: nat, es: seq<Event>, k: Code, i: nat)
    requires n <= MAX_INSTANCES && i < n
    ensures var w := Run(n, es, k);
      (Clean(w) && Quiescent(w, k) ==>
        ViewOf(w.nodes[i].mem, k).h == w.total - w.lost &&
        ViewOf(w.nodes[i].mem, k).oh == HitSum(w.nodes[i].log, k))
  {
    HitInvRun(n, es, k);
    var w := Run(n, es, k);
    if Clean(w) && Quiescent(w, k) {
      assert HitOk(w.nodes, i, k);
      assert CaughtUp(w, i);
      forall j | 0 <= j < n ensures Contributions(w.nodes, i, k)[j] == Ledger(w.nodes, k)[j] {
        CaughtUpKnows(w, i, j);
        assert CaughtUp(w, j);
      }
      assert Contributions(w.nodes, i, k) == Ledger(w.nodes, k);
      CaughtUpKnows(w, i, i);
    }
  }

  /** Hits are only ever lost to a crash that finds them unflushed. */
  predicate CleanCrash(w: World, e: Event, k: Code) {
    e.Crash? && e.i < |w.nodes| ==> DirtyOf(w.nodes[e.i].dirty, k) == 0 && HitSum(w.nodes[e.i].buf, k) == 0
  }

  predicate CleanCrashes(n: nat, es: seq<Event>, k: Code) {
    es == [] || (CleanCrashes(n, es[..|es| - 1], k) && CleanCrash(Run(n, es[..|es| - 1], k), es[|es| - 1], k))
  }

  lemma {:induction false} NothingLost(n: nat, es: seq<Event>, k: Code)
    requires CleanCrashes(n, es, k)
    ensures Run(n, es, k).lost == 0
  {
    if es != [] {
      NothingLost(n, es[..|es| - 1], k);
    }
  }

  /** With reboots only after a flush, a quiet cluster agrees on the exact number of resolves. */
  lemma HitsConvergeExactly(n: nat, es: seq<Event>, k: Code, i: nat)
    requires n <= MAX_INSTANCES && i < n && CleanCrashes(n, es, k)
    ensures var w := Run(n, es, k);
      (Clean(w) && Quiescent(w, k) && k in w.nodes[i].mem.index ==> w.nodes[i].mem.index[k].h == w.total)
  {
    HitsConverge(n, es, k, i);
    NothingLost(n, es, k);
  }

  // ---- what an update makes replay forget ----

  /** The own hits of `k` that a replay of everything instance `i` has recorded counts. */
  function Replayed(w: World, i: nat, k: Code): int
    requires i < |w.nodes|
  {
    FoldView(NO_VIEW, i, w.nodes[i].log + w.nodes[i].buf, k).oh
  }

  /** What memory counts and a replay after a flush would not. */
  function Forgotten(w: World, i: nat, k: Code): int
    requires i < |w.nodes|
  {
    ViewOf(w.nodes[i].mem, k).oh - Replayed(w, i, k) - DirtyOf(w.nodes[i].dirty, k)
  }

  /** Neither a crash of instance `i` nor another mutation of `k` there. */
  predicate LeavesRow(e: Event, i: nat, k: Code) {
    (e.Crash? ==> e.i != i) && (e.Update? || e.Remove? ==> e.i != i || e.c != k)
  }

  predicate Serving(w: World, i: nat, k: Code) {
    i < |w.nodes| && w.nodes[i].live && k in w.nodes[i].mem.index
  }

  lemma ReplayedQueue(w: World, w': World, i: nat, op: LogOp, k: Code)
    requires i < |w.nodes| && i < |w'.nodes| && w'.nodes[i].log == w.nodes[i].log &&
      w'.nodes[i].buf == w.nodes[i].buf + [op]
    ensures Replayed(w', i, k) == Step(FoldView(NO_VIEW, i, w.nodes[i].log + w.nodes[i].buf, k), i, op, k).oh
  {
    assert w.nodes[i].log + (w.nodes[i].buf + [op]) == (w.nodes[i].log + w.nodes[i].buf) + [op];
    FoldViewOne(NO_VIEW, i, w.nodes[i].log + w.nodes[i].buf, op, k);
  }

  /** A record of a sibling's log is a hit of the sibling's own. */
  lemma SiblingRecord(w: World, i: nat, j: nat, victim: Code, k: Code)
    requires RowInv(w, k) && !w.foreign && Enabled(w, Tail(i, j, victim)) && i == Owner(k) && Serving(w, i, k)
    ensures var w' := Do(w, Tail(i, j, victim), k);
      Serving(w', i, k) && ViewOf(w'.nodes[i].mem, k).oh == ViewOf(w.nodes[i].mem, k).oh
  {
    assert OpOk(w, j, w.nodes[j].log[w.nodes[i].seen[j]], k) by {
      assert LogOk(w, j, k);
    }
  }

  lemma QueueForgets(w: World, e: Event, i: nat, k: Code)
    requires Serving(w, i, k) && e.i == i && LeavesRow(e, i, k) && Enabled(w, e)
    requires e.Shorten? || e.Update? || e.Remove? || e.Drain?
    ensures Serving(Do(w, e, k), i, k) && Forgotten(Do(w, e, k), i, k) == Forgotten(w, i, k)
  {
    var w' := Do(w, e, k);
    ReplayedQueue(w, w', i, w'.nodes[i].buf[|w.nodes[i].buf|], k);
  }

  lemma ForgottenStays(w: World, e: Event, i: nat, k: Code)
    requires RowInv(w, k) && !Do(w, e, k).foreign && i == Owner(k) && Serving(w, i, k) && LeavesRow(e, i, k)
    ensures Serving(Do(w, e, k), i, k) && Forgotten(Do(w, e, k), i, k) == Forgotten(w, i, k)
  {
    if Enabled(w, e) && e.i == i {
      match e
      case Shorten(_, _, _, _, _) => QueueForgets(w, e, i, k);
      case Update(_, _, _, _, _, _) => QueueForgets(w, e, i, k);
      case Remove(_, _) => QueueForgets(w, e, i, k);
      case Drain(_, _) => QueueForgets(w, e, i, k);
      case Resolve(_, _, _, _) =>
      case Write(_) => assert (w.nodes[i].log + w.nodes[i].buf) + [] == w.nodes[i].log + w.nodes[i].buf;
      case Tail(_, j, victim) => SiblingRecord(w, i, j, victim, k);
    }
  }

  /** Right after an update, replay counts nothing. */
  lemma UpdateRestarts(w: World, e: Event, k: Code)
    requires RowInv(w, k) && !w.foreign && e.Update? && e.c == k && Enabled(w, e)
    ensures var w' := Do(w, e, k);
      e.i == Owner(k) && Serving(w, e.i, k) && Serving(w', e.i, k) && Replayed(w', e.i, k) == 0 &&
      Forgotten(w', e.i, k) == ViewOf(w.nodes[e.i].mem, k).oh - DirtyOf(w.nodes[e.i].dirty, k)
  {
    var i, d := e.i, w.nodes[e.i];
    OnlyOwnerMutates(w, i, k);
    assert RowOk(w, i, k);
    FoldViewRow(NO_VIEW, i, d.log + d.buf, k);
    ReplayedQueue(w, Do(w, e, k), i, UpdateOp(d.mem, i, k, e.u, e.now, e.ttl, e.hasTtl), k);
  }

  lemma ForeignStays(w: World, e: Event, k: Code)
    ensures w.foreign ==> Do(w, e, k).foreign
  {
  }

  lemma RunOne(n: nat, es: seq<Event>, e: Event, k: Code)
    ensures Run(n, es + [e], k) == Do(Run(n, es, k), e, k)
  {
    assert (es + [e])[..|es|] == es;
  }

  /** Why updated codes are excluded from exact counting: the row an update logs restarts the count.
      From any update on, as long as the code is not mutated again and its owner stays up, memory
      counts more than a replay after a flush would, by exactly the hits that had been flushed
      before the update. So replay gives the live count back if and only if there were none. */
  lemma {:induction false} UpdateForgetsHits(n: nat, es: seq<Event>, upd: Event, later: seq<Event>, k: Code)
    requires n <= MAX_INSTANCES && upd.Update? && upd.c == k && Enabled(Run(n, es, k), upd)
    requires forall p :: 0 <= p < |later| ==> LeavesRow(later[p], upd.i, k)
    requires !Run(n, es + [upd] + later, k).foreign
    ensures var i := upd.i;
      var w, w' := Run(n, es, k), Run(n, es + [upd] + later, k);
      var flushedBefore := ViewOf(w.nodes[i].mem, k).oh - DirtyOf(w.nodes[i].dirty, k);
      Serving(w', i, k) &&
      ViewOf(w'.nodes[i].mem, k).oh == Replayed(w', i, k) + DirtyOf(w'.nodes[i].dirty, k) + flushedBefore &&
      (Replayed(w', i, k) + DirtyOf(w'.nodes[i].dirty, k) == ViewOf(w'.nodes[i].mem, k).oh <==> flushedBefore == 0)
  {
    if later == [] {
      assert es + [upd] + later == es + [upd];
      RunOne(n, es, upd, k);
      RowInvRun(n, es, k);
      ForeignStays(Run(n, es, k), upd, k);
      UpdateRestarts(Run(n, es, k), upd, k);
    } else {
      var front, last := later[..|later| - 1], later[|later| - 1];
      var w := Run(n, es + [upd] + front, k);
      assert es + [upd] + later == (es + [upd] + front) + [last];
      RunOne(n, es + [upd] + front, last, k);
      ForeignStays(w, last, k);
      UpdateForgetsHits(n, es, upd, front, k);
      OwnerUpdates(n, es, upd, front, k);
      RowInvRun(n, es + [upd] + front, k);
      ForgottenStays(w, last, upd.i, k);
    }
  }

  lemma OwnerUpdates(n: nat, es: seq<Event>, upd: Event, later: seq<Event>, k: Code)
    requires n <= MAX_INSTANCES && upd.Update? && upd.c == k && Enabled(Run(n, es, k), upd)
    requires !Run(n, es + [upd] + later, k).foreign
    ensures upd.i == Owner(k)
  {
    RowInvRun(n, es, k);
    assert es + [upd] + later == es + ([upd] + later);
    ForeignKept(n, es, [upd] + later, k);
    OnlyOwnerMutates(Run(n, es, k), upd.i, k);
  }

  lemma {:induction false} ForeignKept(n: nat, es: seq<Event>, more: seq<Event>, k: Code)
    ensures Run(n, es, k).foreign ==> Run(n, es + more, k).foreign
  {
    if more == [] {
      assert es + more == es;
    } else {
      var front, last := more[..|more| - 1], more[|more| - 1];
      assert es + more == (es + front) + [last];
      ForeignKept(n, es, front, k);
      RunOne(n, es + front, last, k);
      ForeignStays(Run(n, es + front, k), last, k);
    }
  }

  // ---- flushed means visible ----

  /** Fold the rest of log `j`, as a read miss does with the owner's log. */
  function TailAll(w: World, i: nat, j: nat, victim: Code, k: Code): (w': World)
    requires RowInv(w, k) && i < |w.nodes| && j < |w.nodes| && i != j && w.nodes[i].live
    ensures |w'.nodes| == |w.nodes|
    decreases |w.nodes[j].log| - w.nodes[i].seen[j]
  {
    if w.nodes[i].seen[j] == |w.nodes[j].log| then w
    else
      RowInvStep(w, Tail(i, j, victim), k);
      TailAll(Do(w, Tail(i, j, victim), k), i, j, victim, k)
  }

  /** What resolve answers: from memory, or after tailing the log of the instance the code's first
      byte names. */
  function Answer(w: World, i: nat, k: Code, now: int, victim: Code): Option<bytes>
    requires RowInv(w, k) && i < |w.nodes| && w.nodes[i].live
  {
    if k !in w.nodes[i].mem.index && 0 <= Owner(k) < |w.nodes| && Owner(k) != i
    then Served(TailAll(w, i, Owner(k), victim, k).nodes[i].mem, k, now)
    else Served(w.nodes[i].mem, k, now)
  }

  lemma OneTailed(w: World, i: nat, j: nat, victim: Code, k: Code)
    requires RowInv(w, k) && Enabled(w, Tail(i, j, victim))
    ensures var w' := Do(w, Tail(i, j, victim), k);
      RowInv(w', k) && |w'.nodes| == |w.nodes| && w'.nodes[j].log == w.nodes[j].log && w'.nodes[i].live &&
      w'.foreign == w.foreign && w'.nodes[i].seen[j] == w.nodes[i].seen[j] + 1
  {
    RowInvStep(w, Tail(i, j, victim), k);
  }

  lemma {:induction false} TailAllKnows(w: World, i: nat, j: nat, victim: Code, k: Code)
    requires RowInv(w, k) && i < |w.nodes| && j < |w.nodes| && i != j && w.nodes[i].live
    ensures var w' := TailAll(w, i, j, victim, k);
      RowInv(w', k) && |w'.nodes| == |w.nodes| && w'.nodes[j].log == w.nodes[j].log &&
      w'.foreign == w.foreign && Known(w'.nodes, i, j) == w.nodes[j].log
    decreases |w.nodes[j].log| - w.nodes[i].seen[j]
  {
    if w.nodes[i].seen[j] < |w.nodes[j].log| {
      OneTailed(w, i, j, victim, k);
      TailAllKnows(Do(w, Tail(i, j, victim), k), i, j, victim, k);
    }
  }

  lemma {:induction false} OnlyRow(ops: seq<LogOp>, k: Code, p: nat)
    requires NoDels(ops, k) && RowCount(ops, k) <= 1 && p < |ops| && ops[p].Row? && ops[p].c == k
    ensures RowFold(None, ops, k) == Some(LinkRow(ops[p].u, ops[p].a, ops[p].e, AsI32(ops[p].i)))
  {
    var m := |ops| - 1;
    if p < m {
      RowCountPrefix(ops, m, k);
      OnlyRow(ops[..m], k, p);
      RowCountFold(ops[..m], k);
    }
  }

  /** A prefix of a log with only one row has that row or none. */
  lemma OnlyRowSoFar(ops: seq<LogOp>, q: nat, k: Code, p: nat)
    requires NoDels(ops, k) && RowCount(ops, k) <= 1 && p < |ops| && ops[p].Row? && ops[p].c == k && q <= |ops|
    ensures RowFold(None, ops[..q], k).Some? ==> RowFold(None, ops[..q], k) == RowFold(None, ops, k)
  {
    RowCountPrefix(ops, q, k);
    RowCountFold(ops[..q], k);
    if p < q {
      OnlyRow(ops[..q], k, p);
      OnlyRow(ops, k, p);
    } else {
      NoRowBefore(ops, q, k, p);
    }
  }

  lemma NoRowBefore(ops: seq<LogOp>, q: nat, k: Code, p: nat)
    requires RowCount(ops, k) <= 1 && q <= p < |ops| && ops[p].Row? && ops[p].c == k
    ensures RowCount(ops[..q], k) == 0
  {
    RowCountPrefix(ops, p + 1, k);
    assert ops[..p + 1] == ops[..p] + [ops[p]];
    RowCountOne(ops[..p], ops[p], k);
    RowCountPrefix(ops[..p], q, k);
    assert ops[..p][..q] == ops[..q];
  }

  /** Once the owner has flushed a code that is never updated or removed, a resolve on any
      instance answers with its url as long as it has not expired, whatever that instance had
      tailed before: a miss reads exactly the log of the owner. */
  lemma FlushedMeansVisible(n: nat, es: seq<Event>, k: Code, p: nat, i: nat, now: int, victim: Code)
    requires n <= MAX_INSTANCES && i < n && 0 <= Owner(k) < n
    requires Plain(Run(n, es, k)) && Run(n, es, k).nodes[i].live
    requires p < |OwnLog(Run(n, es, k).nodes, Owner(k))|
    requires OwnLog(Run(n, es, k).nodes, Owner(k))[p].Row? && OwnLog(Run(n, es, k).nodes, Owner(k))[p].c == k
    ensures var w := Run(n, es, k);
      var row := w.nodes[Owner(k)].log[p];
      RowInv(w, k) &&
      Answer(w, i, k, now, victim) == if row.e == 0 || row.e > now then Some(row.u) else None
  {
    HitInvRun(n, es, k);
    var w, o := Run(n, es, k), Owner(k);
    var log := w.nodes[o].log;
    LogsHaveNoDels(w, o, k);
    RowCountAppend(log, w.nodes[o].buf, k);
    OnlyRow(log, k, p);
    assert RowOk(w, i, k);
    if i == o {
      var all := log + w.nodes[o].buf;
      assert all[p] == log[p];
      OnlyRow(all, k, p);
    } else {
      OnlyRowSoFar(log, w.nodes[i].seen[o], k, p);
      if k !in w.nodes[i].mem.index {
        TailAllKnows(w, i, o, victim, k);
        assert RowOk(TailAll(w, i, o, victim, k), i, k);
      }
    }
  }
}
