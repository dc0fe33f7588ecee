/** Exactly which limits the limiter keeps, given that callers pass whole costs of one token or more:
    it is measured against the greediest client, who spends every whole token as soon as it is there. */
module RateExact {
  import opened RateLimit

  // ---- the greedy client ----

  predicate Whole(c: real) {
    c >= 1.0 && c == c.Floor as real
  }

  predicate WholeCosts(es: seq<Call>) {
    forall i :: 0 <= i < |es| ==> Whole(es[i].cost)
  }

  /** Tokens granted so far, and what is left of the bucket. */
  datatype Spender = Spender(granted: int, left: real)

  function SpendAll(granted: int, level: real): Spender {
    Spender(granted + level.Floor, level - level.Floor as real)
  }

  /** What a client who starts with a full bucket and spends greedily has after `n` milliseconds. */
  function Greedy(l: Limit, n: nat): (s: Spender)
    requires Ok(l)
    ensures 0.0 <= s.left < 1.0
  {
    if n == 0 then SpendAll(0, l.burst)
    else
      var s := Greedy(l, n - 1);
      SpendAll(s.granted, Min(s.left + Refill(l, 1), l.burst))
  }

  /** Tokens the greedy client gets in `n` milliseconds. */
  function Haul(l: Limit, n: nat): int
    requires Ok(l)
  {
    Greedy(l, n).granted
  }

  function Drawn(l: Limit, n: nat): real
    requires Ok(l)
  {
    Greedy(l, n).granted as real + Greedy(l, n).left
  }

  lemma OneMs(l: Limit)
    requires Ok(l)
    ensures Refill(l, 1) > 0.0 && Refill(l, 0) == 0.0
  {
  }

  /** The greedy client never gets less with more time, nor more than a bucket and its refill. */
  lemma {:induction false} HaulRange(l: Limit, n: nat)
    requires Ok(l)
    ensures 0 <= Haul(l, n) && Drawn(l, n) <= l.burst + Refill(l, n)
    ensures n > 0 ==> Haul(l, n) >= Haul(l, n - 1)
  {
    OneMs(l);
    if n > 0 {
      HaulRange(l, n - 1);
      RefillAdds(l, n - 1, 1);
    }
  }

  lemma {:induction false} HaulRises(l: Limit, n: nat, n': nat)
    requires Ok(l) && n <= n'
    ensures Haul(l, n) <= Haul(l, n')
  {
    if n < n' {
      HaulRises(l, n, n' - 1);
      HaulRange(l, n');
    }
  }

  // ---- nobody beats the greedy client ----

  /** A client who got `g` tokens in `n` milliseconds and has `x` left has drawn no more than the greedy one. */
  predicate Dominated(l: Limit, n: int, g: int, x: real)
    requires Ok(l)
  {
    n >= 0 && 0.0 <= x <= l.burst && g as real + x <= Drawn(l, n)
  }

  lemma DominatedWaits(l: Limit, n: nat, g: int, x: real)
    requires Ok(l) && Dominated(l, n, g, x)
    ensures Dominated(l, n + 1, g, Min(x + Refill(l, 1), l.burst))
  {
    OneMs(l);
    var s := Greedy(l, n);
    assert g as real <= Drawn(l, n) < (s.granted + 1) as real;
    assert g <= s.granted;
  }

  lemma {:induction false} DominatedLater(l: Limit, n: nat, w: nat, g: int, x: real)
    requires Ok(l) && Dominated(l, n, g, x)
    ensures Dominated(l, n + w, g, Min(x + Refill(l, w), l.burst))
  {
    OneMs(l);
    if w > 0 {
      DominatedLater(l, n, w - 1, g, x);
      DominatedWaits(l, n + w - 1, g, Min(x + Refill(l, w - 1), l.burst));
      RefillAdds(l, w - 1, 1);
    }
  }

  lemma DominatedSpends(l: Limit, n: nat, g: int, x: real, c: real)
    requires Ok(l) && Dominated(l, n, g, x) && Whole(c) && c <= x
    ensures Dominated(l, n, g + c.Floor, x - c) && g + c.Floor <= Haul(l, n)
  {
    assert (g + c.Floor) as real <= Drawn(l, n) < (Haul(l, n) + 1) as real;
  }

  lemma DominatedHaul(l: Limit, n: nat, g: int, x: real)
    requires Ok(l) && Dominated(l, n, g, x)
    ensures g <= Haul(l, n)
  {
    assert g as real <= Drawn(l, n) < (Haul(l, n) + 1) as real;
  }

  lemma FullIsDominated(l: Limit, n: nat)
    requires Ok(l)
    ensures Dominated(l, n, 0, l.burst)
  {
    DominatedLater(l, 0, n, 0, l.burst);
    RefillAdds(l, n, 0);
  }

  // ---- one call, seen from one key ----

  function Taken(level: real, cost: real): real {
    if level >= cost then cost else 0.0
  }

  lemma CallElsewhere(m: Buckets, c: Call, k: int, now: int, l: Limit)
    requires c.k != k
    ensures var m' := Spent(m, c.k, c.cost, now, l); (k in m' <==> k in m) && (k in m ==> m'[k] == m[k])
  {
  }

  lemma CallHere(m: Buckets, c: Call, now: int, l: Limit)
    ensures var m' := Spent(m, c.k, c.cost, now, l);
            var level := Level(m, c.k, now, l);
            c.k in m' && m'[c.k] == Bucket(level - Taken(level, c.cost), now) &&
            Grants(m, c.k, c.cost, now, l) == (level >= c.cost)
  {
  }

  // ---- the limiter that never forgets ----

  /** All of a key's grants since the start of the run fit into one greedy run. */
  predicate NeverBeats(l: Limit, m: Buckets, k: int, start: int, g: int)
    requires Ok(l)
  {
    if k in m then Dominated(l, m[k].last - start, g, m[k].tokens) else g == 0
  }

  lemma NeverBeatsNext(l: Limit, m: Buckets, c: Call, k: int, start: int, now: int, g: int)
    requires Ok(l) && Whole(c.cost) && start <= now && (k in m ==> m[k].last <= now) && NeverBeats(l, m, k, start, g)
    ensures NeverBeats(l, Spent(m, c.k, c.cost, now, l), k, start,
                       g + if c.k == k && Grants(m, c.k, c.cost, now, l) then c.cost.Floor else 0)
  {
    if c.k == k {
      if k in m {
        DominatedLater(l, m[k].last - start, now - m[k].last, g, m[k].tokens);
      } else {
        FullIsDominated(l, now - start);
      }
      var level := Level(m, k, now, l);
      if level >= c.cost {
        DominatedSpends(l, now - start, g, level, c.cost);
      }
    }
  }

  predicate FullOk(l: Limit, p: Pair, k: int, start: int, g: int)
    requires Ok(l)
  {
    start <= p.now && (k in p.full ==> p.full[k].last <= p.now) && NeverBeats(l, p.full, k, start, g)
  }

  /** The whole tokens call `c` gets for `k` from the limiter that never forgets. */
  function FullGain(p: Pair, c: Call, k: int, l: Limit): int {
    if c.k == k && Grants(p.full, c.k, c.cost, p.now + c.wait, l) then c.cost.Floor else 0
  }

  lemma FullNext(l: Limit, p: Pair, c: Call, k: int, start: int, g: int)
    requires Ok(l) && Whole(c.cost) && FullOk(l, p, k, start, g)
    ensures FullOk(l, Next(p, c, l), k, start, g + FullGain(p, c, k, l))
    ensures GrantOf(p, c, k, l) == FullGain(p, c, k, l) as real
  {
    NeverBeatsNext(l, p.full, c, k, start, p.now + c.wait, g);
  }

  lemma FullGainIs(start: int, es: seq<Call>, c: Call, l: Limit, k: int)
    requires Ok(l) && Whole(c.cost)
    ensures var p, p' := Run(start, es, l), Run(start, es + [c], l);
            p' == Next(p, c, l) &&
            GrantedTo(es + [c], p'.saidFull, k, 0) == GrantedTo(es, p.saidFull, k, 0) + FullGain(p, c, k, l) as real
  {
    StepIs(start, es, c, l, k, 0);
  }

  /** In any run a key gets from the limiter that never forgets at most what the greedy client gets. */
  lemma {:induction false} FullRun(start: int, es: seq<Call>, l: Limit, k: int) returns (p: Pair, g: int)
    requires Ok(l) && WholeCosts(es)
    ensures p == Run(start, es, l) && GrantedTo(es, p.saidFull, k, 0) == g as real && FullOk(l, p, k, start, g)
  {
    if es == [] {
      p, g := Run(start, es, l), 0;
    } else {
      var front, c := es[..|es| - 1], es[|es| - 1];
      assert front + [c] == es;
      p, g := FullRun(start, front, l, k);
      FullGainIs(start, front, c, l, k);
      FullNext(l, p, c, k, start, g);
      p, g := Next(p, c, l), g + FullGain(p, c, k, l);
    }
  }

  lemma FullHaul(start: int, es: seq<Call>, l: Limit, k: int)
    requires Ok(l) && WholeCosts(es)
    ensures var p := Run(start, es, l);
            start <= p.now && GrantedTo(es, p.saidFull, k, 0) <= Haul(l, p.now - start) as real
  {
    var p, g := FullRun(start, es, l, k);
    HaulSoFar(l, p.full, k, start, p.now, g);
  }

  lemma HaulSoFar(l: Limit, m: Buckets, k: int, start: int, now: int, g: int)
    requires Ok(l) && start <= now && NeverBeats(l, m, k, start, g) && (k in m ==> m[k].last <= now)
    ensures g <= Haul(l, now - start)
  {
    if k in m {
      DominatedHaul(l, m[k].last - start, g, m[k].tokens);
      HaulRises(l, m[k].last - start, now - start);
    } else {
      HaulRange(l, now - start);
    }
  }

  // ---- how much the evicting limiter grants ----

  /** What a greedy client gains over the rate by starting with a full bucket never exceeds a minute's
      refill. */
  ghost predicate MinuteCoversHaul(l: Limit)
    requires Ok(l)
  {
    forall n: nat :: Haul(l, n) as real <= 60.0 * l.rate + Refill(l, n)
  }

  /** The bucket was new at `since`; of the `g` tokens granted, `g'` came from it. */
  predicate NewBucket(l: Limit, b: Bucket, t: int, since: int, g: int, g': int)
    requires Ok(l)
  {
    t <= since && (g - g') as real + 60.0 * l.rate <= l.burst + Refill(l, since - t) &&
    Dominated(l, b.last - since, g', b.tokens)
  }

  ghost predicate SpentSince(l: Limit, b: Bucket, t: int, g: int)
    requires Ok(l)
  {
    (b.last < t && g == 0) ||
    (b.last >= t && g as real + b.tokens <= l.burst + Refill(l, b.last - t)) ||
    (exists since, g' :: NewBucket(l, b, t, since, g, g'))
  }

  /** `g` is what `k` was granted from time `t` on. */
  ghost predicate WithinBudget(l: Limit, m: Buckets, k: int, now: int, t: int, g: int)
    requires Ok(l)
  {
    if k in m then m[k].last <= now && 0.0 <= m[k].tokens <= l.burst && SpentSince(l, m[k], t, g)
    else g == 0 || g as real + 60.0 * l.rate <= l.burst + Refill(l, now - t)
  }

  lemma RefillRises(l: Limit, a: int, b: int)
    requires Ok(l) && a <= b
    ensures Refill(l, a) <= Refill(l, b)
  {
    assert Refill(l, b) - Refill(l, a) == (b - a) as real / 1000.0 * l.rate;
  }

  lemma BudgetNow(l: Limit, b: Bucket, t: int, g: int)
    requires Ok(l) && MinuteCoversHaul(l) && 0.0 <= b.tokens && SpentSince(l, b, t, g) && b.last >= t
    ensures g as real <= l.burst + Refill(l, b.last - t)
  {
    if !(g as real + b.tokens <= l.burst + Refill(l, b.last - t)) {
      var since, g' :| NewBucket(l, b, t, since, g, g');
      DominatedHaul(l, b.last - since, g', b.tokens);
      RefillSplits(l, since - t, b.last - since);
    }
  }

  lemma RefillSplits(l: Limit, a: int, b: int)
    ensures Refill(l, a + b) == Refill(l, a) + Refill(l, b)
  {
  }

  /** A forgotten bucket: what was granted fits into the time up to its last call. */
  lemma Forgotten(l: Limit, b: Bucket, now: int, t: int, g: int)
    requires Ok(l) && MinuteCoversHaul(l) && 0.0 <= b.tokens && SpentSince(l, b, t, g) && now - b.last >= IDLE_MS
    ensures g == 0 || g as real + 60.0 * l.rate <= l.burst + Refill(l, now - t)
  {
    if b.last >= t {
      BudgetNow(l, b, t, g);
      AMinuteLater(l, b.last - t, now - t);
    }
  }

  lemma AMinuteLater(l: Limit, a: int, b: int)
    requires Ok(l) && b - a >= IDLE_MS
    ensures Refill(l, a) + 60.0 * l.rate <= Refill(l, b)
  {
    RefillSplits(l, a, b - a);
    RefillRises(l, IDLE_MS, b - a);
  }

  lemma SweptBudget(l: Limit, m: Buckets, k: int, now: int, later: int, t: int, g: int)
    requires Ok(l) && MinuteCoversHaul(l) && WithinBudget(l, m, k, now, t, g) && now <= later
    ensures WithinBudget(l, Swept(m, later), k, later, t, g)
  {
    if k in m && k !in Swept(m, later) {
      Forgotten(l, m[k], later, t, g);
    } else if k !in m {
      RefillRises(l, now - t, later - t);
    }
  }

  lemma ToppedRange(l: Limit, b: Bucket, now: int)
    requires Ok(l) && b.last <= now && 0.0 <= b.tokens <= l.burst
    ensures 0.0 <= Topped(b, now, l) <= l.burst && Topped(b, now, l) <= b.tokens + Refill(l, now - b.last)
  {
    RefillRises(l, 0, now - b.last);
  }

  /** Nothing spent yet. */
  lemma CallFirst(l: Limit, level: real, t: int, now: int, cost: real)
    requires Ok(l) && Whole(cost) && t <= now && 0.0 <= level <= l.burst
    ensures SpentSince(l, Bucket(level - Taken(level, cost), now), t, Taken(level, cost).Floor)
  {
    RefillRises(l, 0, now - t);
  }

  /** Spent from the bucket that was there at `t`. */
  lemma CallSame(l: Limit, b: Bucket, t: int, g: int, now: int, cost: real)
    requires Ok(l) && Whole(cost) && b.last <= now && 0.0 <= b.tokens <= l.burst
    requires b.last >= t && g as real + b.tokens <= l.burst + Refill(l, b.last - t)
    ensures var level := Topped(b, now, l);
            SpentSince(l, Bucket(level - Taken(level, cost), now), t, g + Taken(level, cost).Floor)
  {
    ToppedRange(l, b, now);
    RefillSplits(l, b.last - t, now - b.last);
  }

  /** Spent from a bucket that was new since. */
  lemma CallNew(l: Limit, b: Bucket, t: int, g: int, now: int, cost: real, since: int, g': int)
    requires Ok(l) && Whole(cost) && b.last <= now && 0.0 <= b.tokens <= l.burst && NewBucket(l, b, t, since, g, g')
    ensures var level := Topped(b, now, l);
            NewBucket(l, Bucket(level - Taken(level, cost), now), t, since, g + Taken(level, cost).Floor,
              g' + Taken(level, cost).Floor)
  {
    var level := Topped(b, now, l);
    DominatedLater(l, b.last - since, now - b.last, g', b.tokens);
    if level >= cost {
      DominatedSpends(l, now - since, g', level, cost);
    }
  }

  /** A call tops the bucket up and takes its cost from it. */
  lemma CallBudget(l: Limit, b: Bucket, t: int, g: int, now: int, cost: real)
    requires Ok(l) && Whole(cost) && b.last <= now && t <= now && 0.0 <= b.tokens <= l.burst && SpentSince(l, b, t, g)
    ensures var level := Topped(b, now, l);
            SpentSince(l, Bucket(level - Taken(level, cost), now), t, g + Taken(level, cost).Floor)
  {
    if b.last < t && g == 0 {
      ToppedRange(l, b, now);
      CallFirst(l, Topped(b, now, l), t, now, cost);
    } else if b.last >= t && g as real + b.tokens <= l.burst + Refill(l, b.last - t) {
      CallSame(l, b, t, g, now, cost);
    } else {
      var since, g' :| NewBucket(l, b, t, since, g, g');
      CallNew(l, b, t, g, now, cost, since, g');
    }
  }

  /** A key that is not remembered starts with a full bucket. */
  lemma FirstCallBudget(l: Limit, t: int, g: int, now: int, cost: real)
    requires Ok(l) && Whole(cost) && t <= now && (g == 0 || g as real + 60.0 * l.rate <= l.burst + Refill(l, now - t))
    ensures SpentSince(l, Bucket(l.burst - Taken(l.burst, cost), now), t, g + Taken(l.burst, cost).Floor)
  {
    var b' := Bucket(l.burst - Taken(l.burst, cost), now);
    RefillRises(l, 0, now - t);
    if g != 0 {
      FullIsDominated(l, 0);
      if l.burst >= cost {
        DominatedSpends(l, 0, 0, l.burst, cost);
      }
      assert NewBucket(l, b', t, now, g + Taken(l.burst, cost).Floor, Taken(l.burst, cost).Floor);
    }
  }

  /** The whole tokens call `c` gets for `k` from the evicting limiter. */
  function Gain(p: Pair, c: Call, k: int, l: Limit): int {
    if c.k == k && Grants(Swept(p.m, p.now + c.wait), c.k, c.cost, p.now + c.wait, l) then c.cost.Floor else 0
  }

  lemma SpentBudget(l: Limit, m: Buckets, c: Call, k: int, now: int, t: int, g: int)
    requires Ok(l) && Whole(c.cost) && t <= now && WithinBudget(l, m, k, now, t, g)
    ensures WithinBudget(l, Spent(m, c.k, c.cost, now, l), k, now, t,
                         g + if c.k == k && Grants(m, c.k, c.cost, now, l) then c.cost.Floor else 0)
  {
    if c.k == k {
      CallHere(m, c, now, l);
      if k in m {
        RefillRises(l, 0, now - m[k].last);
        CallBudget(l, m[k], t, g, now, c.cost);
      } else {
        FirstCallBudget(l, t, g, now, c.cost);
      }
    } else {
      CallElsewhere(m, c, k, now, l);
    }
  }

  lemma NextBudget(l: Limit, p: Pair, c: Call, k: int, t: int, g: int)
    requires Ok(l) && MinuteCoversHaul(l) && Whole(c.cost) && t <= p.now + c.wait &&
      WithinBudget(l, p.m, k, p.now, t, g)
    ensures WithinBudget(l, Next(p, c, l).m, k, p.now + c.wait, t, g + Gain(p, c, k, l))
  {
    SweptBudget(l, p.m, k, p.now, p.now + c.wait, t, g);
    SpentBudget(l, Swept(p.m, p.now + c.wait), c, k, p.now + c.wait, t, g);
  }

  lemma GainIs(start: int, es: seq<Call>, c: Call, l: Limit, k: int, i: nat)
    requires Ok(l) && Whole(c.cost) && i <= |es|
    ensures var p, p' := Run(start, es, l), Run(start, es + [c], l);
            p' == Next(p, c, l) &&
            GrantedTo(es + [c], p'.said, k, i) == GrantedTo(es, p.said, k, i) + Gain(p, c, k, l) as real
  {
    var p := Run(start, es, l);
    RunLast(start, es, c, l);
    GrantedNext(es, p.said, c, Grants(Swept(p.m, p.now + c.wait), c.k, c.cost, p.now + c.wait, l), k, i);
  }

  lemma FreshBudget(l: Limit, p: Pair, k: int, t: int)
    requires Ok(l) && InRange(p.m, p.now, l) && p.now <= t
    ensures WithinBudget(l, p.m, k, p.now, t, 0)
  {
  }

  lemma WholeCostsOk(es: seq<Call>)
    requires WholeCosts(es)
    ensures CostsOk(es)
  {
  }

  lemma FirstBudget(start: int, es: seq<Call>, l: Limit, k: int, t: int) returns (p: Pair)
    requires Ok(l) && WholeCosts(es) && Run(start, es, l).now <= t
    ensures p == Run(start, es, l) && WithinBudget(l, p.m, k, p.now, t, 0)
  {
    p := Run(start, es, l);
    WholeCostsOk(es);
    TokensInRange(start, es, l);
    FreshBudget(l, p, k, t);
  }

  lemma NothingYet(es: seq<Call>, said: seq<bool>, k: int, i: nat)
    requires |said| == |es| <= i
    ensures GrantedTo(es, said, k, i) == 0.0
  {
  }

  /** The run `es`, and what `k` was granted in it since call `i`, made at time `t`. */
  ghost predicate Accounted(l: Limit, start: int, es: seq<Call>, k: int, i: nat, p: Pair, t: int, g: int)
    requires Ok(l)
  {
    p == Run(start, es, l) && GrantedTo(es, p.said, k, i) == g as real && WithinBudget(l, p.m, k, p.now, t, g)
  }

  lemma AccountedNext(l: Limit, start: int, es: seq<Call>, c: Call, k: int, i: nat, p: Pair, t: int, g: int)
      returns (p': Pair, g': int)
    requires Ok(l) && MinuteCoversHaul(l) && Whole(c.cost) && i <= |es| && t <= p.now + c.wait
    requires Accounted(l, start, es, k, i, p, t, g)
    ensures Accounted(l, start, es + [c], k, i, p', t, g') && p'.now == p.now + c.wait
  {
    GainIs(start, es, c, l, k, i);
    NextBudget(l, p, c, k, t, g);
    p', g' := Next(p, c, l), g + Gain(p, c, k, l);
  }

  lemma {:induction false} BudgetRun(start: int, es: seq<Call>, l: Limit, k: int, i: nat)
      returns (p: Pair, t: int, g: int)
    requires Ok(l) && WholeCosts(es) && MinuteCoversHaul(l) && i < |es|
    ensures Accounted(l, start, es, k, i, p, t, g) && t == TimeOf(start, es, i, l) && t <= p.now
  {
    var front, c := es[..|es| - 1], es[|es| - 1];
    assert front + [c] == es;
    TimeStays(start, front, c, l, i);
    RunLast(start, front, c, l);
    if i == |front| {
      t := Run(start, front, l).now + c.wait;
      p := FirstBudget(start, front, l, k, t);
      g := 0;
      NothingYet(front, p.said, k, i);
    } else {
      p, t, g := BudgetRun(start, front, l, k, i);
    }
    p, g := AccountedNext(l, start, front, c, k, i, p, t, g);
  }

  /** From call `i` to the end of the run, `k` is granted at most `burst + rate * duration`. */
  predicate Bounded(l: Limit, start: int, es: seq<Call>, k: int, i: nat)
    requires i < |es|
  {
    var p := Run(start, es, l);
    GrantedTo(es, p.said, k, i) <= l.burst + Refill(l, p.now - TimeOf(start, es, i, l))
  }

  /** In any stretch of any run that bound holds. */
  ghost predicate AlwaysBounded(l: Limit) {
    forall start: int, es: seq<Call>, k: int, i: nat :: WholeCosts(es) && i < |es| ==> Bounded(l, start, es, k, i)
  }

  lemma BudgetHolds(l: Limit, m: Buckets, k: int, now: int, t: int, g: int)
    requires Ok(l) && MinuteCoversHaul(l) && t <= now && WithinBudget(l, m, k, now, t, g)
    ensures g as real <= l.burst + Refill(l, now - t)
  {
    RefillRises(l, 0, now - t);
    if k in m && m[k].last >= t {
      BudgetNow(l, m[k], t, g);
      RefillRises(l, m[k].last - t, now - t);
    }
  }

  lemma CoveredIsBounded(l: Limit)
    requires Ok(l) && MinuteCoversHaul(l)
    ensures AlwaysBounded(l)
  {
    forall start: int, es: seq<Call>, k: int, i: nat | WholeCosts(es) && i < |es|
      ensures Bounded(l, start, es, k, i)
    {
      var p, t, g := BudgetRun(start, es, l, k, i);
      BudgetHolds(l, p.m, k, p.now, t, g);
    }
  }

  // ---- the greedy client at the evicting limiter ----

  /** The greedy client's calls as key 0, and the milliseconds since the last of them. */
  datatype Script = Script(calls: seq<Call>, idle: nat)

  /** `n` milliseconds of greed, the first call `first` milliseconds from now. */
  function GreedyScript(l: Limit, n: nat, first: nat): Script
    requires Ok(l)
  {
    if n == 0 then Script([Call(0, l.burst.Floor as real, first)], 0)
    else
      var s := GreedyScript(l, n - 1, first);
      Script(s.calls + NextCall(l, n - 1, s.idle), if NextLevel(l, n - 1) >= 1.0 then 0 else s.idle + 1)
  }

  function NextLevel(l: Limit, n: nat): real
    requires Ok(l)
  {
    Min(Greedy(l, n).left + Refill(l, 1), l.burst)
  }

  /** What the greedy client does a millisecond after the first `n`. */
  function NextCall(l: Limit, n: nat, idle: nat): seq<Call>
    requires Ok(l)
  {
    if NextLevel(l, n) >= 1.0 then [Call(0, NextLevel(l, n).Floor as real, idle + 1)] else []
  }

  /** What key 0 was granted in a run from time 0. */
  function Got(es: seq<Call>, l: Limit): real {
    GrantedTo(es, Run(0, es, l).said, 0, 0)
  }

  /** Key 0 alone is remembered, and its bucket holds what the greedy client has left after `n`
      milliseconds, `idle` of them since its last call. */
  predicate GreedyBucket(l: Limit, p: Pair, n: nat, idle: nat, began: int)
    requires Ok(l)
  {
    p.m.Keys == {0} && p.now + idle == began + n && p.m[0].last == p.now &&
    p.m[0].tokens + Refill(l, idle) == Greedy(l, n).left
  }

  lemma GotNext(es: seq<Call>, c: Call, l: Limit, p: Pair)
    requires Ok(l) && Whole(c.cost) && p == Run(0, es, l)
    ensures Run(0, es + [c], l) == Next(p, c, l) && Got(es + [c], l) == Got(es, l) + Gain(p, c, 0, l) as real
  {
    GainIs(0, es, c, l, 0, 0);
  }

  lemma GreedyFirst(l: Limit, p: Pair, first: nat)
    requires Ok(l) && Swept(p.m, p.now + first) == map[]
    ensures var c := Call(0, l.burst.Floor as real, first);
            Whole(c.cost) && GreedyBucket(l, Next(p, c, l), 0, 0, p.now + first) && Gain(p, c, 0, l) == Haul(l, 0)
  {
    OneMs(l);
  }

  lemma GreedyIdle(l: Limit, p: Pair, n: nat, idle: nat, began: int)
    requires Ok(l) && GreedyBucket(l, p, n, idle, began) && NextLevel(l, n) < 1.0
    ensures GreedyBucket(l, p, n + 1, idle + 1, began) && Haul(l, n + 1) == Haul(l, n)
  {
    RefillSplits(l, idle, 1);
    OneMs(l);
    IdleGreedy(l, n);
  }

  lemma IdleGreedy(l: Limit, n: nat)
    requires Ok(l) && NextLevel(l, n) < 1.0
    ensures Greedy(l, n + 1) == Spender(Greedy(l, n).granted, Greedy(l, n).left + Refill(l, 1))
  {
    OneMs(l);
    assert NextLevel(l, n).Floor == 0;
  }

  lemma GreedySpend(l: Limit, p: Pair, n: nat, idle: nat, began: int, c: Call)
    requires Ok(l) && GreedyBucket(l, p, n, idle, began)
    requires var level := Min(Greedy(l, n).left + Refill(l, 1), l.burst);
      level >= 1.0 && c == Call(0, level.Floor as real, idle + 1)
    ensures GreedyBucket(l, Next(p, c, l), n + 1, 0, began) && Haul(l, n + 1) == Haul(l, n) + Gain(p, c, 0, l)
  {
    var now := p.now + c.wait;
    assert |p.m| == 1 by {
      assert |p.m.Keys| == 1;
    }
    assert Swept(p.m, now) == p.m;
    RefillSplits(l, idle, 1);
    OneMs(l);
    var level := Level(p.m, 0, now, l);
    assert level == Min(Greedy(l, n).left + Refill(l, 1), l.burst);
    assert Spent(p.m, 0, c.cost, now, l).Keys == {0};
  }

  /** One more millisecond of greed, at the end of a run. */
  lemma GreedyMs(l: Limit, es: seq<Call>, p: Pair, n: nat, idle: nat, began: int) returns (p': Pair)
    requires Ok(l) && p == Run(0, es, l) && GreedyBucket(l, p, n, idle, began)
    ensures p' == Run(0, es + NextCall(l, n, idle), l)
    ensures Got(es + NextCall(l, n, idle), l) == Got(es, l) + (Haul(l, n + 1) - Haul(l, n)) as real
    ensures GreedyBucket(l, p', n + 1, if NextLevel(l, n) >= 1.0 then 0 else idle + 1, began)
  {
    if NextLevel(l, n) >= 1.0 {
      var c := Call(0, NextLevel(l, n).Floor as real, idle + 1);
      GotNext(es, c, l, p);
      GreedySpend(l, p, n, idle, began, c);
      p' := Next(p, c, l);
    } else {
      assert es + [] == es;
      GreedyIdle(l, p, n, idle, began);
      p' := p;
    }
  }

  /** The greedy client has run `s` behind `es`. */
  predicate Greeded(l: Limit, es: seq<Call>, s: Script, p: Pair, n: nat, began: int, got: real)
    requires Ok(l)
  {
    p == Run(0, es + s.calls, l) && GreedyBucket(l, p, n, s.idle, began) &&
    Got(es + s.calls, l) == got + Haul(l, n) as real
  }

  lemma GreededNext(l: Limit, es: seq<Call>, s0: Script, p0: Pair, n: nat, began: int, got: real) returns (p: Pair)
    requires Ok(l) && Greeded(l, es, s0, p0, n, began, got)
    ensures Greeded(l, es,
                    Script(s0.calls + NextCall(l, n, s0.idle), if NextLevel(l, n) >= 1.0 then 0 else s0.idle + 1),
                    p, n + 1, began, got)
  {
    p := GreedyMs(l, es + s0.calls, p0, n, s0.idle, began);
    Grouped(es, s0.calls, NextCall(l, n, s0.idle));
  }

  lemma GreededFirst(l: Limit, es: seq<Call>, p0: Pair, first: nat) returns (p: Pair)
    requires Ok(l) && p0 == Run(0, es, l) && Swept(p0.m, p0.now + first) == map[]
    ensures Greeded(l, es, GreedyScript(l, 0, first), p, 0, p0.now + first, Got(es, l))
  {
    var c := Call(0, l.burst.Floor as real, first);
    GreedyFirst(l, p0, first);
    GotNext(es, c, l, p0);
    p := Next(p0, c, l);
  }

  lemma GreededMore(l: Limit, es: seq<Call>, p0: Pair, n: nat, first: nat, began: int, got: real) returns (p: Pair)
    requires Ok(l) && n > 0 && Greeded(l, es, GreedyScript(l, n - 1, first), p0, n - 1, began, got)
    ensures Greeded(l, es, GreedyScript(l, n, first), p, n, began, got)
  {
    var s0 := GreedyScript(l, n - 1, first);
    p := GreededNext(l, es, s0, p0, n - 1, began, got);
    ScriptIs(l, n, first, s0);
  }

  lemma {:induction false} GreedyRuns(l: Limit, es: seq<Call>, p0: Pair, n: nat, first: nat) returns (p: Pair)
    requires Ok(l) && p0 == Run(0, es, l) && Swept(p0.m, p0.now + first) == map[]
    ensures Greeded(l, es, GreedyScript(l, n, first), p, n, p0.now + first, Got(es, l))
  {
    if n == 0 {
      p := GreededFirst(l, es, p0, first);
    } else {
      p := GreedyRuns(l, es, p0, n - 1, first);
      p := GreededMore(l, es, p, n, first, p0.now + first, Got(es, l));
    }
  }

  lemma ScriptIs(l: Limit, n: nat, first: nat, s0: Script)
    requires Ok(l) && n > 0 && s0 == GreedyScript(l, n - 1, first)
    ensures GreedyScript(l, n, first) ==
            Script(s0.calls + NextCall(l, n - 1, s0.idle), if NextLevel(l, n - 1) >= 1.0 then 0 else s0.idle + 1)
  {
  }

  lemma Grouped(a: seq<Call>, b: seq<Call>, c: seq<Call>)
    ensures a + (b + c) == (a + b) + c
  {
  }

  /** Fill the shard with other keys, one token each. */
  function Crowd(j: nat, wait: nat): seq<Call> {
    if j == 0 then [] else Crowd(j - 1, wait) + [Call(j, 1.0, if j == 1 then wait else 0)]
  }

  /** Keys 0 to j are remembered, none of them called in the future. */
  ghost predicate Crowded(p: Pair, j: nat) {
    |p.m| == j + 1 && (forall k :: k in p.m <==> 0 <= k <= j) && forall k :: k in p.m ==> p.m[k].last <= p.now
  }

  lemma CrowdNext(l: Limit, p: Pair, j: nat, wait: nat)
    requires Ok(l) && j + 1 < MAX_KEYS && Crowded(p, j)
    ensures Crowded(Next(p, Call(j + 1, 1.0, wait), l), j + 1) && Gain(p, Call(j + 1, 1.0, wait), 0, l) == 0
  {
    assert j + 1 !in p.m;
  }

  /** A run after which keys 0 to j are remembered. */
  ghost predicate CrowdedRun(l: Limit, es: seq<Call>, p: Pair, j: nat, now: int, got: real) {
    p == Run(0, es, l) && Crowded(p, j) && p.now == now && Got(es, l) == got
  }

  lemma CrowdGrows(l: Limit, es: seq<Call>, p0: Pair, j: nat, wait: nat, got: real) returns (p: Pair)
    requires Ok(l) && j + 1 < MAX_KEYS && CrowdedRun(l, es, p0, j, p0.now, got)
    ensures CrowdedRun(l, es + [Call(j + 1, 1.0, wait)], p, j + 1, p0.now + wait, got)
  {
    var c := Call(j + 1, 1.0, wait);
    GotNext(es, c, l, p0);
    CrowdNext(l, p0, j, wait);
    p := Next(p0, c, l);
  }

  lemma CrowdIs(es: seq<Call>, j: nat, wait: nat)
    requires j > 0
    ensures es + Crowd(j, wait) == (es + Crowd(j - 1, wait)) + [Call(j, 1.0, if j == 1 then wait else 0)]
  {
  }

  function CrowdTime(began: int, j: nat, wait: nat): int {
    if j == 0 then began else began + wait
  }

  lemma CrowdMore(l: Limit, es: seq<Call>, p0: Pair, j: nat, wait: nat, began: int, got: real) returns (p: Pair)
    requires Ok(l) && 0 < j < MAX_KEYS
    requires CrowdedRun(l, es + Crowd(j - 1, wait), p0, j - 1, CrowdTime(began, j - 1, wait), got)
    ensures CrowdedRun(l, es + Crowd(j, wait), p, j, CrowdTime(began, j, wait), got)
  {
    CrowdIs(es, j, wait);
    p := CrowdGrows(l, es + Crowd(j - 1, wait), p0, j - 1, if j == 1 then wait else 0, got);
  }

  lemma CrowdNone(l: Limit, es: seq<Call>, p: Pair, wait: nat, got: real)
    requires CrowdedRun(l, es, p, 0, p.now, got)
    ensures CrowdedRun(l, es + Crowd(0, wait), p, 0, CrowdTime(p.now, 0, wait), got)
  {
    assert es + Crowd(0, wait) == es;
  }

  lemma {:induction false} CrowdRuns(l: Limit, es: seq<Call>, p0: Pair, j: nat, wait: nat, got: real) returns (p: Pair)
    requires Ok(l) && j < MAX_KEYS && CrowdedRun(l, es, p0, 0, p0.now, got)
    ensures CrowdedRun(l, es + Crowd(j, wait), p, j, CrowdTime(p0.now, j, wait), got)
  {
    if j == 0 {
      p := p0;
      CrowdNone(l, es, p, wait, got);
    } else {
      p := CrowdRuns(l, es, p0, j - 1, wait, got);
      p := CrowdMore(l, es, p, j, wait, p0.now, got);
    }
  }

  /** A greedy spell of `n` milliseconds as key 0, and then a crowd of other keys. */
  function Cycle(l: Limit, n: nat, first: nat): seq<Call>
    requires Ok(l)
  {
    GreedyScript(l, n, first).calls + Crowd(MAX_KEYS - 1, GreedyScript(l, n, first).idle)
  }

  lemma LonelyIsCrowded(l: Limit, p: Pair, n: nat, idle: nat, began: int)
    requires Ok(l) && GreedyBucket(l, p, n, idle, began)
    ensures Crowded(p, 0)
  {
    assert |p.m.Keys| == 1;
  }

  /** A minute after a crowd everybody is forgotten. */
  lemma CrowdForgotten(p: Pair)
    requires Crowded(p, MAX_KEYS - 1)
    ensures Swept(p.m, p.now + 60_000) == map[]
  {
    var r := Retained(p.m, p.now + 60_000);
    forall k ensures k !in r {
    }
  }

  lemma CycleRuns(l: Limit, es: seq<Call>, p0: Pair, n: nat, first: nat) returns (p: Pair)
    requires Ok(l) && p0 == Run(0, es, l) && Swept(p0.m, p0.now + first) == map[]
    ensures p == Run(0, es + Cycle(l, n, first), l) && p.now == p0.now + first + n &&
      Swept(p.m, p.now + 60_000) == map[]
    ensures Got(es + Cycle(l, n, first), l) == Got(es, l) + Haul(l, n) as real
  {
    var s := GreedyScript(l, n, first);
    p := GreedyRuns(l, es, p0, n, first);
    LonelyIsCrowded(l, p, n, s.idle, p0.now + first);
    p := CrowdRuns(l, es + s.calls, p, MAX_KEYS - 1, s.idle, Got(es, l) + Haul(l, n) as real);
    Grouped(es, s.calls, Crowd(MAX_KEYS - 1, s.idle));
    CrowdForgotten(p);
  }

  lemma ScriptWhole(l: Limit, n: nat, first: nat)
    requires Ok(l)
    ensures WholeCosts(GreedyScript(l, n, first).calls) && GreedyScript(l, n, first).calls != []
    ensures GreedyScript(l, n, first).calls[0].wait == first
  {
    if n > 0 {
      ScriptWhole(l, n - 1, first);
    }
  }

  lemma {:induction false} CrowdWhole(j: nat, wait: nat)
    ensures WholeCosts(Crowd(j, wait))
  {
    if j > 0 {
      CrowdWhole(j - 1, wait);
    }
  }

  lemma CycleWhole(l: Limit, n: nat, first: nat)
    requires Ok(l)
    ensures WholeCosts(Cycle(l, n, first)) && Cycle(l, n, first) != [] && Cycle(l, n, first)[0].wait == first
  {
    ScriptWhole(l, n, first);
    CrowdWhole(MAX_KEYS - 1, GreedyScript(l, n, first).idle);
  }

  /** `e + 1` greedy spells with a minute between them. */
  function Spells(l: Limit, n: nat, e: nat): seq<Call>
    requires Ok(l)
  {
    if e == 0 then [] + Cycle(l, n, 0) else Spells(l, n, e - 1) + Cycle(l, n, 60_000)
  }

  function SpellsTime(n: nat, e: nat): int {
    if e == 0 then n else SpellsTime(n, e - 1) + 60_000 + n
  }

  function SpellsGot(haul: real, e: nat): real {
    if e == 0 then haul else SpellsGot(haul, e - 1) + haul
  }

  /** What the spells bring beyond the rate: each but the first is a full bucket for a minute's refill. */
  lemma {:induction false} SpellsExcess(l: Limit, haul: real, n: nat, e: nat)
    requires Ok(l)
    ensures SpellsGot(haul, e) - Refill(l, SpellsTime(n, e)) ==
      60.0 * l.rate + (e + 1) as real * (haul - 60.0 * l.rate - Refill(l, n))
  {
    if e > 0 {
      SpellsExcess(l, haul, n, e - 1);
      RefillSplits(l, SpellsTime(n, e - 1), 60_000 + n);
      RefillSplits(l, 60_000, n);
      assert Refill(l, 60_000) == 60.0 * l.rate;
      OneMore(e, haul - 60.0 * l.rate - Refill(l, n));
    }
  }

  lemma OneMore(e: nat, x: real)
    requires e > 0
    ensures (e + 1) as real * x == e as real * x + x
  {
  }

  /** A run that a further spell can follow. */
  predicate Rested(l: Limit, es: seq<Call>, p: Pair, now: int, got: real) {
    p == Run(0, es, l) && Swept(p.m, p.now + 60_000) == map[] && p.now == now && Got(es, l) == got
  }

  lemma SpellAfter(l: Limit, n: nat, es: seq<Call>, p0: Pair, now: int, got: real) returns (p: Pair)
    requires Ok(l) && Rested(l, es, p0, now, got)
    ensures Rested(l, es + Cycle(l, n, 60_000), p, now + 60_000 + n, got + Haul(l, n) as real)
  {
    p := CycleRuns(l, es, p0, n, 60_000);
  }

  lemma FirstSpell(l: Limit, n: nat) returns (p: Pair)
    requires Ok(l)
    ensures Rested(l, [] + Cycle(l, n, 0), p, n, Haul(l, n) as real)
  {
    p := CycleRuns(l, [], Run(0, [], l), n, 0);
  }

  lemma {:induction false} SpellsRun(l: Limit, n: nat, e: nat) returns (p: Pair)
    requires Ok(l)
    ensures Rested(l, Spells(l, n, e), p, SpellsTime(n, e), SpellsGot(Haul(l, n) as real, e))
  {
    if e == 0 {
      p := FirstSpell(l, n);
    } else {
      p := SpellsRun(l, n, e - 1);
      p := SpellAfter(l, n, Spells(l, n, e - 1), p, SpellsTime(n, e - 1), SpellsGot(Haul(l, n) as real, e - 1));
    }
  }

  lemma {:induction false} SpellsWhole(l: Limit, n: nat, e: nat)
    requires Ok(l)
    ensures WholeCosts(Spells(l, n, e)) && Spells(l, n, e) != [] && Spells(l, n, e)[0].wait == 0
  {
    CycleWhole(l, n, 0);
    CycleWhole(l, n, 60_000);
    if e > 0 {
      SpellsWhole(l, n, e - 1);
    }
  }

  // ---- the exact bound ----

  lemma Enough(x: real, delta: real) returns (e: nat)
    requires x >= 0.0 && delta > 0.0
    ensures (e + 1) as real * delta > x
  {
    e := (x / delta).Floor;
    assert (e + 1) as real > x / delta;
    assert (x / delta) * delta == x;
  }

  lemma FirstAt(es: seq<Call>, l: Limit)
    requires es != [] && es[0].wait == 0
    ensures TimeOf(0, es, 0, l) == 0
  {
    assert es[..1] == [] + [es[0]];
    RunLast(0, [], es[0], l);
  }

  /** Enough spells take more than a bucket and the refill of their time. */
  lemma EnoughSpells(l: Limit, n: nat) returns (e: nat)
    requires Ok(l) && Haul(l, n) as real > 60.0 * l.rate + Refill(l, n)
    ensures SpellsGot(Haul(l, n) as real, e) > l.burst + Refill(l, SpellsTime(n, e))
  {
    var excess := Haul(l, n) as real - 60.0 * l.rate - Refill(l, n);
    e := Enough(l.burst, excess);
    SpellsExcess(l, Haul(l, n) as real, n, e);
  }

  lemma BoundBroken(l: Limit, es: seq<Call>, p: Pair, now: int, got: real)
    requires WholeCosts(es) && es != [] && es[0].wait == 0 && p == Run(0, es, l) && p.now == now
    requires Got(es, l) == got && got > l.burst + Refill(l, now)
    ensures !AlwaysBounded(l)
  {
    FirstAt(es, l);
    assert !Bounded(l, 0, es, 0, 0);
  }

  lemma UncoveredBreaks(l: Limit, n: nat)
    requires Ok(l) && Haul(l, n) as real > 60.0 * l.rate + Refill(l, n)
    ensures !AlwaysBounded(l)
  {
    var e := EnoughSpells(l, n);
    var p := SpellsRun(l, n, e);
    SpellsWhole(l, n, e);
    BoundBroken(l, Spells(l, n, e), p, SpellsTime(n, e), SpellsGot(Haul(l, n) as real, e));
  }

  /** The limiter keeps its bound in every run of calls with whole costs if and only if what a greedy
      client gains over the rate by starting from a full bucket is at most a minute's refill: otherwise
      idling until one is forgotten, again and again, pays without end. */
  lemma BoundedIff(l: Limit)
    requires Ok(l)
    ensures AlwaysBounded(l) <==> MinuteCoversHaul(l)
  {
    if MinuteCoversHaul(l) {
      CoveredIsBounded(l);
    } else {
      var n: nat :| Haul(l, n) as real > 60.0 * l.rate + Refill(l, n);
      UncoveredBreaks(l, n);
    }
  }

  // ---- the threshold, in terms of the settings ----

  /** A bucket that a millisecond's refill and one token do not overfill never wastes a refill. */
  lemma {:induction false} NothingWasted(l: Limit, n: nat)
    requires Ok(l) && l.burst >= 1.0 + Refill(l, 1)
    ensures Drawn(l, n) == l.burst + Refill(l, n)
  {
    OneMs(l);
    if n > 0 {
      NothingWasted(l, n - 1);
      RefillAdds(l, n - 1, 1);
    }
  }

  /** In the millisecond the greedy client gets a token it is left with less than that millisecond's
      refill. */
  lemma LeftAfterSpending(l: Limit, n: nat)
    requires Ok(l) && NextLevel(l, n) >= 1.0 && Greedy(l, n).left >= Refill(l, 1)
    ensures Greedy(l, n + 1).left < Refill(l, 1)
  {
    assert 1.0 <= NextLevel(l, n) < 2.0;
    assert NextLevel(l, n).Floor == 1;
    assert Greedy(l, n + 1) == SpendAll(Greedy(l, n).granted, NextLevel(l, n));
  }

  /** And such a millisecond comes. */
  lemma {:induction false} SpentOut(l: Limit, n: nat, fuel: nat) returns (n': nat)
    requires Ok(l) && 1.0 - Greedy(l, n).left <= fuel as real * Refill(l, 1)
    ensures Greedy(l, n').left < Refill(l, 1)
    decreases fuel
  {
    if Greedy(l, n).left < Refill(l, 1) {
      n' := n;
    } else if NextLevel(l, n) >= 1.0 {
      LeftAfterSpending(l, n);
      n' := n + 1;
    } else {
      IdleGreedy(l, n);
      OneLess(fuel, Refill(l, 1));
      n' := SpentOut(l, n + 1, fuel - 1);
    }
  }

  lemma OneLess(fuel: nat, x: real)
    ensures (fuel - 1) as real * x == fuel as real * x - x
  {
  }

  lemma LeastLeft(l: Limit) returns (n: nat)
    requires Ok(l) && l.burst >= 1.0 + Refill(l, 1)
    ensures Greedy(l, n).left < Refill(l, 1)
  {
    OneMs(l);
    var fuel := Enough(1.0, Refill(l, 1));
    n := SpentOut(l, 0, fuel + 1);
  }

  /** So at some moment the greedy client has had all of its bucket and refill but a millisecond's. */
  lemma AlmostAll(l: Limit) returns (n: nat)
    requires Ok(l) && l.burst >= 1.0 + Refill(l, 1)
    ensures Haul(l, n) as real > l.burst + Refill(l, n) - Refill(l, 1)
  {
    n := LeastLeft(l);
    NothingWasted(l, n);
  }

  /** In terms of the settings: it is enough that a minute refills a whole bucket, and necessary that a
      minute and a millisecond refill more than one. It is also necessary that a minute refills the
      bucket's whole tokens, so for a whole burst the condition is exact. */
  lemma CoversIff(l: Limit)
    requires Ok(l)
    ensures l.burst <= 60.0 * l.rate ==> MinuteCoversHaul(l)
    ensures MinuteCoversHaul(l) ==> l.burst < 60.0 * l.rate + Refill(l, 1)
    ensures MinuteCoversHaul(l) ==> l.burst.Floor as real <= 60.0 * l.rate
    ensures l.burst == l.burst.Floor as real ==> (MinuteCoversHaul(l) <==> l.burst <= 60.0 * l.rate)
  {
    if l.burst <= 60.0 * l.rate {
      forall n: nat ensures Haul(l, n) as real <= 60.0 * l.rate + Refill(l, n) {
        HaulRange(l, n);
      }
    }
    if MinuteCoversHaul(l) {
      OneMs(l);
      assert Haul(l, 0) as real <= 60.0 * l.rate + Refill(l, 0);
      CoversNeeds(l);
    }
  }

  lemma CoversNeeds(l: Limit)
    requires Ok(l) && MinuteCoversHaul(l)
    ensures l.burst < 60.0 * l.rate + Refill(l, 1)
  {
    if l.burst >= 1.0 + Refill(l, 1) {
      var n := AlmostAll(l);
      assert Haul(l, n) as real <= 60.0 * l.rate + Refill(l, n);
    } else {
      OneMs(l);
      assert Haul(l, 0) as real <= 60.0 * l.rate + Refill(l, 0);
    }
  }

  // ---- when is forgetting invisible? ----

  ghost predicate EvictionInvisible(l: Limit) {
    forall start: int, es: seq<Call> :: WholeCosts(es) ==> Run(start, es, l).said == Run(start, es, l).saidFull
  }

  /** A greedy client gains nothing by idling for a minute between two spells. */
  ghost predicate IdlingGainsNothing(l: Limit)
    requires Ok(l)
  {
    forall n: nat, n': nat :: NoGain(l, n, n')
  }

  predicate NoGain(l: Limit, n: nat, n': nat)
    requires Ok(l)
  {
    Haul(l, n) + Haul(l, n') <= Haul(l, n + 60_000 + n')
  }

  lemma IdlerIsSeen(l: Limit, n: nat, n': nat)
    requires Ok(l) && !NoGain(l, n, n')
    ensures !EvictionInvisible(l)
  {
    var p := FirstSpell(l, n);
    var es := [] + Cycle(l, n, 0);
    p := SpellAfter(l, n', es, p, n, Haul(l, n) as real);
    var es' := es + Cycle(l, n', 60_000);
    CycleWhole(l, n, 0);
    CycleWhole(l, n', 60_000);
    FullHaul(0, es', l, 0);
    assert Run(0, es', l).said != Run(0, es', l).saidFull;
  }

  /** The bucket of the limiter that never forgets: full at `since`, never since, `g` tokens drawn. */
  predicate FullSince(l: Limit, b: Bucket, since: int, g: int)
    requires Ok(l)
  {
    b.tokens == l.burst + Refill(l, b.last - since) - g as real && Dominated(l, b.last - since, g, b.tokens)
  }

  /** The evicting limiter forgot the bucket a minute or more after `left`; it was new at `since'`, and
      `g'` of the tokens came from it. */
  predicate Renewed(l: Limit, full: Bucket, b: Bucket, since: int, g: int, left: int, since': int, g': int)
    requires Ok(l)
  {
    b.last == full.last && full.tokens <= b.tokens && since <= left && left + IDLE_MS <= since' <= b.last &&
    0 <= g - g' <= Haul(l, left - since) && Dominated(l, b.last - since', g', b.tokens)
  }

  ghost predicate LooksAlike(l: Limit, full: Bucket, b: Bucket, since: int, g: int)
    requires Ok(l)
  {
    b == full || exists left, since', g' :: Renewed(l, full, b, since, g, left, since', g')
  }

  /** Two clients' drawings, a minute apart, fit into one greedy run. */
  lemma FitsBetween(l: Limit, since: int, left: int, since': int, now: int, g: int, g': int)
    requires Ok(l) && IdlingGainsNothing(l) && since <= left && left + IDLE_MS <= since' <= now
    requires g <= Haul(l, left - since) && g' <= Haul(l, now - since')
    ensures g + g' <= Haul(l, now - since)
  {
    assert NoGain(l, left - since, now - since');
    HaulRises(l, left - since + 60_000 + (now - since'), now - since);
  }

  /** The renewed bucket cannot pay what the old one cannot. */
  lemma SamePay(l: Limit, since: int, g: int, left: int, since': int, g': int, now: int, level: real, level': real,
      c: real)
    requires Ok(l) && IdlingGainsNothing(l) && Whole(c) && since <= left && left + IDLE_MS <= since' <= now
    requires level == l.burst + Refill(l, now - since) - g as real && 0 <= g - g' <= Haul(l, left - since)
    requires level <= level' && Dominated(l, now - since', g', level')
    ensures level' >= c <==> level >= c
  {
    if level' >= c {
      DominatedSpends(l, now - since', g', level', c);
      FitsBetween(l, since, left, since', now, g - g', g' + c.Floor);
      HaulRange(l, now - since);
    }
  }

  /** A call on a bucket that is the same in both, or full in both. */
  lemma SameBucket(l: Limit, full: Bucket, since: int, g: int, now: int, c: real) returns (since': int, g': int)
    requires Ok(l) && Whole(c) && full.last <= now && FullSince(l, full, since, g)
    ensures var level := Topped(full, now, l);
            FullSince(l, Bucket(level - Taken(level, c), now), since', g') &&
            (full.tokens + Refill(l, now - full.last) <= l.burst ==> since' == since && g' == g + Taken(level, c).Floor)
  {
    var level := Topped(full, now, l);
    OneMs(l);
    DominatedLater(l, full.last - since, now - full.last, g, full.tokens);
    RefillSplits(l, full.last - since, now - full.last);
    if full.tokens + Refill(l, now - full.last) <= l.burst {
      since', g' := since, g + Taken(level, c).Floor;
      if level >= c {
        DominatedSpends(l, now - since, g, level, c);
      }
    } else {
      since', g' := now, Taken(level, c).Floor;
      NewlyFull(l, now, c);
    }
  }

  lemma NewlyFull(l: Limit, now: int, c: real)
    requires Ok(l) && Whole(c)
    ensures FullSince(l, Bucket(l.burst - Taken(l.burst, c), now), now, Taken(l.burst, c).Floor)
  {
    OneMs(l);
    FullIsDominated(l, 0);
    if l.burst >= c {
      DominatedSpends(l, 0, 0, l.burst, c);
    }
  }

  /** The two buckets before a call, topped up. */
  lemma RenewedLevels(l: Limit, full: Bucket, b: Bucket, since: int, g: int, left: int, since': int, g': int, now: int)
    requires Ok(l) && full.last <= now && FullSince(l, full, since, g) &&
      Renewed(l, full, b, since, g, left, since', g')
    requires full.tokens + Refill(l, now - full.last) <= l.burst
    ensures var level, level' := Topped(full, now, l), Topped(b, now, l);
            level == l.burst + Refill(l, now - since) - g as real && level <= level' &&
            Dominated(l, now - since', g', level')
  {
    RefillSplits(l, full.last - since, now - full.last);
    DominatedLater(l, b.last - since', now - b.last, g', b.tokens);
  }

  /** The same call on both gets the same answer. */
  lemma RenewedAnswer(l: Limit, full: Bucket, b: Bucket, since: int, g: int, left: int, since': int, g': int, now: int,
                      c: real)
    requires Ok(l) && IdlingGainsNothing(l) && Whole(c) && full.last <= now
    requires FullSince(l, full, since, g) && Renewed(l, full, b, since, g, left, since', g')
    requires full.tokens + Refill(l, now - full.last) <= l.burst
    ensures Topped(b, now, l) >= c <==> Topped(full, now, l) >= c
  {
    RenewedLevels(l, full, b, since, g, left, since', g', now);
    SamePay(l, since, g, left, since', g', now, Topped(full, now, l), Topped(b, now, l), c);
  }

  lemma RenewedCall(l: Limit, full: Bucket, b: Bucket, since: int, g: int, left: int, since': int, g': int, now: int,
      c: real)
    requires Ok(l) && IdlingGainsNothing(l) && Whole(c) && full.last <= now
    requires FullSince(l, full, since, g) && Renewed(l, full, b, since, g, left, since', g')
    requires full.tokens + Refill(l, now - full.last) <= l.burst
    ensures var level, level' := Topped(full, now, l), Topped(b, now, l);
            (level' >= c <==> level >= c) &&
            Renewed(l, Bucket(level - Taken(level, c), now), Bucket(level' - Taken(level', c), now),
                    since, g + Taken(level, c).Floor, left, since', g' + Taken(level, c).Floor)
  {
    RenewedAnswer(l, full, b, since, g, left, since', g', now, c);
    RenewedLevels(l, full, b, since, g, left, since', g', now);
    if Topped(full, now, l) >= c {
      DominatedSpends(l, now - since', g', Topped(b, now, l), c);
    }
  }

  /** What a call leaves of a bucket that held `level`. */
  function After(level: real, c: real, now: int): Bucket {
    Bucket(level - Taken(level, c), now)
  }

  /** Two buckets of one key that no call has told apart yet. */
  ghost predicate Twins(l: Limit, full: Bucket, b: Bucket)
    requires Ok(l)
  {
    exists since, g :: FullSince(l, full, since, g) && LooksAlike(l, full, b, since, g)
  }

  lemma SameTwins(l: Limit, full: Bucket, since: int, g: int, now: int, c: real)
    requires Ok(l) && Whole(c) && full.last <= now && FullSince(l, full, since, g)
    ensures var b := After(Topped(full, now, l), c, now); Twins(l, b, b)
  {
    var since', g' := SameBucket(l, full, since, g, now, c);
    var b := After(Topped(full, now, l), c, now);
    assert LooksAlike(l, b, b, since', g');
  }

  /** A call on two buckets nobody has told apart gets the same answer from both. */
  lemma TwinsCall(l: Limit, full: Bucket, b: Bucket, now: int, c: real)
    requires Ok(l) && IdlingGainsNothing(l) && Whole(c) && full.last <= now && Twins(l, full, b)
    ensures var level, level' := Topped(full, now, l), Topped(b, now, l);
            (level' >= c <==> level >= c) && Twins(l, After(level, c, now), After(level', c, now))
  {
    var since, g :| FullSince(l, full, since, g) && LooksAlike(l, full, b, since, g);
    if b == full {
      SameTwins(l, full, since, g, now, c);
    } else {
      var left, since', g' :| Renewed(l, full, b, since, g, left, since', g');
      if full.tokens + Refill(l, now - full.last) <= l.burst {
        RenewedTwins(l, full, b, since, g, left, since', g', now, c);
      } else {
        SameTwins(l, full, since, g, now, c);
      }
    }
  }

  lemma RenewedTwins(l: Limit, full: Bucket, b: Bucket, since: int, g: int, left: int, since': int, g': int, now: int,
      c: real)
    requires Ok(l) && IdlingGainsNothing(l) && Whole(c) && full.last <= now
    requires FullSince(l, full, since, g) && Renewed(l, full, b, since, g, left, since', g')
    requires full.tokens + Refill(l, now - full.last) <= l.burst
    ensures var level, level' := Topped(full, now, l), Topped(b, now, l);
            (level' >= c <==> level >= c) && Twins(l, After(level, c, now), After(level', c, now))
  {
    var level, level' := Topped(full, now, l), Topped(b, now, l);
    RenewedCall(l, full, b, since, g, left, since', g', now, c);
    var since2, g2 := SameBucket(l, full, since, g, now, c);
    assert Renewed(l, After(level, c, now), After(level', c, now), since, g2, left, since', g' + Taken(level, c).Floor);
    assert LooksAlike(l, After(level, c, now), After(level', c, now), since, g2);
  }

  lemma DrawnIsNatural(l: Limit, b: Bucket, since: int, g: int)
    requires Ok(l) && FullSince(l, b, since, g)
    ensures 0 <= g <= Haul(l, b.last - since)
  {
    DominatedHaul(l, b.last - since, g, b.tokens);
    RefillRises(l, 0, b.last - since);
  }

  /** A key that was forgotten a minute or more after its last call. */
  lemma RenewalCall(l: Limit, full: Bucket, now: int, c: real)
    requires Ok(l) && IdlingGainsNothing(l) && Whole(c) && now - full.last >= IDLE_MS
    requires exists since, g :: FullSince(l, full, since, g)
    ensures var level := Topped(full, now, l);
            (l.burst >= c <==> level >= c) && Twins(l, After(level, c, now), After(l.burst, c, now))
  {
    var since, g :| FullSince(l, full, since, g);
    if full.tokens + Refill(l, now - full.last) <= l.burst {
      RenewalTwins(l, full, since, g, now, c);
    } else {
      SameTwins(l, full, since, g, now, c);
    }
  }

  lemma RenewalTwins(l: Limit, full: Bucket, since: int, g: int, now: int, c: real)
    requires Ok(l) && IdlingGainsNothing(l) && Whole(c) && now - full.last >= IDLE_MS && FullSince(l, full, since, g)
    requires full.tokens + Refill(l, now - full.last) <= l.burst
    ensures var level := Topped(full, now, l);
            (l.burst >= c <==> level >= c) && Twins(l, After(level, c, now), After(l.burst, c, now))
  {
    var level := Topped(full, now, l);
    DrawnIsNatural(l, full, since, g);
    RefillSplits(l, full.last - since, now - full.last);
    FullIsDominated(l, 0);
    SamePay(l, since, g, full.last, now, 0, now, level, l.burst, c);
    var since2, g2 := SameBucket(l, full, since, g, now, c);
    if l.burst >= c {
      DominatedSpends(l, 0, 0, l.burst, c);
    }
    assert Renewed(l, After(level, c, now), After(l.burst, c, now), since, g2, full.last, now, Taken(level, c).Floor);
    assert LooksAlike(l, After(level, c, now), After(l.burst, c, now), since, g2);
  }

  lemma NewTwins(l: Limit, now: int, c: real)
    requires Ok(l) && Whole(c)
    ensures Twins(l, After(l.burst, c, now), After(l.burst, c, now))
  {
    NewlyFull(l, now, c);
    var b := After(l.burst, c, now);
    assert LooksAlike(l, b, b, now, Taken(l.burst, c).Floor);
  }

  /** What the two limiters remember of one key. */
  ghost predicate KeyAlike(l: Limit, m: Buckets, full: Buckets, k: int, now: int)
    requires Ok(l)
  {
    if k !in full then k !in m
    else
      full[k].last <= now &&
      if k in m then m[k].last == full[k].last && Twins(l, full[k], m[k])
      else now - full[k].last >= IDLE_MS && exists since, g :: FullSince(l, full[k], since, g)
  }

  lemma SweptKey(l: Limit, m: Buckets, full: Buckets, k: int, now: int, later: int)
    requires Ok(l) && KeyAlike(l, m, full, k, now) && now <= later
    ensures KeyAlike(l, Swept(m, later), full, k, later)
  {
    if k in m && k !in Swept(m, later) {
      var since, g :| FullSince(l, full[k], since, g) && LooksAlike(l, full[k], m[k], since, g);
      assert FullSince(l, full[k], since, g);
    }
  }

  /** The same call at both limiters, seen from the key that makes it. */
  lemma CalledKey(l: Limit, m: Buckets, full: Buckets, c: Call, now: int)
    requires Ok(l) && IdlingGainsNothing(l) && Whole(c.cost) && KeyAlike(l, m, full, c.k, now)
    ensures KeyAlike(l, Spent(m, c.k, c.cost, now, l), Spent(full, c.k, c.cost, now, l), c.k, now)
    ensures Grants(m, c.k, c.cost, now, l) == Grants(full, c.k, c.cost, now, l)
  {
    CallHere(m, c, now, l);
    CallHere(full, c, now, l);
    if c.k !in full {
      NewTwins(l, now, c.cost);
    } else if c.k in m {
      TwinsCall(l, full[c.k], m[c.k], now, c.cost);
    } else {
      RenewalCall(l, full[c.k], now, c.cost);
    }
  }

  lemma OtherKey(l: Limit, m: Buckets, full: Buckets, c: Call, k: int, now: int)
    requires Ok(l) && c.k != k && KeyAlike(l, m, full, k, now)
    ensures KeyAlike(l, Spent(m, c.k, c.cost, now, l), Spent(full, c.k, c.cost, now, l), k, now)
  {
    CallElsewhere(m, c, k, now, l);
    CallElsewhere(full, c, k, now, l);
  }

  ghost predicate Indistinct(l: Limit, p: Pair)
    requires Ok(l)
  {
    p.said == p.saidFull && forall k :: KeyAlike(l, p.m, p.full, k, p.now)
  }

  lemma NextIndistinct(l: Limit, p: Pair, c: Call)
    requires Ok(l) && IdlingGainsNothing(l) && Whole(c.cost) && Indistinct(l, p)
    ensures Indistinct(l, Next(p, c, l))
  {
    var now := p.now + c.wait;
    var m := Swept(p.m, now);
    forall k ensures KeyAlike(l, Spent(m, c.k, c.cost, now, l), Spent(p.full, c.k, c.cost, now, l), k, now) {
      SweptKey(l, p.m, p.full, k, p.now, now);
      if k == c.k {
        CalledKey(l, m, p.full, c, now);
      } else {
        OtherKey(l, m, p.full, c, k, now);
      }
    }
    SweptKey(l, p.m, p.full, c.k, p.now, now);
    CalledKey(l, m, p.full, c, now);
  }

  lemma {:induction false} StayIndistinct(start: int, es: seq<Call>, l: Limit)
    requires Ok(l) && IdlingGainsNothing(l) && WholeCosts(es)
    ensures Indistinct(l, Run(start, es, l))
  {
    if es != [] {
      StayIndistinct(start, es[..|es| - 1], l);
      NextIndistinct(l, Run(start, es[..|es| - 1], l), es[|es| - 1]);
    }
  }

  /** Forgetting idle keys never changes an answer, in any run of calls with whole costs, if and only if
      a greedy client gains nothing by idling for a minute between two spells. */
  lemma EvictionInvisibleIff(l: Limit)
    requires Ok(l)
    ensures EvictionInvisible(l) <==> IdlingGainsNothing(l)
  {
    if IdlingGainsNothing(l) {
      forall start: int, es: seq<Call> | WholeCosts(es)
        ensures Run(start, es, l).said == Run(start, es, l).saidFull
      {
        StayIndistinct(start, es, l);
      }
    } else {
      var n: nat, n': nat :| !NoGain(l, n, n');
      IdlerIsSeen(l, n, n');
    }
  }

  lemma GainsNothingNeeds(l: Limit)
    requires Ok(l) && IdlingGainsNothing(l)
    ensures l.burst < 60.0 * l.rate + 2.0 * Refill(l, 1)
  {
    if l.burst >= 1.0 + Refill(l, 1) {
      var n := AlmostAll(l);
      assert NoGain(l, n, n);
      HaulRange(l, n + 60_000 + n);
      RefillSplits(l, n + 60_000, n);
      RefillSplits(l, n, 60_000);
    } else {
      assert NoGain(l, 0, 0);
      HaulRange(l, 60_000);
    }
    assert Refill(l, 60_000) == 60.0 * l.rate;
  }

  /** In terms of the settings: it is enough that a minute refills a whole bucket, and necessary that a
      minute and two milliseconds refill more than one. It is also necessary that the whole tokens of two
      buckets are no more than a bucket and a minute's refill, so for a whole burst the condition is
      exact. */
  lemma GainsNothingIff(l: Limit)
    requires Ok(l)
    ensures l.burst <= 60.0 * l.rate ==> IdlingGainsNothing(l)
    ensures IdlingGainsNothing(l) ==> l.burst < 60.0 * l.rate + 2.0 * Refill(l, 1)
    ensures IdlingGainsNothing(l) ==> 2.0 * l.burst.Floor as real <= l.burst + 60.0 * l.rate
    ensures l.burst == l.burst.Floor as real ==> (IdlingGainsNothing(l) <==> l.burst <= 60.0 * l.rate)
  {
    if l.burst <= 60.0 * l.rate {
      CoveredGainsNothing(l);
    }
    if IdlingGainsNothing(l) {
      GainsNothingNeeds(l);
      assert NoGain(l, 0, 0);
      HaulRange(l, 60_000);
      assert Refill(l, 60_000) == 60.0 * l.rate;
    }
  }

  lemma CoveredGainsNothing(l: Limit)
    requires Ok(l) && l.burst <= 60.0 * l.rate
    ensures IdlingGainsNothing(l)
  {
    forall start: int, es: seq<Call> | WholeCosts(es)
      ensures Run(start, es, l).said == Run(start, es, l).saidFull
    {
      WholeCostsOk(es);
      StayAlike(start, es, l);
    }
    EvictionInvisibleIff(l);
  }
}
