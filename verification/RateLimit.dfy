/** The token-bucket limiter with idle eviction, over exact reals. */
module RateLimit {
  import Sums

  const MAX_KEYS: nat := 4096
  const IDLE_MS: int := 60_000

  datatype Bucket = Bucket(tokens: real, last: int)

  /** Keys are the hashed addresses that fall into one lock shard. */
  type Buckets = map<int, Bucket>

  /** Tokens per second, and bucket capacity. */
  datatype Limit = Limit(rate: real, burst: real)

  predicate Ok(l: Limit) {
    l.rate > 0.0 && l.burst >= 1.0
  }

  function Refill(l: Limit, ms: int): real {
    ms as real / 1000.0 * l.rate
  }

  lemma RefillAdds(l: Limit, a: int, b: int)
    requires Ok(l) && a >= 0 && b >= 0
    ensures Refill(l, a + b) == Refill(l, a) + Refill(l, b) && Refill(l, a) >= 0.0 && Refill(l, 0) == 0.0
  {
  }

  function Min(a: real, b: real): real {
    if a <= b then a else b
  }

  /** The tokens a remembered bucket holds at `now`. */
  function Topped(b: Bucket, now: int, l: Limit): real {
    Min(b.tokens + Refill(l, now - b.last), l.burst)
  }

  /** The tokens a key could spend at `now`. */
  function Level(m: Buckets, k: int, now: int, l: Limit): real {
    if k in m then Topped(m[k], now, l) else l.burst
  }

  /** A full shard forgets the keys idle for a minute. */
  function Retained(m: Buckets, now: int): Buckets {
    map k | k in m && now - m[k].last < IDLE_MS :: m[k]
  }

  function Swept(m: Buckets, now: int): Buckets {
    if |m| >= MAX_KEYS then Retained(m, now) else m
  }

  function Grants(m: Buckets, k: int, cost: real, now: int, l: Limit): bool {
    Level(m, k, now, l) >= cost
  }

  function Spent(m: Buckets, k: int, cost: real, now: int, l: Limit): Buckets {
    var level := Level(m, k, now, l);
    m[k := Bucket(if level >= cost then level - cost else level, now)]
  }

  class Limiter {
    const rate: real
    const burst: real
    var buckets: Buckets

    constructor (rate: real, burst: real)
      ensures this.rate == (if rate > 0.0 then rate else 0.0) && this.burst == (if burst > 1.0 then burst else 1.0)
      ensures buckets == map[]
    {
      this.rate := if rate > 0.0 then rate else 0.0;
      this.burst := if burst > 1.0 then burst else 1.0;
      buckets := map[];
    }

    method Refilled(b: Bucket, now: int) returns (tokens: real)
      ensures tokens == Topped(b, now, Limit(rate, burst))
    {
      var elapsed := (now - b.last) as real / 1000.0;
      tokens := b.tokens + elapsed * rate;
      if tokens > burst {
        tokens := burst;
      }
    }

    method Allow(k: int, cost: real, now: int) returns (ok: bool)
      modifies this
      ensures rate <= 0.0 ==> ok && buckets == old(buckets)
      ensures rate > 0.0 ==>
                var m := Swept(old(buckets), now);
                ok == Grants(m, k, cost, now, Limit(rate, burst)) &&
                buckets == Spent(m, k, cost, now, Limit(rate, burst))
    {
      if rate <= 0.0 {
        return true;
      }
      if |buckets| >= MAX_KEYS {
        buckets := map x | x in buckets && now - buckets[x].last < IDLE_MS :: buckets[x];
      }
      var b := if k in buckets then buckets[k] else Bucket(burst, now);
      var tokens := Refilled(b, now);
      assert Refill(Limit(rate, burst), 0) == 0.0;
      assert tokens == Level(buckets, k, now, Limit(rate, burst));
      ok := tokens >= cost;
      buckets := buckets[k := Bucket(if ok then tokens - cost else tokens, now)];
    }
  }

  // ---- runs: the limiter beside one that never forgets ----

  /** A request of `cost` tokens from `k`, some milliseconds after the one before. */
  datatype Call = Call(k: int, cost: real, wait: nat)

  datatype Pair = Pair(now: int, m: Buckets, said: seq<bool>, full: Buckets, saidFull: seq<bool>)

  function Next(p: Pair, c: Call, l: Limit): Pair {
    var now := p.now + c.wait;
    var m := Swept(p.m, now);
    Pair(now, Spent(m, c.k, c.cost, now, l), p.said + [Grants(m, c.k, c.cost, now, l)],
         Spent(p.full, c.k, c.cost, now, l), p.saidFull + [Grants(p.full, c.k, c.cost, now, l)])
  }

  function Run(start: int, es: seq<Call>, l: Limit): (p: Pair)
    ensures |p.said| == |es| && |p.saidFull| == |es|
  {
    if es == [] then Pair(start, map[], [], map[], [])
    else Next(Run(start, es[..|es| - 1], l), es[|es| - 1], l)
  }

  predicate CostsOk(es: seq<Call>) {
    forall i :: 0 <= i < |es| ==> es[i].cost >= 0.0
  }

  // ---- tokens stay in range ----

  predicate InRange(m: Buckets, now: int, l: Limit) {
    forall k :: k in m ==> 0.0 <= m[k].tokens <= l.burst && m[k].last <= now
  }

  lemma LevelInRange(m: Buckets, k: int, now: int, l: Limit)
    requires Ok(l) && InRange(m, now, l)
    ensures 0.0 <= Level(m, k, now, l) <= l.burst
  {
    if k in m {
      RefillAdds(l, now - m[k].last, 0);
    }
  }

  lemma SpentInRange(m: Buckets, k: int, cost: real, now: int, l: Limit)
    requires Ok(l) && InRange(m, now, l) && cost >= 0.0
    ensures InRange(Spent(m, k, cost, now, l), now, l)
  {
    LevelInRange(m, k, now, l);
  }

  lemma NextInRange(p: Pair, c: Call, l: Limit)
    requires Ok(l) && c.cost >= 0.0 && InRange(p.m, p.now, l) && InRange(p.full, p.now, l)
    ensures var p' := Next(p, c, l); InRange(p'.m, p'.now, l) && InRange(p'.full, p'.now, l)
  {
    SpentInRange(Swept(p.m, p.now + c.wait), c.k, c.cost, p.now + c.wait, l);
    SpentInRange(p.full, c.k, c.cost, p.now + c.wait, l);
  }

  /** In every run every bucket of either limiter holds between 0 and `burst` tokens. */
  lemma {:induction false} TokensInRange(start: int, es: seq<Call>, l: Limit)
    requires Ok(l) && CostsOk(es)
    ensures var p := Run(start, es, l); InRange(p.m, p.now, l) && InRange(p.full, p.now, l)
  {
    if es != [] {
      TokensInRange(start, es[..|es| - 1], l);
      NextInRange(Run(start, es[..|es| - 1], l), es[|es| - 1], l);
    }
  }

  // ---- eviction is invisible exactly when a minute refills a bucket ----

  /** The two agree on every key still remembered; a forgotten key is full again. */
  predicate Alike(m: Buckets, full: Buckets, now: int, l: Limit) {
    (forall k :: k in m ==> k in full && m[k] == full[k]) &&
    (forall k :: k in full && k !in m ==> full[k].tokens + Refill(l, now - full[k].last) >= l.burst)
  }

  lemma AlikeLater(m: Buckets, full: Buckets, now: int, wait: nat, l: Limit)
    requires Ok(l) && InRange(full, now, l) && Alike(m, full, now, l)
    ensures Alike(m, full, now + wait, l)
  {
    forall k | k in full && k !in m
      ensures full[k].tokens + Refill(l, now + wait - full[k].last) >= l.burst
    {
      RefillAdds(l, now - full[k].last, wait);
    }
  }

  lemma SweepAlike(m: Buckets, full: Buckets, now: int, l: Limit)
    requires Ok(l) && InRange(full, now, l) && Alike(m, full, now, l) && l.burst <= 60.0 * l.rate
    ensures Alike(Swept(m, now), full, now, l)
  {
    forall k | k in full && k !in Swept(m, now) && k in m
      ensures full[k].tokens + Refill(l, now - full[k].last) >= l.burst
    {
      RefillAdds(l, IDLE_MS, now - full[k].last - IDLE_MS);
    }
  }

  lemma LevelsAlike(m: Buckets, full: Buckets, k: int, now: int, l: Limit)
    requires Alike(m, full, now, l)
    ensures Level(m, k, now, l) == Level(full, k, now, l)
  {
  }

  lemma SpentAlike(m: Buckets, full: Buckets, k: int, cost: real, now: int, l: Limit)
    requires Alike(m, full, now, l)
    ensures Alike(Spent(m, k, cost, now, l), Spent(full, k, cost, now, l), now, l)
  {
    LevelsAlike(m, full, k, now, l);
  }

  lemma ServedAlike(m: Buckets, full: Buckets, c: Call, now: int, l: Limit)
    requires Ok(l) && l.burst <= 60.0 * l.rate && InRange(full, now, l) && Alike(m, full, now, l)
    ensures var m' := Swept(m, now);
            Alike(Spent(m', c.k, c.cost, now, l), Spent(full, c.k, c.cost, now, l), now, l) &&
            Grants(m', c.k, c.cost, now, l) == Grants(full, c.k, c.cost, now, l)
  {
    SweepAlike(m, full, now, l);
    LevelsAlike(Swept(m, now), full, c.k, now, l);
    SpentAlike(Swept(m, now), full, c.k, c.cost, now, l);
  }

  lemma NextAlike(p: Pair, c: Call, l: Limit)
    requires Ok(l) && l.burst <= 60.0 * l.rate && InRange(p.full, p.now, l)
    requires Alike(p.m, p.full, p.now, l) && p.said == p.saidFull
    ensures var p' := Next(p, c, l); Alike(p'.m, p'.full, p'.now, l) && p'.said == p'.saidFull
  {
    AlikeLater(p.m, p.full, p.now, c.wait, l);
    InRangeLater(p.full, p.now, c.wait, l);
    ServedAlike(p.m, p.full, c, p.now + c.wait, l);
  }

  lemma {:induction false} StayAlike(start: int, es: seq<Call>, l: Limit)
    requires Ok(l) && CostsOk(es) && l.burst <= 60.0 * l.rate
    ensures var p := Run(start, es, l); Alike(p.m, p.full, p.now, l) && p.said == p.saidFull
  {
    if es != [] {
      var before := es[..|es| - 1];
      StayAlike(start, before, l);
      TokensInRange(start, before, l);
      NextAlike(Run(start, before, l), es[|es| - 1], l);
    }
  }

  // ---- how much one key can spend ----

  /** What `k` was granted by the calls from index `i` on. */
  function GrantedTo(es: seq<Call>, said: seq<bool>, k: int, i: nat): real
    requires |said| == |es|
  {
    if |es| <= i then 0.0
    else
      var n := |es| - 1;
      GrantedTo(es[..n], said[..n], k, i) + if es[n].k == k && said[n] then es[n].cost else 0.0
  }

  /** When call `i` is made. */
  function TimeOf(start: int, es: seq<Call>, i: nat, l: Limit): int
    requires i < |es|
  {
    Run(start, es[..i + 1], l).now
  }

  lemma LevelRises(m: Buckets, k: int, now: int, wait: nat, l: Limit)
    requires Ok(l) && InRange(m, now, l)
    ensures Level(m, k, now + wait, l) <= Level(m, k, now, l) + Refill(l, wait)
  {
    RefillAdds(l, wait, 0);
    if k in m {
      RefillAdds(l, now - m[k].last, wait);
    }
  }

  lemma SpendingLowers(m: Buckets, c: Call, k: int, now: int, l: Limit)
    requires Ok(l) && InRange(m, now, l) && c.cost >= 0.0
    ensures Level(Spent(m, c.k, c.cost, now, l), k, now, l) ==
            Level(m, k, now, l) - if c.k == k && Grants(m, c.k, c.cost, now, l) then c.cost else 0.0
  {
    RefillAdds(l, 0, 0);
    LevelInRange(m, c.k, now, l);
  }

  lemma BudgetStep(p: Pair, c: Call, k: int, l: Limit)
    requires Ok(l) && c.cost >= 0.0 && InRange(p.full, p.now, l)
    ensures var p' := Next(p, c, l);
            var granted := if c.k == k && Grants(p.full, c.k, c.cost, p'.now, l) then c.cost else 0.0;
            granted + Level(p'.full, k, p'.now, l) <= l.burst &&
            granted + Level(p'.full, k, p'.now, l) <= Level(p.full, k, p.now, l) + Refill(l, c.wait)
  {
    var now := p.now + c.wait;
    InRangeLater(p.full, p.now, c.wait, l);
    LevelInRange(p.full, k, now, l);
    SpendingLowers(p.full, c, k, now, l);
    LevelRises(p.full, k, p.now, c.wait, l);
  }

  function GrantOf(p: Pair, c: Call, k: int, l: Limit): real {
    if c.k == k && Grants(p.full, c.k, c.cost, p.now + c.wait, l) then c.cost else 0.0
  }

  /** Tokens granted and tokens left fit into one bucket and `ms` of refill. */
  predicate Affordable(l: Limit, granted: real, left: real, ms: int) {
    granted + left <= l.burst + Refill(l, ms)
  }

  function Left(p: Pair, k: int, l: Limit): real {
    Level(p.full, k, p.now, l)
  }

  lemma BudgetNext(p: Pair, c: Call, k: int, l: Limit, g: real, t: int)
    requires Ok(l) && c.cost >= 0.0 && InRange(p.full, p.now, l) && t <= p.now
    requires Affordable(l, g, Left(p, k, l), p.now - t)
    ensures Affordable(l, g + GrantOf(p, c, k, l), Left(Next(p, c, l), k, l), p.now + c.wait - t)
  {
    BudgetStep(p, c, k, l);
    RefillAdds(l, p.now - t, c.wait);
  }

  lemma GrantedNext(es: seq<Call>, said: seq<bool>, c: Call, yes: bool, k: int, i: nat)
    requires |said| == |es| && i <= |es|
    ensures GrantedTo(es + [c], said + [yes], k, i) ==
            GrantedTo(es, said, k, i) + if c.k == k && yes then c.cost else 0.0
  {
    assert (es + [c])[..|es|] == es && (said + [yes])[..|es|] == said;
  }

  /** One more call: the clock, what the key was granted, and what it has left. */
  lemma StepIs(start: int, es: seq<Call>, c: Call, l: Limit, k: int, i: nat)
    requires i <= |es|
    ensures var p, p' := Run(start, es, l), Run(start, es + [c], l);
            p' == Next(p, c, l) &&
            GrantedTo(es + [c], p'.saidFull, k, i) == GrantedTo(es, p.saidFull, k, i) + GrantOf(p, c, k, l)
  {
    var p := Run(start, es, l);
    RunLast(start, es, c, l);
    GrantedNext(es, p.saidFull, c, Grants(p.full, c.k, c.cost, p.now + c.wait, l), k, i);
  }

  lemma TimeStays(start: int, es: seq<Call>, c: Call, l: Limit, i: nat)
    requires i <= |es|
    ensures TimeOf(start, es + [c], i, l) == if i == |es| then Run(start, es + [c], l).now else TimeOf(start, es, i, l)
  {
    assert (es + [c])[..i + 1] == if i == |es| then es + [c] else es[..i + 1];
  }

  lemma BudgetFirst(p: Pair, c: Call, k: int, l: Limit)
    requires Ok(l) && c.cost >= 0.0 && InRange(p.full, p.now, l)
    ensures Affordable(l, GrantOf(p, c, k, l), Left(Next(p, c, l), k, l), 0)
  {
    BudgetStep(p, c, k, l);
    RefillAdds(l, 0, 0);
  }

  lemma WithinStep(p: Pair, p': Pair, c: Call, l: Limit, k: int, g: real, g': real, t: int)
    requires Ok(l) && c.cost >= 0.0 && InRange(p.full, p.now, l) && p' == Next(p, c, l)
    requires t <= p.now && Affordable(l, g, Left(p, k, l), p.now - t) && g' == g + GrantOf(p, c, k, l)
    ensures t <= p'.now && Affordable(l, g', Left(p', k, l), p'.now - t)
  {
    BudgetNext(p, c, k, l, g, t);
    assert p'.now - t == p.now + c.wait - t;
  }

  /** What the never-forgetting limiter granted a key since call `i`, plus what the key could still
      spend, is at most a full bucket plus the refill since then. */
  lemma {:induction false} Budget(start: int, es: seq<Call>, l: Limit, k: int, i: nat)
      returns (p: Pair, g: real, t: int)
    requires Ok(l) && CostsOk(es) && i < |es|
    ensures p == Run(start, es, l) && g == GrantedTo(es, p.saidFull, k, i) && t == TimeOf(start, es, i, l)
    ensures t <= p.now && Affordable(l, g, Left(p, k, l), p.now - t)
  {
    var c, before := es[|es| - 1], es[..|es| - 1];
    assert before + [c] == es;
    TokensInRange(start, before, l);
    StepIs(start, before, c, l, k, i);
    TimeStays(start, before, c, l, i);
    p := Next(Run(start, before, l), c, l);
    if i == |before| {
      g, t := GrantOf(Run(start, before, l), c, k, l), p.now;
      BudgetFirst(Run(start, before, l), c, k, l);
    } else {
      var p0, g0, t0 := Budget(start, before, l, k, i);
      g, t := g0 + GrantOf(p0, c, k, l), t0;
      WithinStep(p0, p, c, l, k, g0, g, t0);
    }
  }

  lemma InRangeLater(m: Buckets, now: int, wait: nat, l: Limit)
    requires InRange(m, now, l)
    ensures InRange(m, now + wait, l)
  {
  }

  /** In any stretch of any run, one key is granted at most `burst + rate * duration`, provided a
      minute refills a bucket. */
  lemma GrantedIsBounded(start: int, es: seq<Call>, l: Limit, k: int, i: nat)
    requires Ok(l) && CostsOk(es) && i < |es| && l.burst <= 60.0 * l.rate
    ensures var p := Run(start, es, l);
            GrantedTo(es, p.said, k, i) <= l.burst + Refill(l, p.now - TimeOf(start, es, i, l))
  {
    StayAlike(start, es, l);
    var p, g, t := Budget(start, es, l, k, i);
    TokensInRange(start, es, l);
    LevelInRange(p.full, k, p.now, l);
  }

  lemma RunLast(start: int, es: seq<Call>, c: Call, l: Limit)
    ensures Run(start, es + [c], l) == Next(Run(start, es, l), c, l)
  {
    assert (es + [c])[..|es|] == es;
  }

  // ---- exactly which calls are granted ----

  /** When call `i` was made; a call past the end would be made at `now`. */
  function TimeOrNow(start: int, es: seq<Call>, i: nat, now: int, l: Limit): int {
    if i < |es| then TimeOf(start, es, i, l) else now
  }

  /** All of a full bucket and of `ms` of refill is granted or left. */
  predicate UsedUp(l: Limit, granted: real, left: real, ms: int) {
    granted + left == l.burst + Refill(l, ms)
  }

  lemma LevelLater(m: Buckets, k: int, now: int, wait: nat, l: Limit)
    requires Ok(l) && InRange(m, now, l)
    ensures Level(m, k, now + wait, l) == Min(Level(m, k, now, l) + Refill(l, wait), l.burst)
  {
    RefillAdds(l, wait, 0);
    if k in m {
      RefillAdds(l, now - m[k].last, wait);
    }
  }

  /** What a call leaves to `k`. */
  lemma LeftAfter(p: Pair, c: Call, k: int, l: Limit)
    requires Ok(l) && c.cost >= 0.0 && InRange(p.full, p.now, l)
    ensures var level := Level(p.full, k, p.now + c.wait, l);
            Left(Next(p, c, l), k, l) == level - GrantOf(p, c, k, l) && level <= l.burst &&
            level == Min(Left(p, k, l) + Refill(l, c.wait), l.burst)
  {
    InRangeLater(p.full, p.now, c.wait, l);
    LevelInRange(p.full, k, p.now + c.wait, l);
    SpendingLowers(p.full, c, k, p.now + c.wait, l);
    LevelLater(p.full, k, p.now, c.wait, l);
  }

  lemma NothingFrom(es: seq<Call>, said: seq<bool>, k: int)
    requires |said| == |es|
    ensures GrantedTo(es, said, k, |es|) == 0.0
  {
  }

  /** The next call finds the bucket full; otherwise it has been used before. */
  predicate FullAgain(p: Pair, k: int, wait: nat, l: Limit)
    requires Ok(l) && InRange(p.full, p.now, l)
    ensures !FullAgain(p, k, wait, l) ==> k in p.full && Level(p.full, k, p.now + wait, l) < l.burst
  {
    InRangeLater(p.full, p.now, wait, l);
    LevelInRange(p.full, k, p.now + wait, l);
    Level(p.full, k, p.now + wait, l) == l.burst
  }

  /** One more call goes on with a stretch that used everything up. */
  lemma UsedUpStill(start: int, front: seq<Call>, c: Call, l: Limit, k: int, i: nat, p: Pair, g: real, left: real,
      ms: nat)
      returns (p': Pair, g': real, left': real, ms': nat)
    requires Ok(l) && c.cost >= 0.0 && i < |front| && InRange(p.full, p.now, l)
    requires p == Run(start, front, l) && g == GrantedTo(front, p.saidFull, k, i) && left == Left(p, k, l)
    requires ms == p.now - TimeOf(start, front, i, l) && UsedUp(l, g, left, ms) && !FullAgain(p, k, c.wait, l)
    ensures p' == Run(start, front + [c], l) && g' == GrantedTo(front + [c], p'.saidFull, k, i)
    ensures left' == Left(p', k, l) && ms' == p'.now - TimeOf(start, front + [c], i, l) && UsedUp(l, g', left', ms')
  {
    p', g', ms' := Next(p, c, l), g + GrantOf(p, c, k, l), ms + c.wait;
    left' := NextUsedUp(p, c, k, l, g, ms);
    StepIs(start, front, c, l, k, i);
    TimeStays(start, front, c, l, i);
  }

  lemma NextUsedUp(p: Pair, c: Call, k: int, l: Limit, g: real, ms: nat) returns (left: real)
    requires Ok(l) && c.cost >= 0.0 && InRange(p.full, p.now, l)
    requires !FullAgain(p, k, c.wait, l) && UsedUp(l, g, Left(p, k, l), ms)
    ensures left == Left(Next(p, c, l), k, l) && UsedUp(l, g + GrantOf(p, c, k, l), left, ms + c.wait)
  {
    left := Left(Next(p, c, l), k, l);
    LeftAfter(p, c, k, l);
    RefillAdds(l, ms, c.wait);
  }

  /** Or starts one, when the bucket is full. */
  lemma UsedUpAnew(start: int, front: seq<Call>, c: Call, l: Limit, k: int, p: Pair)
      returns (p': Pair, g': real, left': real, ms': nat)
    requires Ok(l) && c.cost >= 0.0 && p == Run(start, front, l) && InRange(p.full, p.now, l)
    requires FullAgain(p, k, c.wait, l)
    ensures p' == Run(start, front + [c], l) && g' == GrantedTo(front + [c], p'.saidFull, k, |front|)
    ensures left' == Left(p', k, l) && ms' == p'.now - TimeOf(start, front + [c], |front|, l)
    ensures UsedUp(l, g', left', ms')
  {
    p', g', ms' := Next(p, c, l), GrantOf(p, c, k, l), 0;
    left' := FirstUsedUp(p, c, k, l);
    NothingFrom(front, p.saidFull, k);
    StepIs(start, front, c, l, k, |front|);
    TimeStays(start, front, c, l, |front|);
  }

  lemma FirstUsedUp(p: Pair, c: Call, k: int, l: Limit) returns (left: real)
    requires Ok(l) && c.cost >= 0.0 && InRange(p.full, p.now, l) && FullAgain(p, k, c.wait, l)
    ensures left == Left(Next(p, c, l), k, l) && UsedUp(l, GrantOf(p, c, k, l), left, 0)
  {
    left := Left(Next(p, c, l), k, l);
    LeftAfter(p, c, k, l);
    RefillAdds(l, 0, 0);
  }

  /** Some stretch up to the last call has used up everything but what is left. */
  lemma {:induction false} SomeUsedUp(start: int, es: seq<Call>, l: Limit, k: int)
      returns (i: nat, p: Pair, g: real, left: real, ms: nat)
    requires Ok(l) && CostsOk(es) && es != []
    ensures i < |es| && p == Run(start, es, l) && g == GrantedTo(es, p.saidFull, k, i) && left == Left(p, k, l)
    ensures ms == p.now - TimeOf(start, es, i, l) && UsedUp(l, g, left, ms)
  {
    var front, c := es[..|es| - 1], es[|es| - 1];
    assert front + [c] == es;
    p := Run(start, front, l);
    TokensInRange(start, front, l);
    if FullAgain(p, k, c.wait, l) {
      i := |front|;
      p, g, left, ms := UsedUpAnew(start, front, c, l, k, p);
    } else {
      i, p, g, left, ms := SomeUsedUp(start, front, l, k);
      p, g, left, ms := UsedUpStill(start, front, c, l, k, i, p, g, left, ms);
    }
  }

  /** What `k` was granted from call `i` on, with `cost` more at `now`, fits into a full bucket and the
      refill since. */
  predicate Fits(start: int, es: seq<Call>, said: seq<bool>, l: Limit, k: int, i: nat, cost: real, now: int)
    requires |said| == |es|
  {
    GrantedTo(es, said, k, i) + cost <= l.burst + Refill(l, now - TimeOrNow(start, es, i, now, l))
  }

  lemma GrantedFits(start: int, es: seq<Call>, c: Call, l: Limit, i: nat)
    requires Ok(l) && CostsOk(es) && c.cost >= 0.0 && i <= |es|
    requires var p := Run(start, es, l); Grants(p.full, c.k, c.cost, p.now + c.wait, l)
    ensures var p := Run(start, es, l); Fits(start, es, p.saidFull, l, c.k, i, c.cost, p.now + c.wait)
  {
    var p := Run(start, es, l);
    TokensInRange(start, es, l);
    LeftAfter(p, c, c.k, l);
    RefillAdds(l, 0, 0);
    if i == |es| {
      NothingFrom(es, p.saidFull, c.k);
    } else {
      var q, g, t := Budget(start, es, l, c.k, i);
      RefillAdds(l, p.now - t, c.wait);
    }
  }

  lemma NoMoreFits(l: Limit, g: real, left: real, cost: real, ms: nat, wait: nat)
    requires Ok(l) && UsedUp(l, g, left, ms) && left + Refill(l, wait) < cost
    ensures g + cost > l.burst + Refill(l, ms + wait)
  {
    RefillAdds(l, ms, wait);
  }

  lemma RefusedDoesNot(start: int, es: seq<Call>, c: Call, l: Limit) returns (i: nat)
    requires Ok(l) && CostsOk(es) && c.cost >= 0.0
    requires var p := Run(start, es, l); !Grants(p.full, c.k, c.cost, p.now + c.wait, l)
    ensures i <= |es|
    ensures var p := Run(start, es, l); !Fits(start, es, p.saidFull, l, c.k, i, c.cost, p.now + c.wait)
  {
    var p := Run(start, es, l);
    TokensInRange(start, es, l);
    RefillAdds(l, 0, 0);
    if FullAgain(p, c.k, c.wait, l) {
      i := |es|;
      NothingFrom(es, p.saidFull, c.k);
    } else {
      LevelLater(p.full, c.k, p.now, c.wait, l);
      var q, g, left, ms;
      i, q, g, left, ms := SomeUsedUp(start, es, l, c.k);
      NoMoreFits(l, g, left, c.cost, ms, c.wait);
    }
  }

  /** The limiter grants a call exactly when no stretch of the run that ends with it would then exceed
      one burst plus the refill over its duration. Of the limiter that forgets idle keys this holds when a
      minute refills a bucket. */
  lemma GrantedIff(start: int, es: seq<Call>, c: Call, l: Limit)
    requires Ok(l) && CostsOk(es) && c.cost >= 0.0
    ensures var p, p' := Run(start, es, l), Run(start, es + [c], l);
            p'.saidFull == p.saidFull + [p'.saidFull[|es|]] &&
            (p'.saidFull[|es|] <==> forall i: nat :: i <= |es| ==>
              Fits(start, es, p.saidFull, l, c.k, i, c.cost, p'.now))
    ensures var p, p' := Run(start, es, l), Run(start, es + [c], l);
            l.burst <= 60.0 * l.rate ==> p'.said == p'.saidFull && p.said == p.saidFull
  {
    RunLast(start, es, c, l);
    var p := Run(start, es, l);
    var now := p.now + c.wait;
    if Grants(p.full, c.k, c.cost, now, l) {
      forall i: nat | i <= |es|
        ensures Fits(start, es, p.saidFull, l, c.k, i, c.cost, now)
      {
        GrantedFits(start, es, c, l, i);
      }
    } else {
      var i := RefusedDoesNot(start, es, c, l);
    }
    if l.burst <= 60.0 * l.rate {
      StayAlike(start, es, l);
      StayAlike(start, es + [c], l);
    }
  }

  // ---- how many keys are remembered ----

  /** With fewer than 4096 keys nothing is ever forgotten, whatever the limit. */
  lemma {:induction false} FewKeysAreKept(start: int, es: seq<Call>, l: Limit, keys: set<int>)
    requires |keys| < 4096 && forall i :: 0 <= i < |es| ==> es[i].k in keys
    ensures var p := Run(start, es, l); p.m == p.full && p.m.Keys <= keys && p.said == p.saidFull
  {
    if es != [] {
      FewKeysAreKept(start, es[..|es| - 1], l, keys);
      Sums.SubsetSize(Run(start, es[..|es| - 1], l).m.Keys, keys);
    }
  }

  /** Whenever more than 4096 keys are remembered, every one of them called within the last minute. */
  lemma {:induction false} RememberedAreRecent(start: int, es: seq<Call>, l: Limit)
    ensures var p := Run(start, es, l); |p.m| > 4096 ==> forall k :: k in p.m ==> p.now - p.m[k].last < 60_000
  {
    if es != [] {
      var p, c := Run(start, es[..|es| - 1], l), es[|es| - 1];
      var swept := Swept(p.m, p.now + c.wait);
      assert Run(start, es, l).m.Keys == swept.Keys + {c.k};
    }
  }
}
