/** Several nodes, each with its own cache, over one shared KV server: how stale can an answer be? */
module KvNodes {
  import opened Bytes
  import opened Cache
  import opened Times

  type Entries = map<Code, Cached>

  /** What the server held for the watched code from time `at` on. */
  datatype Stamp = Stamp(at: int, v: Option<Val>)

  /** The server's rows, each node's cache, and the history of one watched code. */
  datatype World = World(now: int, kv: map<Code, Val>, caches: map<nat, Entries>, trail: seq<Stamp>)

  /** Vanish is the server dropping a key on its own: expiry, the janitor, or eviction. */
  datatype Act =
    | Resolve(node: nat, c: Code, victims: set<Code>)
    | Create(c: Code, u: bytes, ttl: int)
    | Update(node: nat, c: Code, u: bytes, ttl: int, hasTtl: bool)
    | Remove(node: nat, c: Code)
    | Vanish(c: Code)

  datatype Event = Event(wait: nat, act: Act)

  function CacheOf(w: World, node: nat): Entries {
    if node in w.caches then w.caches[node] else map[]
  }

  function Stored(kv: map<Code, Val>, c: Code): Option<Val> {
    if c in kv then Some(kv[c]) else None
  }

  // ---- operations ----

  /** The answer of a lookup, and the node's cache after it. */
  function Answer(w: World, node: nat, c: Code, victims: set<Code>, ttl: int, now: int): (Option<bytes>, Entries) {
    var m := CacheOf(w, node);
    match Lookup(m, c, ttl, now)
    case Some(hit) => (Some(hit.0), m)
    case None =>
      var m' := AfterLookup(m, c, ttl, now);
      if c in w.kv && !Dead(w.kv[c].e, now)
      then (Some(w.kv[c].u), (m' - victims)[c := Cached(w.kv[c].u, w.kv[c].e, now)])
      else (None, m')
  }

  function Rows(w: World, a: Act, now: int): map<Code, Val> {
    match a
    case Resolve(_, _, _) => w.kv
    case Create(c, u, ttl) => if c in w.kv then w.kv else w.kv[c := Val(ExpiryAt(now, ttl), now, u)]
    case Update(_, c, u, ttl, hasTtl) =>
      if c in w.kv then w.kv[c := Val(NewExpiry(w.kv[c].e, now, ttl, hasTtl), w.kv[c].c, u)] else w.kv
    case Remove(_, c) => w.kv - {c}
    case Vanish(c) => w.kv - {c}
  }

  /** Only the node that changed a row drops it from its cache. */
  function Caches(w: World, a: Act, ttl: int, now: int): map<nat, Entries> {
    match a
    case Resolve(node, c, victims) => w.caches[node := Answer(w, node, c, victims, ttl, now).1]
    case Update(node, c, _, _, _) => if c in w.kv then w.caches[node := CacheOf(w, node) - {c}] else w.caches
    case Remove(node, c) => if c in w.kv then w.caches[node := CacheOf(w, node) - {c}] else w.caches
    case Create(_, _, _) => w.caches
    case Vanish(_) => w.caches
  }

  function Next(w: World, e: Event, ttl: int, k: Code): World {
    var now := w.now + e.wait;
    var kv := Rows(w, e.act, now);
    World(now, kv, Caches(w, e.act, ttl, now), w.trail + [Stamp(now, Stored(kv, k))])
  }

  function Run(start: int, es: seq<Event>, ttl: int, k: Code): World {
    if es == [] then World(start, map[], map[], [Stamp(start, None)])
    else Next(Run(start, es[..|es| - 1], ttl, k), es[|es| - 1], ttl, k)
  }

  // ---- staleness ----

  /** Did the server hold this url and expiry at time `t`? */
  predicate HeldFrom(trail: seq<Stamp>, i: nat, t: int, u: bytes, e: int) {
    i < |trail| && trail[i].v.Some? && trail[i].v.value.u == u && trail[i].v.value.e == e &&
    trail[i].at <= t && (i + 1 < |trail| ==> t <= trail[i + 1].at)
  }

  ghost predicate HeldAt(trail: seq<Stamp>, t: int, u: bytes, e: int) {
    exists i :: HeldFrom(trail, i, t, u, e)
  }

  lemma HeldLater(trail: seq<Stamp>, s: Stamp, t: int, u: bytes, e: int)
    requires HeldAt(trail, t, u, e) && t <= s.at
    ensures HeldAt(trail + [s], t, u, e)
  {
    var i :| HeldFrom(trail, i, t, u, e);
    assert HeldFrom(trail + [s], i, t, u, e);
  }

  /** The entry was the server's row at the moment it was cached. */
  ghost predicate Sourced(trail: seq<Stamp>, en: Cached, now: int) {
    en.at <= now && HeldAt(trail, en.at, en.u, en.e)
  }

  ghost predicate CacheSourced(trail: seq<Stamp>, m: Entries, now: int, k: Code) {
    k in m ==> Sourced(trail, m[k], now)
  }

  ghost predicate Inv(w: World, k: Code) {
    w.trail != [] && w.trail[|w.trail| - 1].v == Stored(w.kv, k) && w.trail[|w.trail| - 1].at <= w.now &&
    forall n :: n in w.caches ==> CacheSourced(w.trail, w.caches[n], w.now, k)
  }

  lemma SourcedLater(trail: seq<Stamp>, s: Stamp, m: Entries, now: int, k: Code)
    requires CacheSourced(trail, m, now, k) && now <= s.at
    ensures CacheSourced(trail + [s], m, s.at, k)
  {
    if k in m {
      HeldLater(trail, s, m[k].at, m[k].u, m[k].e);
    }
  }

  lemma AnswerSourced(w: World, node: nat, c: Code, victims: set<Code>, ttl: int, now: int, k: Code)
    requires Inv(w, k) && w.now <= now
    ensures CacheSourced(w.trail + [Stamp(now, Stored(w.kv, k))], Answer(w, node, c, victims, ttl, now).1, now, k)
  {
    var trail, s := w.trail, Stamp(now, Stored(w.kv, k));
    var m := CacheOf(w, node);
    SourcedLater(trail, s, m, w.now, k);
    if c == k && Lookup(m, c, ttl, now).None? && k in w.kv && !Dead(w.kv[k].e, now) {
      assert HeldFrom(trail + [s], |trail|, now, w.kv[k].u, w.kv[k].e);
    }
  }

  lemma NextInv(w: World, e: Event, ttl: int, k: Code)
    requires Inv(w, k)
    ensures Inv(Next(w, e, ttl, k), k)
  {
    var w' := Next(w, e, ttl, k);
    var s := w'.trail[|w.trail|];
    forall n | n in w'.caches
      ensures CacheSourced(w'.trail, w'.caches[n], w'.now, k)
    {
      if n in w.caches {
        SourcedLater(w.trail, s, w.caches[n], w.now, k);
      }
      if e.act.Resolve? && e.act.node == n {
        AnswerSourced(w, n, e.act.c, e.act.victims, ttl, w'.now, k);
      }
    }
  }

  lemma {:induction false} RunInv(start: int, es: seq<Event>, ttl: int, k: Code)
    ensures Inv(Run(start, es, ttl, k), k)
  {
    if es != [] {
      RunInv(start, es[..|es| - 1], ttl, k);
      NextInv(Run(start, es[..|es| - 1], ttl, k), es[|es| - 1], ttl, k);
    }
  }

  /** In every run of any number of nodes, a url a node serves is one the server held at some moment
      of the last `ttl` milliseconds, under an expiry that has not passed. */
  lemma ServedIsRecent(start: int, es: seq<Event>, ttl: int, k: Code, node: nat, victims: set<Code>, wait: nat)
    requires ttl > 0
    ensures var w := Run(start, es, ttl, k);
            var now := w.now + wait;
            var r := Answer(w, node, k, victims, ttl, now).0;
            r.Some? ==> exists t, e :: now - ttl <= t <= now && !Dead(e, now) &&
                                       HeldAt(w.trail + [Stamp(now, Stored(w.kv, k))], t, r.value, e)
  {
    RunInv(start, es, ttl, k);
    var w := Run(start, es, ttl, k);
    var now := w.now + wait;
    var s := Stamp(now, Stored(w.kv, k));
    var m := CacheOf(w, node);
    if Lookup(m, k, ttl, now).Some? {
      SourcedLater(w.trail, s, m, w.now, k);
      assert HeldAt(w.trail + [s], m[k].at, m[k].u, m[k].e);
    } else if k in w.kv && !Dead(w.kv[k].e, now) {
      assert HeldFrom(w.trail + [s], |w.trail|, now, w.kv[k].u, w.kv[k].e);
      assert HeldAt(w.trail + [s], now, w.kv[k].u, w.kv[k].e);
    }
  }

  /** The node's own operations that would drop or replace its entry of `k` are left out. */
  predicate Spares(a: Act, node: nat, k: Code) {
    match a
    case Resolve(n, c, victims) => n == node && c != k ==> k !in victims
    case Update(n, c, _, _, _) => n != node || c != k
    case Remove(n, c) => n != node || c != k
    case Create(_, _, _) => true
    case Vanish(_) => true
  }

  predicate AllSpare(es: seq<Event>, node: nat, k: Code) {
    forall i :: 0 <= i < |es| ==> Spares(es[i].act, node, k)
  }

  predicate HasCached(w: World, node: nat, k: Code, en: Cached) {
    node in w.caches && k in w.caches[node] && w.caches[node][k] == en
  }

  lemma EntryStays(w: World, e: Event, ttl: int, node: nat, k: Code, en: Cached, now: int)
    requires HasCached(w, node, k, en) && Spares(e.act, node, k)
    requires w.now + e.wait <= now && !Stale(en, ttl, now) && !Dead(en.e, now)
    ensures HasCached(Next(w, e, ttl, k), node, k, en)
  {
    assert !Stale(en, ttl, w.now + e.wait) && !Dead(en.e, w.now + e.wait);
  }

  lemma {:induction false} EntryKept(start: int, es: seq<Event>, later: seq<Event>, ttl: int, k: Code,
      node: nat, en: Cached, now: int)
    requires HasCached(Run(start, es, ttl, k), node, k, en) && AllSpare(later, node, k)
    requires Run(start, es + later, ttl, k).now <= now && !Stale(en, ttl, now) && !Dead(en.e, now)
    ensures HasCached(Run(start, es + later, ttl, k), node, k, en)
  {
    if later == [] {
      assert es + later == es;
    } else {
      var front, last := later[..|later| - 1], later[|later| - 1];
      assert es + later == (es + front) + [last];
      RunOne(start, es + front, last, ttl, k);
      EntryKept(start, es, front, ttl, k, node, en, now);
      EntryStays(Run(start, es + front, ttl, k), last, ttl, node, k, en, now);
    }
  }

  /** Whatever other nodes do meanwhile, a node serves what it once cached as long as the entry is at most
      ttl old, counted from the moment it was cached, and has not expired: a change elsewhere does not
      reach it before. A ttl that is not positive means for ever. */
  lemma OldUrlKept(start: int, es: seq<Event>, later: seq<Event>, ttl: int, k: Code, node: nat, en: Cached,
      now: int, victims: set<Code>)
    requires HasCached(Run(start, es, ttl, k), node, k, en) && AllSpare(later, node, k)
    requires Run(start, es + later, ttl, k).now <= now && !Stale(en, ttl, now) && !Dead(en.e, now)
    ensures Answer(Run(start, es + later, ttl, k), node, k, victims, ttl, now).0 == Some(en.u)
  {
    EntryKept(start, es, later, ttl, k, node, en, now);
  }

  /** And no longer: in every run, `wait` milliseconds after another node's update a node that had cached
      the link answers the old url if and only if its entry is at most ttl milliseconds old, counted from
      when it was cached and not from the update, and has not expired. Otherwise it answers the new row. */
  lemma OldUrlServedIff(start: int, es: seq<Event>, ttl: int, k: Code, node: nat, en: Cached, other: nat,
      u: bytes, uttl: int, hasTtl: bool, before: nat, wait: nat, victims: set<Code>)
    requires var w := Run(start, es, ttl, k); HasCached(w, node, k, en) && k in w.kv && other != node && u != en.u
    ensures var w := Run(start, es, ttl, k);
            var w1 := Run(start, es + [Event(before, Update(other, k, u, uttl, hasTtl))], ttl, k);
            var now := w1.now + wait;
            var answer := Answer(w1, node, k, victims, ttl, now).0;
            var young := (ttl <= 0 || now - en.at <= ttl) && !Dead(en.e, now);
            (answer == Some(en.u) <==> young) &&
            (!young ==> answer == if Dead(NewExpiry(w.kv[k].e, w1.now, uttl, hasTtl), now) then None else Some(u))
  {
    RunOne(start, es, Event(before, Update(other, k, u, uttl, hasTtl)), ttl, k);
  }

  lemma RunOne(start: int, es: seq<Event>, e: Event, ttl: int, k: Code)
    ensures Run(start, es + [e], ttl, k) == Next(Run(start, es, ttl, k), e, ttl, k)
  {
    assert (es + [e])[..|es|] == es;
  }

  lemma {:induction false} ClockRuns(start: int, es: seq<Event>, ttl: int, k: Code)
    ensures Run(start, es, ttl, k).now >= start
  {
    if es != [] {
      ClockRuns(start, es[..|es| - 1], ttl, k);
    }
  }

  /** In every run: after a node's update that brings a time to live, that node serves the new url
      `wait` milliseconds later if and only if less than that time has passed or it is not positive,
      which means never. An update without one keeps the old expiry. */
  lemma UpdatedServedIff(start: int, es: seq<Event>, ttl: int, c: Code, node: nat, u: bytes, uttl: int,
      hasTtl: bool, before: nat, wait: nat, victims: set<Code>)
    requires start > 0 && c in Run(start, es, ttl, c).kv
    ensures var w := Run(start, es, ttl, c);
            var w1 := Next(w, Event(before, Update(node, c, u, uttl, hasTtl)), ttl, c);
            var now := w1.now + wait;
            var lives := if hasTtl then uttl <= 0 || wait < uttl else !Dead(w.kv[c].e, now);
            Answer(w1, node, c, victims, ttl, now).0 == if lives then Some(u) else None
  {
    ClockRuns(start, es, ttl, c);
  }

  // ---- created and removed links ----

  /** The event neither changes nor drops a stored row of `k`. */
  predicate KeepsRow(a: Act, k: Code) {
    match a
    case Update(_, c, _, _, _) => c != k
    case Remove(_, c) => c != k
    case Vanish(c) => c != k
    case _ => true
  }

  predicate AllKeepRow(es: seq<Event>, k: Code) {
    forall x :: 0 <= x < |es| ==> KeepsRow(es[x].act, k)
  }

  /** The server holds the row, and what the node has cached of `k` is from it. */
  predicate Settled(w: World, node: nat, k: Code, v: Val) {
    k in w.kv && w.kv[k] == v &&
    (k in CacheOf(w, node) ==> CacheOf(w, node)[k].u == v.u && CacheOf(w, node)[k].e == v.e)
  }

  lemma SettledNext(w: World, e: Event, ttl: int, node: nat, k: Code, v: Val)
    requires Settled(w, node, k, v) && KeepsRow(e.act, k)
    ensures Settled(Next(w, e, ttl, k), node, k, v) && Next(w, e, ttl, k).now >= w.now
  {
  }

  lemma {:induction false} StaysSettled(start: int, es: seq<Event>, later: seq<Event>, ttl: int, node: nat,
      k: Code, v: Val)
    requires Settled(Run(start, es, ttl, k), node, k, v) && AllKeepRow(later, k)
    ensures Settled(Run(start, es + later, ttl, k), node, k, v)
    ensures Run(start, es, ttl, k).now <= Run(start, es + later, ttl, k).now
  {
    if later == [] {
      assert es + later == es;
    } else {
      var front, last := later[..|later| - 1], later[|later| - 1];
      assert es + later == (es + front) + [last];
      RunOne(start, es + front, last, ttl, k);
      StaysSettled(start, es, front, ttl, node, k, v);
      SettledNext(Run(start, es + front, ttl, k), last, ttl, node, k, v);
    }
  }

  /** In every run: a link created where none is stored is served by every node that had not cached an
      older one, for its time to live or for ever when that is not positive, until somebody changes or
      drops it; creating it again changes nothing. */
  lemma CreatedIsServed(start: int, es: seq<Event>, before: nat, k: Code, u: bytes, uttl: int,
      later: seq<Event>, ttl: int, node: nat, wait: nat, victims: set<Code>)
    requires start > 0 && k !in Run(start, es, ttl, k).kv && AllKeepRow(later, k)
    requires k !in CacheOf(Run(start, es, ttl, k), node)
    ensures var made := es + [Event(before, Create(k, u, uttl))];
            var w, w' := Run(start, made, ttl, k), Run(start, made + later, ttl, k);
            var now := w'.now + wait;
            Answer(w', node, k, victims, ttl, now).0 == if uttl <= 0 || now - w.now < uttl then Some(u) else None
  {
    var made := es + [Event(before, Create(k, u, uttl))];
    RunOne(start, es, Event(before, Create(k, u, uttl)), ttl, k);
    ClockRuns(start, es, ttl, k);
    var w := Run(start, made, ttl, k);
    StaysSettled(start, made, later, ttl, node, k, Val(if uttl > 0 then w.now + uttl else 0, w.now, u));
  }

  predicate NoneMade(es: seq<Event>, k: Code) {
    forall x :: 0 <= x < |es| ==> !(es[x].act.Create? && es[x].act.c == k)
  }

  /** Neither stored nor cached at the node. */
  predicate Gone(w: World, node: nat, k: Code) {
    k !in w.kv && k !in CacheOf(w, node)
  }

  lemma GoneNext(w: World, e: Event, ttl: int, node: nat, k: Code)
    requires Gone(w, node, k) && !(e.act.Create? && e.act.c == k)
    ensures Gone(Next(w, e, ttl, k), node, k)
  {
  }

  lemma {:induction false} StaysGone(start: int, es: seq<Event>, later: seq<Event>, ttl: int, node: nat, k: Code)
    requires Gone(Run(start, es, ttl, k), node, k) && NoneMade(later, k)
    ensures Gone(Run(start, es + later, ttl, k), node, k)
  {
    if later == [] {
      assert es + later == es;
    } else {
      var front, last := later[..|later| - 1], later[|later| - 1];
      assert es + later == (es + front) + [last];
      RunOne(start, es + front, last, ttl, k);
      StaysGone(start, es, front, ttl, node, k);
      GoneNext(Run(start, es + front, ttl, k), last, ttl, node, k);
    }
  }

  /** In every run: the node that removed a link never serves it again until it is created anew, and nor
      does a node that had not cached it. */
  lemma RemovedIsGone(start: int, es: seq<Event>, before: nat, k: Code, remover: nat, later: seq<Event>,
      ttl: int, node: nat, now: int, victims: set<Code>)
    requires k in Run(start, es, ttl, k).kv && NoneMade(later, k)
    requires node == remover || k !in CacheOf(Run(start, es, ttl, k), node)
    ensures var w := Run(start, es + [Event(before, Remove(remover, k))] + later, ttl, k);
            Answer(w, node, k, victims, ttl, now).0 == None
  {
    RunOne(start, es, Event(before, Remove(remover, k)), ttl, k);
    StaysGone(start, es + [Event(before, Remove(remover, k))], later, ttl, node, k);
  }
}
