/** The embedded-database backend: a read-through cache in front of a key-value database, run side
    by side with the same backend without the cache. */
module Rocks {
  import opened Bytes
  import opened Cache
  import opened Sums
  import opened Times

  /** The rows of the link table, decoded, and the unflushed hit counts. */
  datatype Disk = Disk(db: map<Code, Val>, dirty: map<Code, int>)

  /** The row a read at `now` yields, and the database after it: an expired row is deleted. */
  function RowAt(db: map<Code, Val>, c: Code, now: int): Option<Val> {
    if c in db && !Dead(db[c].e, now) then Some(db[c]) else None
  }

  function Reaped(db: map<Code, Val>, c: Code, now: int): map<Code, Val> {
    if c in db && Dead(db[c].e, now) then db - {c} else db
  }

  /** What one operation does; `victims` are the entries a full cache drops to make room, and
      Filter is the database's own compaction looking at one key, which may drop a dead row
      (depending on its format) and never a live one. */
  datatype Act =
    | Resolve(c: Code, victims: set<Code>)
    | Create(c: Code, u: bytes, ttl: int)
    | Batch(links: seq<(Code, bytes)>, ttl: int)
    | Update(c: Code, u: bytes, ttl: int, hasTtl: bool)
    | Remove(c: Code)
    | Filter(c: Code, drops: bool)

  /** An operation some time after the one before it. */
  datatype Event = Event(wait: nat, act: Act)

  datatype Answer = Url(u: Option<bytes>) | Ok(ok: bool) | Silent

  /** Unlike NewExpiry in the other backends, a ttl of zero or less set here is an expiry of `now`. */
  function UpdatedExpiry(now: int, ttl: int, hasTtl: bool, e: int): int {
    if hasTtl then now + (if ttl > 0 then ttl else 0) else e
  }

  function WriteBatch(db: map<Code, Val>, links: seq<(Code, bytes)>, e: int, now: int): map<Code, Val> {
    if links == [] then db
    else
      var k := |links| - 1;
      WriteBatch(db, links[..k], e, now)[links[k].0 := Val(e, now, links[k].1)]
  }

  // ---- without a cache ----

  function PlainResolve(d: Disk, c: Code, now: int): (Disk, Answer) {
    var d' := d.(db := Reaped(d.db, c, now));
    match RowAt(d.db, c, now)
    case None => (d', Url(None))
    case Some(v) => (d'.(dirty := Dirtied(d.dirty, c)), Url(Some(v.u)))
  }

  function DoUpdate(d: Disk, c: Code, u: bytes, ttl: int, hasTtl: bool, now: int): (Disk, Answer) {
    match RowAt(d.db, c, now)
    case None => (d.(db := Reaped(d.db, c, now)), Ok(false))
    case Some(v) => (d.(db := d.db[c := Val(UpdatedExpiry(now, ttl, hasTtl, v.e), v.c, u)]), Ok(true))
  }

  function DoRemove(d: Disk, c: Code, now: int): (Disk, Answer) {
    match RowAt(d.db, c, now)
    case None => (d.(db := Reaped(d.db, c, now)), Ok(false))
    case Some(_) => (d.(db := d.db - {c}), Ok(true))
  }

  function DoCreate(d: Disk, c: Code, u: bytes, ttl: int, now: int): (Disk, Answer) {
    if c in d.db then (d, Ok(false)) else (d.(db := d.db[c := Val(ExpiryAt(now, ttl), now, u)]), Ok(true))
  }

  function DoFilter(d: Disk, c: Code, drops: bool, now: int): Disk {
    if drops then d.(db := Reaped(d.db, c, now)) else d
  }

  function Plain(d: Disk, a: Act, now: int): (Disk, Answer) {
    match a
    case Resolve(c, _) => PlainResolve(d, c, now)
    case Create(c, u, ttl) => DoCreate(d, c, u, ttl, now)
    case Batch(links, ttl) => (d.(db := WriteBatch(d.db, links, ExpiryAt(now, ttl), now)), Silent)
    case Update(c, u, ttl, hasTtl) => DoUpdate(d, c, u, ttl, hasTtl, now)
    case Remove(c) => DoRemove(d, c, now)
    case Filter(c, drops) => (DoFilter(d, c, drops, now), Silent)
  }

  // ---- with the cache ----

  type Entries = map<Code, Cached>

  function CachedResolve(d: Disk, m: Entries, c: Code, victims: set<Code>, ttl: int, now: int):
      (Disk, Entries, Answer) {
    match Lookup(m, c, ttl, now)
    case Some(hit) => (d.(dirty := Dirtied(d.dirty, c)), m, Url(Some(hit.0)))
    case None =>
      var (d', answer) := PlainResolve(d, c, now);
      var m' := AfterLookup(m, c, ttl, now);
      (d', match RowAt(d.db, c, now) case None => m' case Some(v) => (m' - victims)[c := Cached(v.u, v.e, now)], answer)
  }

  /** Successful updates and removals drop the code from the cache; nothing else touches it. */
  function WithCache(d: Disk, m: Entries, a: Act, ttl: int, now: int): (Disk, Entries, Answer) {
    match a
    case Resolve(c, victims) => CachedResolve(d, m, c, victims, ttl, now)
    case Update(c, _, _, _) => var (d', r) := Plain(d, a, now); (d', if r == Ok(true) then m - {c} else m, r)
    case Remove(c) => var (d', r) := Plain(d, a, now); (d', if r == Ok(true) then m - {c} else m, r)
    case Create(_, _, _) => var (d', r) := Plain(d, a, now); (d', m, r)
    case Batch(_, _) => var (d', r) := Plain(d, a, now); (d', m, r)
    case Filter(_, _) => var (d', r) := Plain(d, a, now); (d', m, r)
  }

  // ---- bulk creates ----

  /** The url the last of the links with this code brings. */
  function Written(links: seq<(Code, bytes)>, c: Code): Option<bytes> {
    if links == [] then None
    else if links[|links| - 1].0 == c then Some(links[|links| - 1].1)
    else Written(links[..|links| - 1], c)
  }

  lemma {:induction false} BatchWrites(db: map<Code, Val>, links: seq<(Code, bytes)>, e: int, now: int, c: Code)
    ensures var db' := WriteBatch(db, links, e, now);
            match Written(links, c)
            case Some(u) => c in db' && db'[c] == Val(e, now, u)
            case None => (c in db' <==> c in db) && (c in db ==> db'[c] == db[c])
  {
    if links != [] {
      BatchWrites(db, links[..|links| - 1], e, now, c);
    }
  }

  // ---- when is a cached entry harmless? ----

  predicate Servable(en: Cached, ttl: int, now: int) {
    !Stale(en, ttl, now) && !Dead(en.e, now)
  }

  /** A row with this expiry is alive for as long as the entry can be served. */
  predicate Outlives(e: int, en: Cached, ttl: int) {
    e == 0 || (en.e != 0 && en.e <= e) || (ttl > 0 && en.at + ttl < e)
  }

  /** The entry is not served any more, or says what the stored row says for as long as it is. */
  predicate Harmless(db: map<Code, Val>, c: Code, en: Cached, ttl: int, now: int) {
    Servable(en, ttl, now) ==> c in db && db[c].u == en.u && Outlives(db[c].e, en, ttl)
  }

  predicate Coherent(db: map<Code, Val>, m: Entries, ttl: int, now: int) {
    forall c :: c in m ==> Harmless(db, c, m[c], ttl, now)
  }

  /** Any lookup, now or later, gets the answer the database alone would give. */
  ghost predicate LookupsAgree(plain: Disk, cached: Disk, m: Entries, ttl: int, now: int) {
    forall c, victims, later :: later >= now ==> LookupAgrees(plain, cached, m, c, victims, ttl, later)
  }

  predicate LookupAgrees(plain: Disk, cached: Disk, m: Entries, c: Code, victims: set<Code>, ttl: int, now: int) {
    CachedResolve(cached, m, c, victims, ttl, now).2 == PlainResolve(plain, c, now).1
  }

  lemma TimePasses(db: map<Code, Val>, m: Entries, ttl: int, now: int, later: int)
    requires Coherent(db, m, ttl, now) && now <= later
    ensures Coherent(db, m, ttl, later)
  {
    forall c | c in m ensures Harmless(db, c, m[c], ttl, later) {
      assert Harmless(db, c, m[c], ttl, now);
    }
  }

  /** A coherent cache answers what the database would. */
  lemma ResolveAgrees(d: Disk, m: Entries, c: Code, victims: set<Code>, ttl: int, now: int)
    requires Coherent(d.db, m, ttl, now)
    ensures var (d', m', r) := CachedResolve(d, m, c, victims, ttl, now);
            (d', r) == PlainResolve(d, c, now) && Coherent(d'.db, m', ttl, now)
  {
    if c in m {
      assert Harmless(d.db, c, m[c], ttl, now);
    }
  }

  /** An entry that is not harmless gives itself away at once, or when its row expires. */
  lemma Harmful(d: Disk, m: Entries, c: Code, ttl: int, now: int) returns (later: int)
    requires c in m && !Harmless(d.db, c, m[c], ttl, now)
    ensures later >= now && !LookupAgrees(d, d, m, c, {}, ttl, later)
  {
    later := if c !in d.db || d.db[c].u != m[c].u || d.db[c].e <= now then now else d.db[c].e;
    assert Servable(m[c], ttl, later);
  }

  /** Coherence is exactly what all later lookups depend on. */
  lemma CoherentIff(d: Disk, m: Entries, ttl: int, now: int)
    ensures Coherent(d.db, m, ttl, now) <==> LookupsAgree(d, d, m, ttl, now)
  {
    if Coherent(d.db, m, ttl, now) {
      forall c, victims, later | later >= now ensures LookupAgrees(d, d, m, c, victims, ttl, later) {
        TimePasses(d.db, m, ttl, now, later);
        ResolveAgrees(d, m, c, victims, ttl, later);
      }
    }
    if LookupsAgree(d, d, m, ttl, now) {
      forall c | c in m ensures Harmless(d.db, c, m[c], ttl, now) {
        if !Harmless(d.db, c, m[c], ttl, now) {
          var later := Harmful(d, m, c, ttl, now);
        }
      }
    }
  }

  /** A bulk create writes over an entry that is still served, with another url or with a row that
      expires while the entry is served. */
  predicate Masks(m: Entries, links: seq<(Code, bytes)>, e: int, ttl: int, now: int) {
    exists c :: c in m && Written(links, c).Some? && Servable(m[c], ttl, now) &&
                (Written(links, c).value != m[c].u || !Outlives(e, m[c], ttl))
  }

  /** A bulk create writes without looking. On a cache that was coherent, every later lookup still
      gets the database's answer if and only if the batch masks no row behind a served entry. */
  lemma BatchAgreesIff(d: Disk, m: Entries, links: seq<(Code, bytes)>, e: int, ttl: int, now: int)
    requires Coherent(d.db, m, ttl, now)
    ensures var d' := d.(db := WriteBatch(d.db, links, e, now));
            (LookupsAgree(d', d', m, ttl, now) <==> !Masks(m, links, e, ttl, now)) &&
            (Coherent(d'.db, m, ttl, now) <==> !Masks(m, links, e, ttl, now))
  {
    var db' := WriteBatch(d.db, links, e, now);
    CoherentIff(d.(db := db'), m, ttl, now);
    forall c | c in m
      ensures Harmless(db', c, m[c], ttl, now) <==>
              !(Written(links, c).Some? && Servable(m[c], ttl, now) &&
                (Written(links, c).value != m[c].u || !Outlives(e, m[c], ttl)))
    {
      BatchWrites(d.db, links, e, now, c);
      assert Harmless(d.db, c, m[c], ttl, now);
    }
  }

  // ---- runs ----

  /** Both backends after a run, their answers so far, and whether a bulk create ever masked a row. */
  datatype Pair = Pair(now: int, plain: Disk, cached: Disk, m: Entries,
                       said: seq<Answer>, saidCached: seq<Answer>, masked: bool)

  const EMPTY_DISK: Disk := Disk(map[], map[])

  predicate MasksRow(m: Entries, a: Act, ttl: int, now: int) {
    a.Batch? && Masks(m, a.links, ExpiryAt(now, a.ttl), ttl, now)
  }

  function Next(p: Pair, e: Event, ttl: int): Pair {
    var now := p.now + e.wait;
    var (d, r) := Plain(p.plain, e.act, now);
    var (d', m', r') := WithCache(p.cached, p.m, e.act, ttl, now);
    Pair(now, d, d', m', p.said + [r], p.saidCached + [r'], p.masked || MasksRow(p.m, e.act, ttl, now))
  }

  function Run(start: int, es: seq<Event>, ttl: int): Pair {
    if es == [] then Pair(start, EMPTY_DISK, EMPTY_DISK, map[], [], [], false)
    else Next(Run(start, es[..|es| - 1], ttl), es[|es| - 1], ttl)
  }

  lemma MutationCoherent(d: Disk, m: Entries, a: Act, ttl: int, now: int)
    requires Coherent(d.db, m, ttl, now) && !a.Resolve? && !a.Batch?
    ensures var (d', m', r) := WithCache(d, m, a, ttl, now);
            (d', r) == Plain(d, a, now) && Coherent(d'.db, m', ttl, now)
  {
    var (d', m', r) := WithCache(d, m, a, ttl, now);
    forall c | c in m' ensures Harmless(d'.db, c, m'[c], ttl, now) {
      assert c in m && m'[c] == m[c];
      assert Harmless(d.db, c, m[c], ttl, now);
    }
  }

  lemma StepAgrees(d: Disk, m: Entries, a: Act, ttl: int, now: int)
    requires Coherent(d.db, m, ttl, now) && !MasksRow(m, a, ttl, now)
    ensures var (d', m', r) := WithCache(d, m, a, ttl, now);
            (d', r) == Plain(d, a, now) && Coherent(d'.db, m', ttl, now)
  {
    match a
    case Resolve(c, victims) => ResolveAgrees(d, m, c, victims, ttl, now);
    case Batch(links, bttl) => BatchAgreesIff(d, m, links, ExpiryAt(now, bttl), ttl, now);
    case Filter(_, _) => MutationCoherent(d, m, a, ttl, now);
    case Create(_, _, _) => MutationCoherent(d, m, a, ttl, now);
    case Update(_, _, _, _) => MutationCoherent(d, m, a, ttl, now);
    case Remove(_) => MutationCoherent(d, m, a, ttl, now);
  }

  predicate Agree(p: Pair, ttl: int) {
    p.said == p.saidCached && p.plain == p.cached && Coherent(p.cached.db, p.m, ttl, p.now)
  }

  lemma NextIs(p: Pair, e: Event, ttl: int, d: Disk, m: Entries, r: Answer)
    requires p.plain == p.cached && p.said == p.saidCached
    requires WithCache(p.cached, p.m, e.act, ttl, p.now + e.wait) == (d, m, r)
    requires Plain(p.cached, e.act, p.now + e.wait) == (d, r) && Coherent(d.db, m, ttl, p.now + e.wait)
    ensures Agree(Next(p, e, ttl), ttl)
  {
    var p' := Next(p, e, ttl);
    assert p'.cached == d == p'.plain && p'.m == m && p'.now == p.now + e.wait;
    assert p'.said == p.said + [r] && p'.saidCached == p.saidCached + [r];
  }

  lemma NextAgrees(p: Pair, e: Event, ttl: int)
    requires Agree(p, ttl) && !MasksRow(p.m, e.act, ttl, p.now + e.wait)
    ensures Agree(Next(p, e, ttl), ttl)
  {
    var now := p.now + e.wait;
    TimePasses(p.cached.db, p.m, ttl, p.now, now);
    StepAgrees(p.cached, p.m, e.act, ttl, now);
    var (d, m, r) := WithCache(p.cached, p.m, e.act, ttl, now);
    NextIs(p, e, ttl, d, m, r);
  }

  lemma MaskedNext(p: Pair, e: Event, ttl: int)
    ensures Next(p, e, ttl).masked == (p.masked || MasksRow(p.m, e.act, ttl, p.now + e.wait))
  {
  }

  /** Over every run in which no bulk create masks a row, the cache is invisible: every answer, the
      stored rows and the hit counts are those of the backend without it. */
  lemma {:induction false} CacheIsInvisible(start: int, es: seq<Event>, ttl: int)
    requires !Run(start, es, ttl).masked
    ensures Agree(Run(start, es, ttl), ttl)
  {
    if es != [] {
      var p := Run(start, es[..|es| - 1], ttl);
      MaskedNext(p, es[|es| - 1], ttl);
      CacheIsInvisible(start, es[..|es| - 1], ttl);
      NextAgrees(p, es[|es| - 1], ttl);
    }
  }

  /** At every moment of the run a lookup, then or later, would have got the same answer. */
  ghost predicate NeverTold(start: int, es: seq<Event>, ttl: int) {
    forall n :: 0 <= n <= |es| ==> Untold(Run(start, es[..n], ttl), ttl)
  }

  ghost predicate Untold(p: Pair, ttl: int) {
    LookupsAgree(p.plain, p.cached, p.m, ttl, p.now)
  }

  /** The step that masks a row leaves a lookup that tells. */
  lemma MaskTells(p: Pair, e: Event, ttl: int)
    requires Agree(p, ttl) && MasksRow(p.m, e.act, ttl, p.now + e.wait)
    ensures !Untold(Next(p, e, ttl), ttl)
  {
    var now := p.now + e.wait;
    TimePasses(p.cached.db, p.m, ttl, p.now, now);
    BatchAgreesIff(p.cached, p.m, e.act.links, ExpiryAt(now, e.act.ttl), ttl, now);
  }

  /** For every run: no lookup at any moment can tell the cached backend from the one without a cache
      if and only if no bulk create masked a row. */
  lemma {:induction false} CacheIsInvisibleIff(start: int, es: seq<Event>, ttl: int)
    ensures NeverTold(start, es, ttl) <==> !Run(start, es, ttl).masked
  {
    var p := Run(start, es, ttl);
    assert es[..|es|] == es;
    if es == [] {
      CoherentIff(p.cached, p.m, ttl, p.now);
      assert forall n :: 0 <= n <= |es| ==> es[..n] == es;
    } else {
      var front := es[..|es| - 1];
      CacheIsInvisibleIff(start, front, ttl);
      assert forall n :: 0 <= n <= |front| ==> front[..n] == es[..n];
      MaskedNext(Run(start, front, ttl), es[|es| - 1], ttl);
      NeverToldNext(start, es, ttl);
      if !Run(start, front, ttl).masked {
        CacheIsInvisible(start, front, ttl);
        if p.masked {
          MaskTells(Run(start, front, ttl), es[|es| - 1], ttl);
        } else {
          CacheIsInvisible(start, es, ttl);
          CoherentIff(p.cached, p.m, ttl, p.now);
        }
      }
    }
  }

  lemma NeverToldNext(start: int, es: seq<Event>, ttl: int)
    requires es != []
    ensures NeverTold(start, es, ttl) <==> NeverTold(start, es[..|es| - 1], ttl) && Untold(Run(start, es, ttl), ttl)
  {
    var front := es[..|es| - 1];
    assert es[..|es|] == es;
    forall n | 0 <= n <= |front| ensures front[..n] == es[..n] {
    }
    if NeverTold(start, es, ttl) {
      forall n | 0 <= n <= |front| ensures Untold(Run(start, front[..n], ttl), ttl) {
        assert Untold(Run(start, es[..n], ttl), ttl);
      }
      assert Untold(Run(start, es[..|es|], ttl), ttl);
    }
  }

  /** It does happen: a bulk create over a code that is stored and cached leaves the old url being
      served. */
  lemma BlindBatchServesOld(c: Code, u1: bytes, u2: bytes, start: int, ttl: int)
    requires u1 != u2 && ttl >= 0
    ensures var es := [Event(0, Create(c, u1, 0)), Event(0, Resolve(c, {})), Event(0, Batch([(c, u2)], 0)),
      Event(0, Resolve(c, {}))];
            var p := Run(start, es, ttl);
            |p.said| == |p.saidCached| == 4 && p.said[3] == Url(Some(u2)) && p.saidCached[3] == Url(Some(u1))
  {
    var es := [Event(0, Create(c, u1, 0)), Event(0, Resolve(c, {})), Event(0, Batch([(c, u2)], 0)),
      Event(0, Resolve(c, {}))];
    var p0 := Run(start, [], ttl);
    var p1 := Next(p0, es[0], ttl);
    var p2 := Next(p1, es[1], ttl);
    var p3 := Next(p2, es[2], ttl);
    RunFour(start, es, ttl);
    assert p2.m == map[c := Cached(u1, 0, start)];
    assert [(c, u2)][..0] == [];
    assert p3.plain.db[c] == Val(0, start, u2);
  }

  lemma RunFour(start: int, es: seq<Event>, ttl: int)
    requires |es| == 4
    ensures Run(start, es, ttl) == Next(Next(Next(Next(Run(start, [], ttl), es[0], ttl), es[1], ttl), es[2], ttl),
      es[3], ttl)
  {
    assert es[..3][..2] == es[..2] && es[..2][..1] == es[..1] && es[..1][..0] == [];
    assert Run(start, es[..1], ttl) == Next(Run(start, [], ttl), es[0], ttl);
    assert Run(start, es[..2], ttl) == Next(Run(start, es[..1], ttl), es[1], ttl);
    assert Run(start, es[..3], ttl) == Next(Run(start, es[..2], ttl), es[2], ttl);
  }

  // ---- an update's time to live ----

  lemma {:induction false} ClockRuns(start: int, es: seq<Event>, ttl: int)
    ensures Run(start, es, ttl).now >= start
  {
    if es != [] {
      ClockRuns(start, es[..|es| - 1], ttl);
    }
  }

  /** In every run: after a successful update that brings a time to live, a lookup `wait`
      milliseconds later serves the new url if and only if less than that time has passed, so with a
      time to live of zero or less the link has expired at once. An update without one keeps the
      old expiry. (KvNodes.UpdatedServedIff is the same statement about the KV backend, where a time
      to live of zero or less means never.) */
  lemma UpdatedServedIff(start: int, es: seq<Event>, ttl: int, c: Code, u: bytes, uttl: int, hasTtl: bool,
                         before: nat, wait: nat, victims: set<Code>)
    requires start > 0
    requires RowAt(Run(start, es, ttl).cached.db, c, Run(start, es, ttl).now + before).Some?
    ensures var p := Run(start, es, ttl);
            var p1 := Next(p, Event(before, Update(c, u, uttl, hasTtl)), ttl);
            var p2 := Next(p1, Event(wait, Resolve(c, victims)), ttl);
            |p2.saidCached| >= 2 && p2.saidCached[|p2.saidCached| - 2] == Ok(true) &&
            p2.saidCached[|p2.saidCached| - 1] ==
              Url(if (if hasTtl then wait < uttl else !Dead(p.cached.db[c].e, p2.now)) then Some(u) else None)
  {
    ClockRuns(start, es, ttl);
  }
}
