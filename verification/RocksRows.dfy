/** What callers of the embedded-database backend see of one code over whole runs: a created link is
    served for its time to live, a removed one never again, and every hit is counted. */
module RocksRows {
  import opened Bytes
  import opened Cache
  import opened Sums
  import opened Rocks

  function Last(answers: seq<Answer>): Answer {
    if answers == [] then Silent else answers[|answers| - 1]
  }

  lemma RunNext(start: int, es: seq<Event>, e: Event, ttl: int)
    ensures Run(start, es + [e], ttl) == Next(Run(start, es, ttl), e, ttl)
  {
    assert (es + [e])[..|es|] == es;
  }

  // ---- events and one code ----

  predicate InBatch(links: seq<(Code, bytes)>, c: Code) {
    exists x :: 0 <= x < |links| && links[x].0 == c
  }

  /** The event cannot bring a row of `c` into being. */
  predicate MakesNone(a: Act, c: Code) {
    match a
    case Create(b, _, _) => b != c
    case Batch(links, _) => !InBatch(links, c)
    case _ => true
  }

  /** Nor can it change or delete one that is alive. */
  predicate LeavesBe(a: Act, c: Code) {
    MakesNone(a, c) && (a.Update? || a.Remove? ==> a.c != c)
  }

  predicate AllMakeNone(es: seq<Event>, c: Code) {
    forall x :: 0 <= x < |es| ==> MakesNone(es[x].act, c)
  }

  predicate AllLeaveBe(es: seq<Event>, c: Code) {
    forall x :: 0 <= x < |es| ==> LeavesBe(es[x].act, c)
  }

  lemma {:induction false} NotWritten(links: seq<(Code, bytes)>, c: Code)
    requires !InBatch(links, c)
    ensures Written(links, c) == None
  {
    if links != [] {
      assert forall x :: 0 <= x < |links| - 1 ==> links[..|links| - 1][x] == links[x];
      NotWritten(links[..|links| - 1], c);
    }
  }

  // ---- a removed link ----

  /** Neither stored nor cached. */
  predicate Gone(d: Disk, m: Entries, c: Code) {
    c !in d.db && c !in m
  }

  lemma PlainGone(d: Disk, a: Act, now: int, c: Code)
    requires c !in d.db && MakesNone(a, c)
    ensures c !in Plain(d, a, now).0.db
  {
    if a.Batch? {
      NotWritten(a.links, c);
      BatchWrites(d.db, a.links, ExpiryOf(now, a.ttl), now, c);
    }
  }

  function ExpiryOf(now: int, ttl: int): int {
    if ttl > 0 then now + ttl else 0
  }

  lemma CachedGone(d: Disk, m: Entries, a: Act, ttl: int, now: int, c: Code)
    requires Gone(d, m, c) && MakesNone(a, c)
    ensures var (d', m', _) := WithCache(d, m, a, ttl, now); Gone(d', m', c)
  {
    PlainGone(d, a, now, c);
  }

  lemma NextGone(p: Pair, e: Event, ttl: int, c: Code)
    requires MakesNone(e.act, c)
    ensures c !in p.plain.db ==> c !in Next(p, e, ttl).plain.db
    ensures Gone(p.cached, p.m, c) ==> Gone(Next(p, e, ttl).cached, Next(p, e, ttl).m, c)
  {
    if c !in p.plain.db {
      PlainGone(p.plain, e.act, p.now + e.wait, c);
    }
    if Gone(p.cached, p.m, c) {
      CachedGone(p.cached, p.m, e.act, ttl, p.now + e.wait, c);
    }
  }

  lemma {:induction false} StaysGone(start: int, es: seq<Event>, later: seq<Event>, ttl: int, c: Code)
    requires AllMakeNone(later, c)
    ensures c !in Run(start, es, ttl).plain.db ==> c !in Run(start, es + later, ttl).plain.db
    ensures Gone(Run(start, es, ttl).cached, Run(start, es, ttl).m, c) ==>
            Gone(Run(start, es + later, ttl).cached, Run(start, es + later, ttl).m, c)
  {
    if later == [] {
      assert es + later == es;
    } else {
      var front, e := later[..|later| - 1], later[|later| - 1];
      assert es + later == (es + front) + [e];
      RunNext(start, es + front, e, ttl);
      StaysGone(start, es, front, ttl, c);
      NextGone(Run(start, es + front, ttl), e, ttl, c);
    }
  }

  /** A removal succeeds exactly when an unexpired row was there, and no other row changes. */
  lemma RemoveAnswers(start: int, es: seq<Event>, before: nat, c: Code, ttl: int)
    ensures var p, q := Run(start, es, ttl), Run(start, es + [Event(before, Remove(c))], ttl);
            (Last(q.said) == Ok(true) <==> c in p.plain.db && (p.plain.db[c].e == 0 || q.now < p.plain.db[c].e)) &&
            (Last(q.saidCached) == Ok(true) <==>
             c in p.cached.db && (p.cached.db[c].e == 0 || q.now < p.cached.db[c].e)) &&
            (forall b :: b != c ==> (b in q.plain.db <==> b in p.plain.db) &&
                                    (b in p.plain.db ==> q.plain.db[b] == p.plain.db[b])) &&
            (forall b :: b != c ==> (b in q.cached.db <==> b in p.cached.db) &&
                                    (b in p.cached.db ==> q.cached.db[b] == p.cached.db[b]))
  {
    RunNext(start, es, Event(before, Remove(c)), ttl);
  }

  /** In every run: once a removal of a link succeeded, no lookup finds it until it is created again,
      whatever else happens, with the cache and without it. */
  lemma RemovedIsGone(start: int, es: seq<Event>, before: nat, c: Code, later: seq<Event>, wait: nat,
      victims: set<Code>, ttl: int)
    requires AllMakeNone(later, c)
    ensures var removed := es + [Event(before, Remove(c))];
            var q := Run(start, removed, ttl);
            var r := Run(start, removed + later + [Event(wait, Resolve(c, victims))], ttl);
            (Last(q.said) == Ok(true) ==> Last(r.said) == Url(None)) &&
            (Last(q.saidCached) == Ok(true) ==> Last(r.saidCached) == Url(None))
  {
    var removed := es + [Event(before, Remove(c))];
    RunNext(start, es, Event(before, Remove(c)), ttl);
    StaysGone(start, removed, later, ttl, c);
    RunNext(start, removed + later, Event(wait, Resolve(c, victims)), ttl);
  }

  // ---- a created link ----

  /** The row is as it was written, unless it has expired and been dropped. */
  predicate Kept(db: map<Code, Val>, c: Code, v: Val, now: int) {
    if c in db then db[c] == v else v.e != 0 && v.e <= now
  }

  lemma KeptStep(d: Disk, a: Act, now: int, later: int, c: Code, v: Val)
    requires Kept(d.db, c, v, now) && LeavesBe(a, c) && now <= later
    ensures Kept(Plain(d, a, later).0.db, c, v, later)
  {
    if a.Batch? {
      NotWritten(a.links, c);
      BatchWrites(d.db, a.links, ExpiryOf(later, a.ttl), later, c);
    }
  }

  lemma {:induction false} StaysKept(start: int, es: seq<Event>, later: seq<Event>, ttl: int, c: Code, v: Val)
    requires Kept(Run(start, es, ttl).plain.db, c, v, Run(start, es, ttl).now) && AllLeaveBe(later, c)
    ensures Kept(Run(start, es + later, ttl).plain.db, c, v, Run(start, es + later, ttl).now)
    ensures Run(start, es, ttl).now <= Run(start, es + later, ttl).now
  {
    if later == [] {
      assert es + later == es;
    } else {
      var front, e := later[..|later| - 1], later[|later| - 1];
      assert es + later == (es + front) + [e];
      RunNext(start, es + front, e, ttl);
      StaysKept(start, es, front, ttl, c, v);
      var p := Run(start, es + front, ttl);
      KeptStep(p.plain, e.act, p.now, p.now + e.wait, c, v);
    }
  }

  /** What a lookup answers of a row kept since. */
  lemma KeptServes(start: int, es: seq<Event>, later: seq<Event>, wait: nat, victims: set<Code>, ttl: int,
      c: Code, v: Val)
    requires Kept(Run(start, es, ttl).plain.db, c, v, Run(start, es, ttl).now) && AllLeaveBe(later, c)
    ensures var r := Run(start, es + later + [Event(wait, Resolve(c, victims))], ttl);
            var answer := Url(if v.e == 0 || r.now < v.e then Some(v.u) else None);
            Last(r.said) == answer && (!r.masked ==> Last(r.saidCached) == answer) && Run(start, es, ttl).now <= r.now
  {
    StaysKept(start, es, later, ttl, c, v);
    RunNext(start, es + later, Event(wait, Resolve(c, victims)), ttl);
    var r := Run(start, es + later + [Event(wait, Resolve(c, victims))], ttl);
    if !r.masked {
      CacheIsInvisible(start, es + later + [Event(wait, Resolve(c, victims))], ttl);
    }
  }

  /** In every run: a creation succeeds exactly when no row is stored, and then the link is served for its
      time to live, or for ever when that is not positive, until somebody changes it. */
  lemma CreatedIsServed(start: int, es: seq<Event>, before: nat, c: Code, u: bytes, uttl: int,
      later: seq<Event>, wait: nat, victims: set<Code>, ttl: int)
    requires start > 0 && AllLeaveBe(later, c)
    ensures var created := es + [Event(before, Create(c, u, uttl))];
            var p, q := Run(start, es, ttl), Run(start, created, ttl);
            var r := Run(start, created + later + [Event(wait, Resolve(c, victims))], ttl);
            var answer := Url(if uttl <= 0 || r.now - q.now < uttl then Some(u) else None);
            (Last(q.said) == Ok(true) <==> c !in p.plain.db) &&
            (Last(q.said) == Ok(true) ==> Last(r.said) == answer && (!r.masked ==> Last(r.saidCached) == answer))
  {
    var created := es + [Event(before, Create(c, u, uttl))];
    RunNext(start, es, Event(before, Create(c, u, uttl)), ttl);
    ClockRuns(start, es, ttl);
    var q := Run(start, created, ttl);
    if Last(q.said) == Ok(true) {
      KeptServes(start, created, later, wait, victims, ttl, c, Val(ExpiryOf(q.now, uttl), q.now, u));
    }
  }

  lemma {:induction false} LastWritten(links: seq<(Code, bytes)>, c: Code, u: bytes, x: nat)
    requires x < |links| && links[x] == (c, u) && forall y :: x < y < |links| ==> links[y].0 != c
    ensures Written(links, c) == Some(u)
  {
    if x < |links| - 1 {
      LastWritten(links[..|links| - 1], c, u, x);
    }
  }

  /** In every run: after a bulk create each code is served with the last url the batch has for it, for
      the batch's time to live, whatever was stored before. */
  lemma BatchIsServed(start: int, es: seq<Event>, before: nat, links: seq<(Code, bytes)>, uttl: int, x: nat,
      later: seq<Event>, wait: nat, victims: set<Code>, ttl: int)
    requires start > 0 && x < |links| && (forall y :: x < y < |links| ==> links[y].0 != links[x].0)
    requires AllLeaveBe(later, links[x].0)
    ensures var written := es + [Event(before, Batch(links, uttl))];
            var q := Run(start, written, ttl);
            var r := Run(start, written + later + [Event(wait, Resolve(links[x].0, victims))], ttl);
            var answer := Url(if uttl <= 0 || r.now - q.now < uttl then Some(links[x].1) else None);
            Last(r.said) == answer && (!r.masked ==> Last(r.saidCached) == answer)
  {
    var written := es + [Event(before, Batch(links, uttl))];
    RunNext(start, es, Event(before, Batch(links, uttl)), ttl);
    ClockRuns(start, es, ttl);
    var p, q := Run(start, es, ttl), Run(start, written, ttl);
    var (c, u) := links[x];
    LastWritten(links, c, u, x);
    BatchWrites(p.plain.db, links, ExpiryOf(q.now, uttl), q.now, c);
    KeptServes(start, written, later, wait, victims, ttl, c, Val(ExpiryOf(q.now, uttl), q.now, u));
  }

  // ---- hits ----

  /** The lookups of `c` among `es` that got a url. */
  function Served(es: seq<Event>, said: seq<Answer>, c: Code): nat
    requires |es| == |said|
  {
    if es == [] then 0
    else
      var n := |es| - 1;
      Served(es[..n], said[..n], c) +
        if es[n].act.Resolve? && es[n].act.c == c && said[n].Url? && said[n].u.Some? then 1 else 0
  }

  function Hit(a: Act, r: Answer, c: Code): nat {
    if a.Resolve? && a.c == c && r.Url? && r.u.Some? then 1 else 0
  }

  lemma PlainCounts(d: Disk, a: Act, now: int, c: Code)
    ensures var (d', r) := Plain(d, a, now); DirtyOf(d'.dirty, c) == DirtyOf(d.dirty, c) + Hit(a, r, c)
  {
  }

  lemma CachedCounts(d: Disk, m: Entries, a: Act, ttl: int, now: int, c: Code)
    ensures var (d', m', r) := WithCache(d, m, a, ttl, now); DirtyOf(d'.dirty, c) == DirtyOf(d.dirty, c) + Hit(a, r, c)
  {
    PlainCounts(d, a, now, c);
  }

  /** One more event, its answer without the cache, and what it counts. */
  lemma NextPlain(p: Pair, e: Event, ttl: int, c: Code) returns (r: Answer)
    ensures var q := Next(p, e, ttl);
            q.said == p.said + [r] && DirtyOf(q.plain.dirty, c) == DirtyOf(p.plain.dirty, c) + Hit(e.act, r, c)
  {
    PlainCounts(p.plain, e.act, p.now + e.wait, c);
    r := Plain(p.plain, e.act, p.now + e.wait).1;
  }

  /** The same with the cache. */
  lemma NextCached(p: Pair, e: Event, ttl: int, c: Code) returns (r: Answer)
    ensures var q := Next(p, e, ttl);
            q.saidCached == p.saidCached + [r] &&
            DirtyOf(q.cached.dirty, c) == DirtyOf(p.cached.dirty, c) + Hit(e.act, r, c)
  {
    var (d, m, answer) := WithCache(p.cached, p.m, e.act, ttl, p.now + e.wait);
    CachedCounts(p.cached, p.m, e.act, ttl, p.now + e.wait, c);
    CachedIs(p, e, ttl, d, m, answer);
    r := answer;
  }

  lemma CachedIs(p: Pair, e: Event, ttl: int, d: Disk, m: Entries, r: Answer)
    requires WithCache(p.cached, p.m, e.act, ttl, p.now + e.wait) == (d, m, r)
    ensures Next(p, e, ttl).cached == d && Next(p, e, ttl).saidCached == p.saidCached + [r]
  {
  }

  lemma ServedNext(es: seq<Event>, said: seq<Answer>, e: Event, r: Answer, c: Code)
    requires |es| == |said|
    ensures Served(es + [e], said + [r], c) == Served(es, said, c) + Hit(e.act, r, c)
  {
    assert (es + [e])[..|es|] == es && (said + [r])[..|said|] == said;
  }

  /** In every run each backend has counted exactly the lookups it answered with a url. */
  lemma {:induction false} HitsCounted(start: int, es: seq<Event>, ttl: int, c: Code)
    ensures var p := Run(start, es, ttl);
            |p.said| == |es| == |p.saidCached| &&
            DirtyOf(p.plain.dirty, c) == Served(es, p.said, c) &&
            DirtyOf(p.cached.dirty, c) == Served(es, p.saidCached, c)
  {
    if es != [] {
      var front, e := es[..|es| - 1], es[|es| - 1];
      var p := Run(start, front, ttl);
      assert front + [e] == es;
      HitsCounted(start, front, ttl, c);
      var r := NextPlain(p, e, ttl, c);
      var r' := NextCached(p, e, ttl, c);
      ServedNext(front, p.said, e, r, c);
      ServedNext(front, p.saidCached, e, r', c);
    }
  }
}
