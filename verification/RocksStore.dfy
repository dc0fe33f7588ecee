/** The embedded-database backend as the object the program runs, on stored bytes: each operation is
    the value-level operation of module Rocks on the decoded rows. */
module RocksStores {
  import opened Bytes
  import opened Cache
  import opened Sums
  import opened Times
  import R = Rocks

  /** `rows` is what the bytes of `db` stand for. */
  ghost predicate Decodes(db: map<Code, bytes>, rows: map<Code, Val>) {
    db.Keys == rows.Keys && forall c {:trigger db[c]} :: c in db && c in rows ==> DecVal(db[c]) == Some(rows[c])
  }

  lemma DecodesPut(db: map<Code, bytes>, rows: map<Code, Val>, c: Code, v: Val)
    requires Decodes(db, rows) && IsI64(v.e) && IsI64(v.c) && ValidUtf8(v.u)
    ensures Decodes(db[c := EncVal(v.e, v.c, v.u)], rows[c := v])
  {
    ValRoundTrip(v.e, v.c, v.u);
  }

  predicate Fits(v: Val) {
    IsI64(v.e) && IsI64(v.c)
  }

  /** The link table: stored bytes, and the rows they stand for. */
  class LinkTable {
    var db: map<Code, bytes>
    ghost var rows: map<Code, Val>

    ghost predicate Valid()
      reads this
    {
      Decodes(db, rows) && forall c :: c in rows ==> Fits(rows[c])
    }

    constructor ()
      ensures Valid() && rows == map[]
    {
      db, rows := map[], map[];
    }

    method Get(c: Code) returns (r: Option<Val>)
      requires Valid()
      ensures r == if c in rows then Some(rows[c]) else None
      ensures r.Some? ==> Fits(r.value)
    {
      if c !in db {
        return None;
      }
      r := DecVal(db[c]);
    }

    method Put(c: Code, e: int, at: int, u: bytes)
      requires Valid() && IsI64(e) && IsI64(at) && ValidUtf8(u)
      modifies this
      ensures Valid() && rows == old(rows)[c := Val(e, at, u)]
    {
      DecodesPut(db, rows, c, Val(e, at, u));
      db := db[c := EncVal(e, at, u)];
      rows := rows[c := Val(e, at, u)];
    }

    method Delete(c: Code)
      requires Valid()
      modifies this
      ensures Valid() && rows == old(rows) - {c}
    {
      db := db - {c};
      rows := rows - {c};
    }

    /** The database's own compaction applies the expiry filter to one key: only dead rows go. */
    method Filter(c: Code, now: int)
      requires Valid()
      modifies this
      ensures Valid() && (rows == old(rows) || rows == R.Reaped(old(rows), c, now))
    {
      if c in db && FilterDrops(db[c], now) {
        DroppedIsDead(db[c], now, now);
        db := db - {c};
        rows := rows - {c};
      }
    }
  }

  lemma UpdateIs(d: R.Disk, c: Code, u: bytes, ttl: int, hasTtl: bool, now: int, v: Val, e: int)
    requires R.RowAt(d.db, c, now) == Some(v) && e == R.UpdatedExpiry(now, ttl, hasTtl, v.e)
    ensures R.DoUpdate(d, c, u, ttl, hasTtl, now) == (d.(db := d.db[c := Val(e, v.c, u)]), R.Ok(true))
  {
  }

  class RocksStore {
    const cache: CacheShard
    const table: LinkTable
    var dirty: map<Code, int>

    ghost predicate Valid()
      reads this, cache, table
    {
      cache.Valid() && table.Valid()
    }

    ghost function State(): R.Disk
      reads this, table
    {
      R.Disk(table.rows, dirty)
    }

    constructor (cacheEntries: nat, ttl: int)
      ensures Valid() && fresh(cache) && fresh(table)
      ensures State() == R.EMPTY_DISK && cache.entries == map[] && cache.ttl == ttl
    {
      cache := new CacheShard(if cacheEntries < 1 then 1 else cacheEntries, ttl);
      table := new LinkTable();
      dirty := map[];
    }

    method Bump(c: Code)
      modifies this`dirty
      ensures dirty == Dirtied(old(dirty), c)
    {
      dirty := dirty[c := (if c in dirty then dirty[c] else 0) + 1];
    }

    /** A stored row, deleted instead of returned once it has expired. */
    method Row(c: Code, now: int) returns (r: Option<Val>)
      requires Valid()
      modifies table
      ensures Valid() && r == R.RowAt(old(table.rows), c, now) && table.rows == R.Reaped(old(table.rows), c, now)
      ensures r.Some? ==> Fits(r.value)
    {
      r := table.Get(c);
      if r.Some? && r.value.e != 0 && r.value.e <= now {
        table.Delete(c);
        return None;
      }
    }

    /** Caches a row just read, dropping the oldest entry of a full shard. */
    method Remember(c: Code, u: bytes, e: int, now: int) returns (ghost victims: set<Code>)
      requires cache.Valid()
      modifies cache
      ensures cache.Valid() && cache.entries == (old(cache.entries) - victims)[c := Cached(u, e, now)]
    {
      victims := {};
      if c !in cache.entries && |cache.order| == cache.cap {
        victims := {cache.order[0]};
      }
      assert cache.entries - {} == cache.entries;
      cache.Put(c, u, e, now);
    }

    method Resolve(c: Code, now: int) returns (u: Option<bytes>, ghost victims: set<Code>)
      requires Valid()
      modifies this`dirty, cache, table
      ensures Valid()
      ensures (State(), cache.entries, R.Url(u)) ==
              R.CachedResolve(old(State()), old(cache.entries), c, victims, cache.ttl, now)
    {
      victims := {};
      var hit := cache.Get(c, now);
      if hit.Some? {
        Bump(c);
        return Some(hit.value.0), victims;
      }
      var r := Row(c, now);
      if r.None? {
        return None, victims;
      }
      victims := Remember(c, r.value.u, r.value.e, now);
      Bump(c);
      u := Some(r.value.u);
    }

    /** Insert if absent, whatever the stored row's expiry says. */
    method PutNx(c: Code, u: bytes, ttl: int, now: int) returns (ok: bool)
      requires Valid() && ValidUtf8(u) && IsI64(now) && IsI64(ExpiryAt(now, ttl))
      modifies table
      ensures Valid() && (State(), R.Ok(ok)) == R.DoCreate(old(State()), c, u, ttl, now)
    {
      var r := table.Get(c);
      if r.Some? {
        return false;
      }
      table.Put(c, if ttl > 0 then now + ttl else 0, now, u);
      ok := true;
    }

    /** A bulk create writes every row without looking. */
    method ShortenMany(links: seq<(Code, bytes)>, ttl: int, now: int)
      requires Valid() && IsI64(now) && IsI64(ExpiryAt(now, ttl))
      requires forall k :: 0 <= k < |links| ==> ValidUtf8(links[k].1)
      modifies table
      ensures Valid() && table.rows == R.WriteBatch(old(table.rows), links, ExpiryAt(now, ttl), now)
    {
      var e := if ttl > 0 then now + ttl else 0;
      for k := 0 to |links|
        invariant Valid() && table.rows == R.WriteBatch(old(table.rows), links[..k], e, now)
      {
        assert links[..k + 1][..k] == links[..k];
        table.Put(links[k].0, e, now, links[k].1);
      }
      assert links[..|links|] == links;
    }

    method UpdateRow(c: Code, u: bytes, ttl: int, hasTtl: bool, now: int) returns (ok: bool)
      requires Valid() && ValidUtf8(u) && IsI64(now) && (hasTtl ==> IsI64(now + if ttl > 0 then ttl else 0))
      modifies table
      ensures Valid() && (State(), R.Ok(ok)) == R.DoUpdate(old(State()), c, u, ttl, hasTtl, now)
    {
      ghost var before := State();
      var r := Row(c, now);
      if r.None? {
        assert State() == before.(db := R.Reaped(before.db, c, now));
        return false;
      }
      var e := if hasTtl then now + (if ttl > 0 then ttl else 0) else r.value.e;
      UpdateIs(before, c, u, ttl, hasTtl, now, r.value, e);
      PutOver(c, e, r.value.c, u, before);
      ok := true;
    }

    method PutOver(c: Code, e: int, at: int, u: bytes, ghost before: R.Disk)
      requires Valid() && ValidUtf8(u) && IsI64(e) && IsI64(at) && State() == before
      modifies table
      ensures Valid() && State() == before.(db := before.db[c := Val(e, at, u)])
    {
      table.Put(c, e, at, u);
    }

    method Update(c: Code, u: bytes, ttl: int, hasTtl: bool, now: int) returns (ok: bool)
      requires Valid() && ValidUtf8(u) && IsI64(now) && (hasTtl ==> IsI64(now + if ttl > 0 then ttl else 0))
      modifies cache, table
      ensures Valid() && (State(), R.Ok(ok)) == R.DoUpdate(old(State()), c, u, ttl, hasTtl, now)
      ensures cache.entries == if ok then old(cache.entries) - {c} else old(cache.entries)
    {
      ok := UpdateRow(c, u, ttl, hasTtl, now);
      if ok {
        cache.Remove(c);
      }
    }

    method Remove(c: Code, now: int) returns (ok: bool)
      requires Valid()
      modifies cache, table
      ensures Valid() && (State(), R.Ok(ok)) == R.DoRemove(old(State()), c, now)
      ensures cache.entries == if ok then old(cache.entries) - {c} else old(cache.entries)
    {
      var r := Row(c, now);
      if r.None? {
        return false;
      }
      table.Delete(c);
      cache.Remove(c);
      ok := true;
    }
  }
}
