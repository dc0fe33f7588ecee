/** The bounded read cache of the KV and Rocks backends. */
module Cache {
  import opened Bytes

  type Code = bytes

  /** url, expiry (0 = never), and when it was cached. */
  datatype Cached = Cached(u: bytes, e: int, at: int)

  predicate Stale(en: Cached, ttl: int, now: int) {
    ttl > 0 && now - en.at > ttl
  }

  predicate Dead(e: int, now: int) {
    e != 0 && e <= now
  }

  /** What a lookup at `now` answers. */
  function Lookup(m: map<Code, Cached>, c: Code, ttl: int, now: int): Option<(bytes, int)> {
    if c in m && !Stale(m[c], ttl, now) && !Dead(m[c].e, now) then Some((m[c].u, m[c].e)) else None
  }

  /** A lookup forgets an entry it finds stale; an expired one stays. */
  function AfterLookup(m: map<Code, Cached>, c: Code, ttl: int, now: int): map<Code, Cached> {
    if c in m && Stale(m[c], ttl, now) then m - {c} else m
  }

  predicate NoDuplicates(s: seq<Code>) {
    forall j, k :: 0 <= j < k < |s| ==> s[j] != s[k]
  }

  function Without(s: seq<Code>, c: Code): (r: seq<Code>)
    ensures forall x :: x in r <==> x in s && x != c
    ensures |r| <= |s|
    ensures NoDuplicates(s) ==> NoDuplicates(r)
  {
    if s == [] then []
    else
      var rest := Without(s[1..], c);
      assert NoDuplicates(s) ==> NoDuplicates(s[1..]) && s[0] !in s[1..];
      if s[0] == c then rest else [s[0]] + rest
  }

  /** One lock shard: the entries, and their codes oldest first. */
  class CacheShard {
    const cap: nat
    const ttl: int
    var entries: map<Code, Cached>
    var order: seq<Code>

    ghost predicate Valid()
      reads this
    {
      cap >= 1 && |order| <= cap && NoDuplicates(order) && forall c :: c in entries <==> c in order
    }

    constructor (total: nat, ttl: int)
      ensures Valid() && entries == map[] && this.ttl == ttl && cap >= 16 && (total >= 4096 ==> cap == total / 256)
    {
      cap := if total / 256 > 16 then total / 256 else 16;
      this.ttl := ttl;
      entries, order := map[], [];
    }

    method Get(c: Code, now: int) returns (r: Option<(bytes, int)>)
      requires Valid()
      modifies this
      ensures Valid()
      ensures r == Lookup(old(entries), c, ttl, now) && entries == AfterLookup(old(entries), c, ttl, now)
      ensures order == if entries == old(entries) then old(order) else Without(old(order), c)
    {
      if c !in entries {
        return None;
      }
      var en := entries[c];
      if ttl > 0 && now - en.at > ttl {
        entries := entries - {c};
        order := Retain(order, c);
        return None;
      }
      if en.e != 0 && en.e <= now {
        return None;
      }
      r := Some((en.u, en.e));
    }

    /** A new code goes to the back; a full shard first drops exactly its oldest entry. A code
        already cached keeps its place. */
    method Put(c: Code, u: bytes, e: int, now: int)
      requires Valid()
      modifies this
      ensures Valid()
      ensures c in old(entries) ==> order == old(order) && entries == old(entries)[c := Cached(u, e, now)]
      ensures c !in old(entries) && |old(order)| < cap ==>
                order == old(order) + [c] && entries == old(entries)[c := Cached(u, e, now)]
      ensures c !in old(entries) && |old(order)| == cap ==>
                order == old(order)[1..] + [c] && entries == (old(entries) - {old(order)[0]})[c := Cached(u, e, now)]
    {
      if c in entries {
        entries := entries[c := Cached(u, e, now)];
        return;
      }
      while |order| >= cap
        invariant NoDuplicates(order) && forall x :: x in entries <==> x in order
        invariant c !in entries
        invariant if |old(order)| < cap then order == old(order) && entries == old(entries)
                  else (|order| == cap && order == old(order) && entries == old(entries)) ||
                       (|order| == cap - 1 && order == old(order)[1..] && entries == old(entries) - {old(order)[0]})
        decreases |order|
      {
        entries := entries - {order[0]};
        order := order[1..];
      }
      order := order + [c];
      entries := entries[c := Cached(u, e, now)];
    }

    method Remove(c: Code)
      requires Valid()
      modifies this
      ensures Valid() && entries == old(entries) - {c} && order == Without(old(order), c)
    {
      entries := entries - {c};
      order := Retain(order, c);
    }
  }

  method Retain(s: seq<Code>, c: Code) returns (r: seq<Code>)
    ensures r == Without(s, c)
  {
    r := [];
    for k := 0 to |s|
      invariant r + Without(s[k..], c) == Without(s, c)
    {
      assert s[k..][1..] == s[k + 1..];
      if s[k] != c {
        r := r + [s[k]];
      }
    }
  }

  // ---- stored values ----

  datatype Val = Val(e: int, c: int, u: bytes)

  const V1: bytes := [118, 49, BAR]

  function EncVal(e: int, c: int, u: bytes): bytes {
    V1 + Decimal(e) + [BAR] + Decimal(c) + [BAR] + u
  }

  lemma ValText(e: int, c: int, u: bytes)
    ensures EncVal(e, c, u) == Ascii("v1|") + Decimal(e) + Ascii("|") + Decimal(c) + Ascii("|") + u
  {
    assert Ascii("v1|") == V1 && Ascii("|") == [BAR];
  }

  function Untagged(v: bytes): bytes {
    if V1 <= v then v[3..] else v
  }

  /** Expiry, creation time and url; the oldest form has no creation time. */
  function DecVal(v: bytes): Option<Val> {
    var b := Untagged(v);
    var p := IndexOf(b, BAR);
    if p == |b| || ParseI64(b[..p]).None? then None else DecRest(ParseI64(b[..p]).value, b[p + 1..])
  }

  function DecRest(e: int, rest: bytes): Option<Val> {
    var q := IndexOf(rest, BAR);
    if q == |rest| then (if ValidUtf8(rest) then Some(Val(e, 0, rest)) else None)
    else if ParseI64(rest[..q]).None? || !ValidUtf8(rest[q + 1..]) then None
    else Some(Val(e, ParseI64(rest[..q]).value, rest[q + 1..]))
  }

  lemma NumberHead(n: int, t: bytes)
    requires IsI64(n)
    ensures var s := Decimal(n) + [BAR] + t;
            var p := IndexOf(s, BAR);
            p < |s| && s[..p] == Decimal(n) && s[p + 1..] == t && ParseI64(s[..p]) == Some(n) && !(V1 <= s)
  {
    DecimalBytes(n);
    IndexOfAt(Decimal(n), BAR, t);
    DecimalRoundTrip(n);
    var s := Decimal(n) + [BAR] + t;
    assert s[..|Decimal(n)|] == Decimal(n) && s[|Decimal(n)| + 1..] == t && s[0] == Decimal(n)[0];
  }

  lemma Untag(b: bytes)
    ensures Untagged(V1 + b) == b
  {
  }

  lemma HeadBack(v: bytes, e: int, t: bytes)
    requires IsI64(e) && Untagged(v) == Decimal(e) + [BAR] + t
    ensures DecVal(v) == DecRest(e, t)
  {
    NumberHead(e, t);
  }

  lemma RestBack(e: int, c: int, u: bytes)
    requires IsI64(c) && ValidUtf8(u)
    ensures DecRest(e, Decimal(c) + [BAR] + u) == Some(Val(e, c, u))
  {
    NumberHead(c, u);
  }

  /** Decoding inverts encoding, whatever bars the url contains. */
  lemma ValRoundTrip(e: int, c: int, u: bytes)
    requires IsI64(e) && IsI64(c) && ValidUtf8(u)
    ensures DecVal(EncVal(e, c, u)) == Some(Val(e, c, u))
  {
    var t := Decimal(c) + [BAR] + u;
    EncValIs(Decimal(e), Decimal(c), u);
    Untag(Decimal(e) + [BAR] + t);
    HeadBack(V1 + (Decimal(e) + [BAR] + t), e, t);
    RestBack(e, c, u);
  }

  lemma EncValIs(e: bytes, c: bytes, u: bytes)
    ensures V1 + e + [BAR] + c + [BAR] + u == V1 + (e + [BAR] + (c + [BAR] + u))
  {
  }

  /** Values written before the tag existed decode the same way. */
  lemma UntaggedRoundTrip(e: int, c: int, u: bytes)
    requires IsI64(e) && IsI64(c) && ValidUtf8(u)
    ensures DecVal(Decimal(e) + [BAR] + Decimal(c) + [BAR] + u) == Some(Val(e, c, u))
  {
    var v, t := Decimal(e) + [BAR] + Decimal(c) + [BAR] + u, Decimal(c) + [BAR] + u;
    assert v == Decimal(e) + [BAR] + t;
    NumberHead(e, t);
    HeadBack(v, e, t);
    RestBack(e, c, u);
  }

  /** The oldest form, expiry and url only, comes back exactly when the url has no bar. */
  lemma OldestFormIff(e: int, u: bytes)
    requires IsI64(e) && ValidUtf8(u)
    ensures DecVal(Decimal(e) + [BAR] + u) == Some(Val(e, 0, u)) <==> BAR !in u
  {
    NumberHead(e, u);
    HeadBack(Decimal(e) + [BAR] + u, e, u);
    IndexOfMember(u, BAR);
  }

  lemma {:induction false} IndexOfMember(s: bytes, c: byte)
    ensures IndexOf(s, c) < |s| <==> c in s
  {
    if s != [] && s[0] != c {
      IndexOfMember(s[1..], c);
    }
  }

  // ---- the disk engine's expiry filter ----

  /** Does a disk compaction at `now` drop this value? It reads the text before the first bar as
      the expiry, without looking for the version tag. */
  predicate FilterDrops(v: bytes, now: int) {
    var p := IndexOf(v, BAR);
    ValidUtf8(v) && p < |v| && ParseI64(v[..p]).Some? && Dead(ParseI64(v[..p]).value, now)
  }

  lemma NotANumber(t: bytes)
    requires t != [] && t[0] > 57
    ensures ParseI64(t).None?
  {
    assert !IsDigit(t[0]);
  }

  /** The text before the first bar of a tagged value is the tag, which is no number. */
  lemma TagIsNoNumber(v: bytes)
    requires V1 <= v
    ensures IndexOf(v, BAR) == 2 && ParseI64(v[..2]).None?
  {
    assert v == [118, 49] + [BAR] + v[3..];
    IndexOfAt([118, 49], BAR, v[3..]);
    NotANumber(v[..2]);
  }

  /** What the filter drops is not served any more, now or later. */
  lemma DroppedIsDead(v: bytes, now: int, later: int)
    requires FilterDrops(v, now) && now <= later
    ensures DecVal(v).Some? ==> Dead(DecVal(v).value.e, later)
  {
    if V1 <= v {
      TagIsNoNumber(v);
    }
  }

  /** The filter never drops a value in the current format, however long it has been expired. */
  lemma FilterKeepsTagged(e: int, c: int, u: bytes, now: int)
    ensures !FilterDrops(EncVal(e, c, u), now)
  {
    assert V1 <= EncVal(e, c, u);
    TagIsNoNumber(EncVal(e, c, u));
  }

  /** On the older formats it drops exactly the expired ones. */
  lemma FilterDropsUntagged(e: int, t: bytes, now: int)
    requires IsI64(e) && ValidUtf8(Decimal(e) + [BAR] + t)
    ensures FilterDrops(Decimal(e) + [BAR] + t, now) <==> Dead(e, now)
  {
    NumberHead(e, t);
  }
}
