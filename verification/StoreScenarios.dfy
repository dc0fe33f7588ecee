/** What a caller of the store sees: operations and then a lookup, on the same store, after a restart
    from its files, or on a sibling that reads its log. The statements speak of inputs and answers only. */
module StoreScenarios {
  import opened Bytes
  import opened Codec
  import opened Aof
  import opened Engine
  import opened LocalStores

  // ---- answers ----

  /** The answer a row gives at `now`. */
  function RowAnswer(row: Option<LinkRow>, now: int): Option<bytes> {
    match row
    case None => None
    case Some(v) => if v.e == 0 || now < v.e then Some(v.u) else None
  }

  lemma ServedRow(m: Mem, c: Code, now: int)
    ensures Served(m, c, now) == RowAnswer(ViewOf(m, c).row, now)
  {
  }

  /** What a lookup answers once `ops` are folded in. */
  lemma FoldServes(m: Mem, me: int, ops: seq<LogOp>, victims: seq<Code>, c: Code, now: int)
    requires |victims| == |ops|
    ensures Served(Fold(m, me, ops, victims), c, now) == RowAnswer(RowFold(ViewOf(m, c).row, ops, c), now)
  {
    FoldRow(m, me, ops, victims, c);
    ServedRow(Fold(m, me, ops, victims), c, now);
  }

  /** The last record that is not a hit decides. */
  lemma LastDecides(row: Option<LinkRow>, before: seq<LogOp>, op: LogOp, hits: seq<LogOp>, c: Code)
    requires op.Code() == c && !op.Hit? && Silent(hits, c)
    ensures RowFold(row, before + ([op] + hits), c) == RowStep(None, op, c)
  {
    assert before + ([op] + hits) == (before + [op]) + hits;
    RowFoldAppend(row, before + [op], hits, c);
    RowFoldOne(row, before, op, c);
    SilentRow(RowFold(row, before + [op], c), hits, c);
  }

  /** One record of `c` among `ops`. */
  lemma {:induction false} OneRecord(row: Option<LinkRow>, ops: seq<LogOp>, c: Code, p: nat)
    requires p < |ops| && ops[p].Code() == c && !ops[p].Hit?
    requires forall x :: 0 <= x < |ops| && x != p ==> ops[x].Code() != c
    ensures RowFold(row, ops, c) == RowStep(None, ops[p], c)
  {
    assert ops == ops[..p] + ([ops[p]] + ops[p + 1..]);
    LastDecides(row, ops[..p], ops[p], ops[p + 1..], c);
  }

  // ---- reads that bring nothing ----

  lemma NothingRead(rs: map<int, Reader>, i: int, files: map<int, bytes>)
    requires FileOf(files, i) == []
    ensures Delivered(rs, i, files) == []
  {
    var r := At(rs, i);
    var none: bytes := [];
    assert ResumeAt(r, none).offset == 0 && none[0..0] == [];
    assert Caught(r, none).1 == [];
  }

  lemma CaughtUpReads(rs: map<int, Reader>, i: int, files: map<int, bytes>)
    requires At(rs, i).offset == |FileOf(files, i)|
    ensures Delivered(rs, i, files) == []
  {
    NothingNew(At(rs, i), FileOf(files, i));
  }

  lemma {:induction false} PolledNothing(order: seq<int>, rs: map<int, Reader>, files: map<int, bytes>)
    requires forall i :: i in order ==> Delivered(rs, i, files) == []
    ensures Polled(order, rs, files) == []
  {
    if order != [] {
      assert order[|order| - 1] in order;
      PolledNothing(order[..|order| - 1], rs, files);
    }
  }

  /** A poll that finds something in one log only. */
  lemma {:induction false} PolledOnly(order: seq<int>, rs: map<int, Reader>, files: map<int, bytes>, from: int)
    requires from in order && forall j, k :: 0 <= j < k < |order| ==> order[j] != order[k]
    requires forall i :: i in order && i != from ==> Delivered(rs, i, files) == []
    ensures Polled(order, rs, files) == Delivered(rs, from, files)
  {
    var n := |order| - 1;
    if order[n] == from {
      forall i | i in order[..n] ensures Delivered(rs, i, files) == [] {
        assert i != from;
      }
      PolledNothing(order[..n], rs, files);
    } else {
      assert from in order[..n];
      PolledOnly(order[..n], rs, files, from);
    }
  }

  // ---- looking up ----

  /** A lookup while no file brings anything new. */
  method QuietLookup(s: LocalStore, c: Code, now: int, files: map<int, bytes>) returns (r: Option<bytes>)
    requires s.Valid() && forall i :: Delivered(s.readers, i, files) == []
    modifies s`index, s`stray, s`readers, s`lastPoll, s`dirty
    ensures s.Valid() && r == RowAnswer(ViewOf(old(s.Memory()), c).row, now)
    ensures s.Memory() == AfterServing(old(s.Memory()), c, now, s.track)
    ensures var v := ViewOf(old(s.Memory()), c);
            ViewOf(s.Memory(), c) == if s.track && r.Some? then v.(h := v.h + 1, oh := v.oh + 1) else v
  {
    ghost var m, rs := s.Memory(), s.readers;
    ghost var order, victims;
    r, order, victims := s.Resolve(c, now, now, [], files);
    PolledNothing(order, rs, files);
    assert Fold(m, s.me, [], victims) == m;
    ServedRow(m, c, now);
  }

  lemma NoFiles(rs: map<int, Reader>)
    ensures forall i :: Delivered(rs, i, map[]) == []
  {
    forall i ensures Delivered(rs, i, map[]) == [] {
      NothingRead(rs, i, map[]);
    }
  }

  /** A lookup counts the hit it serves when hits are tracked, and nothing else changes. */
  method LookupCounts(s: LocalStore, c: Code, now: int) returns (r: Option<bytes>)
    requires s.Valid() && c in s.index
    modifies s`index, s`stray, s`readers, s`lastPoll, s`dirty
    ensures var en := old(s.index)[c];
            var hit := if s.track && r.Some? then 1 else 0;
            r == (if en.e == 0 || now < en.e then Some(en.u) else None) &&
            s.index == old(s.index)[c := en.(h := en.h + hit, oh := en.oh + hit)] && s.readers == old(s.readers) &&
            forall b :: (if b in s.dirty then s.dirty[b] else 0) ==
                        (if b in old(s.dirty) then old(s.dirty)[b] else 0) + if b == c then hit else 0
  {
    ghost var order, victims;
    r, order, victims := s.Resolve(c, now, now, [], map[]);
  }

  // ---- restarting ----

  /** Everything recorded is whole printable records, and so are the hits a flush adds. */
  ghost predicate Whole(s: LocalStore, ops: seq<LogOp>)
    reads s, s.log
  {
    s.Valid() && s.persistent && AllLoggable(ops) && s.Recorded() == EncodeLog(ops) &&
    forall c :: c in s.dirty ==> CodeOk(c) && IsI64(s.dirty[c])
  }

  lemma DrainedAreHits(hits: seq<LogOp>, dirty: map<Code, int>, me: int)
    requires Drains(hits, dirty, me) && 0 <= me < MAX_INSTANCES
    requires forall c :: c in dirty ==> CodeOk(c) && IsI64(dirty[c])
    ensures AllLoggable(hits) && forall c :: Silent(hits, c)
  {
  }

  /** A flush leaves the records, and behind them only hits, in the log file. */
  method Flushed(s: LocalStore, ghost ops: seq<LogOp>) returns (ghost hits: seq<LogOp>)
    requires Whole(s, ops)
    modifies s`dirty, s.log
    ensures s.Valid() && s.log.file == EncodeLog(ops + hits) && AllLoggable(ops + hits) && forall c :: Silent(hits, c)
  {
    hits := s.FlushLocked();
    DrainedAreHits(hits, old(s.dirty), s.me);
    EncodeAppend(ops, hits);
  }

  /** A new process boots from the files of one that is gone. */
  method Restarted(s: LocalStore) returns (t: LocalStore, ghost victims: seq<Code>)
    requires s.Valid()
    ensures fresh(t) && fresh(t.log) && t.Valid() && t.me == s.me && t.readers == map[]
    ensures var ops := FileOps(s.snap) + FileOps(s.log.file);
            |victims| == |ops| && t.Memory() == Fold(EMPTY_MEM, s.me, ops, victims)
  {
    t := new LocalStore(s.me, true, s.track, s.snap, s.log.file);
    victims := t.LoadAll([]);
    assert Flat(SnapshotOps([])) == [];
    var ops := FileOps(s.snap) + FileOps(s.log.file);
    assert ops + [] == ops;
  }

  method RestartThenLookup(s: LocalStore, ghost ops: seq<LogOp>, c: Code, now: int) returns (r: Option<bytes>)
    requires Whole(s, ops)
    modifies s`dirty, s.log
    ensures r == RowAnswer(RowFold(RowFold(None, FileOps(s.snap), c), ops, c), now)
  {
    ghost var hits := Flushed(s, ops);
    LogRoundTrip(ops + hits);
    var t;
    ghost var victims;
    t, victims := Restarted(s);
    NoFiles(t.readers);
    FoldServes(EMPTY_MEM, s.me, FileOps(s.snap) + (ops + hits), victims, c, now);
    ServedRow(t.Memory(), c, now);
    FilesFold(FileOps(s.snap), ops, hits, c);
    r := QuietLookup(t, c, now, map[]);
  }

  lemma FilesFold(snap: seq<LogOp>, ops: seq<LogOp>, hits: seq<LogOp>, c: Code)
    requires Silent(hits, c)
    ensures RowFold(None, snap + (ops + hits), c) == RowFold(RowFold(None, snap, c), ops, c)
  {
    RowFoldAppend(None, snap, ops + hits, c);
    RowFoldAppend(RowFold(None, snap, c), ops, hits, c);
    SilentRow(RowFold(RowFold(None, snap, c), ops, c), hits, c);
  }

  // ---- a sibling reads the log ----

  /** The records a reader has not had yet, when it reads the file to its end. */
  function Unread(r: Reader, before: seq<LogOp>, news: seq<LogOp>): seq<LogOp> {
    (before + news)[Completed(before, r.offset)..]
  }

  lemma UnreadDelivered(rs: map<int, Reader>, from: int, files: map<int, bytes>, before: seq<LogOp>, news: seq<LogOp>)
    requires AllLoggable(before + news) && StandsIn(At(rs, from), EncodeLog(before))
    requires FileOf(files, from) == EncodeLog(before + news)
    ensures Delivered(rs, from, files) == Unread(At(rs, from), before, news)
    ensures Caught(At(rs, from), FileOf(files, from)).0.offset == |FileOf(files, from)|
  {
    UnreadLines(At(rs, from), before, news);
  }

  lemma UnreadLines(r: Reader, before: seq<LogOp>, news: seq<LogOp>)
    requires AllLoggable(before + news) && StandsIn(r, EncodeLog(before))
    ensures var (r', lines) := Caught(r, EncodeLog(before + news));
            DecodeAll(lines) == Unread(r, before, news) && r'.offset == |EncodeLog(before + news)|
  {
    var file := EncodeLog(before + news);
    EncodeAppend(before, news);
    assert r.offset <= |EncodeLog(before)| <= |file|;
    ReadToEnd(r, before, news, |file| - r.offset);
  }

  lemma ReadToEnd(r: Reader, before: seq<LogOp>, news: seq<LogOp>, got: nat)
    requires AllLoggable(before + news) && StandsIn(r, EncodeLog(before))
    requires r.offset + got == |EncodeLog(before + news)|
    ensures var (r', lines) := ReadStep(r, EncodeLog(before + news), got);
            DecodeAll(lines) == Unread(r, before, news) && r'.offset == |EncodeLog(before + news)|
  {
    TailDeliversOps(r, before, news, got);
    AllCompleted(before + news);
    var all := before + news;
    assert all[Completed(before, r.offset)..|all|] == Unread(r, before, news);
  }

  /** What was read is the rest of the old records and all the new ones. */
  lemma UnreadParts(r: Reader, before: seq<LogOp>, news: seq<LogOp>) returns (rest: seq<LogOp>)
    ensures Unread(r, before, news) == rest + news
  {
    rest := before[Completed(before, r.offset)..];
  }

  /** A poll, and then a lookup. */
  method PollThenLookup(t: LocalStore, from: int, file: bytes, ghost before: seq<LogOp>, ghost news: seq<LogOp>,
      c: Code, now: int)
      returns (r: Option<bytes>)
    requires t.Valid() && from != t.me && AllLoggable(before + news) && file == EncodeLog(before + news)
    requires StandsIn(At(t.readers, from), EncodeLog(before))
    modifies t`index, t`stray, t`readers, t`lastPoll, t`dirty
    ensures var row := RowFold(ViewOf(old(t.Memory()), c).row, Unread(At(old(t.readers), from), before, news), c);
            r == RowAnswer(row, now) && ViewOf(t.Memory(), c).row == row
  {
    ghost var m, rs := t.Memory(), t.readers;
    var files := map[from := file];
    ghost var order, victims;
    order, victims := t.Poll([from], files, now);
    OnlyThisFile(rs, from, files);
    PolledOnly(order, rs, files, from);
    UnreadDelivered(rs, from, files, before, news);
    FoldRow(m, t.me, Delivered(rs, from, files), victims, c);
    OnlyThisFile(t.readers, from, files);
    CaughtUpReads(t.readers, from, files);
    r := QuietLookup(t, c, now, files);
  }

  lemma OnlyThisFile(rs: map<int, Reader>, from: int, files: map<int, bytes>)
    requires files.Keys == {from}
    ensures forall i :: i != from ==> Delivered(rs, i, files) == []
  {
    forall i | i != from ensures Delivered(rs, i, files) == [] {
      NothingRead(rs, i, files);
    }
  }

  /** A lookup that misses and finds the code's prefix naming a sibling. */
  method TailingLookup(t: LocalStore, files: map<int, bytes>, c: Code, now: int, later: int) returns (r: Option<bytes>)
    requires t.Valid() && t.persistent && c !in t.index && 0 <= Owner(c) && Owner(c) != t.me
    modifies t`index, t`stray, t`readers, t`lastPoll, t`dirty
    ensures var ops := Delivered(old(t.readers), Owner(c), files);
            r == RowAnswer(RowFold(ViewOf(old(t.Memory()), c).row, ops, c), later)
    ensures Owner(c) in t.readers &&
            t.readers[Owner(c)] == Caught(At(old(t.readers), Owner(c)), FileOf(files, Owner(c))).0
  {
    ghost var m, ops := t.Memory(), Delivered(t.readers, Owner(c), files);
    ghost var order, victims;
    r, order, victims := t.Resolve(c, now, later, [], files);
    FoldServes(m, t.me, ops, victims, c, later);
  }

  method MissThenTail(t: LocalStore, from: int, file: bytes, ghost before: seq<LogOp>, ghost news: seq<LogOp>,
      c: Code, now: int, later: int)
      returns (r: Option<bytes>)
    requires t.Valid() && t.persistent && from != t.me && AllLoggable(before + news) && file == EncodeLog(before + news)
    requires StandsIn(At(t.readers, from), EncodeLog(before)) && c !in t.index && 0 <= Owner(c) == from
    modifies t`index, t`stray, t`readers, t`lastPoll, t`dirty
    ensures r == RowAnswer(RowFold(None, Unread(At(old(t.readers), from), before, news), c), later)
    ensures from in t.readers && t.readers[from].offset == |file|
  {
    UnreadDelivered(t.readers, from, map[from := file], before, news);
    r := TailingLookup(t, map[from := file], c, now, later);
  }

  /** A lookup of an alias that misses when the last poll is 200 milliseconds old. */
  method MissThenPoll(t: LocalStore, from: int, file: bytes, ghost before: seq<LogOp>, ghost news: seq<LogOp>,
      c: Code, now: int, later: int)
      returns (r: Option<bytes>)
    requires t.Valid() && t.persistent && from != t.me && AllLoggable(before + news) && file == EncodeLog(before + news)
    requires StandsIn(At(t.readers, from), EncodeLog(before)) && c !in t.index
    requires c != [] && (Owner(c) < 0 || Owner(c) == t.me) && now - t.lastPoll >= 200
    modifies t`index, t`stray, t`readers, t`lastPoll, t`dirty
    ensures r == RowAnswer(RowFold(None, Unread(At(old(t.readers), from), before, news), c), later)
  {
    ghost var m, rs := t.Memory(), t.readers;
    var files := map[from := file];
    ghost var order, victims;
    r, order, victims := t.Resolve(c, now, later, [from], files);
    OnlyThisFile(rs, from, files);
    PolledOnly(order, rs, files, from);
    UnreadDelivered(rs, from, files, before, news);
    FoldServes(m, t.me, Delivered(rs, from, files), victims, c, later);
  }

  // ---- a link is created ----

  /** What the caller gives and the clock says can be printed. */
  predicate CreateOk(url: bytes, alias: Option<Code>, ttl: int, now: int) {
    ValidUtf8(url) && (alias.Some? ==> CodeOk(alias.value)) && 0 <= now && IsI64(now) && (ttl > 0 ==> IsI64(now + ttl))
  }

  /** A new link is served until its time to live has passed, or for ever without one; the lookup is
      its first hit. */
  method CreateThenLookup(s: LocalStore, url: bytes, alias: Option<Code>, ttl: int, now: int, draws: seq<Draw>,
      later: int)
      returns (m: Minted, r: Option<bytes>)
    requires s.Valid() && CreateOk(url, alias, ttl, now)
    modifies s`index, s`stray, s`readers, s`lastPoll, s`dirty, s.log
    ensures m.Minted? ==> r == if ttl <= 0 || later < now + ttl then Some(url) else None
    ensures m.Minted? ==> var hit := if s.track && r.Some? then 1 else 0;
                          m.code in s.index && s.index[m.code].h == hit && s.index[m.code].oh == hit
  {
    m := s.Shorten(url, alias, ttl, now, draws);
    r := None;
    if m.Minted? {
      r := LookupCounts(s, m.code, later);
    }
  }

  /** Creating is one more record. */
  method Created(s: LocalStore, url: bytes, alias: Option<Code>, ttl: int, now: int, draws: seq<Draw>,
      ghost ops: seq<LogOp>)
      returns (m: Minted, ghost row: LogOp)
    requires Whole(s, ops) && CreateOk(url, alias, ttl, now)
    modifies s`index, s.log
    ensures s.dirty == old(s.dirty) && s.snap == old(s.snap)
    ensures m.Minted? ==> Whole(s, ops + [row]) &&
                          row == Row(m.code, url, now, if ttl > 0 then now + ttl else 0, s.me, 0) &&
                          (if alias.Some? then m.code == alias.value else Owner(m.code) == s.me)
  {
    m := s.Shorten(url, alias, ttl, now, draws);
    row := Del([]);
    if m.Minted? {
      row := Row(m.code, url, now, if ttl > 0 then now + ttl else 0, s.me, 0);
      EncodeAppend(ops, [row]);
      if alias.None? {
        ghost var k :| 0 <= k < |draws| && m.code == GenCode(s.me, draws[k]);
        GeneratedCodeIsOwned(s.me, draws[k]);
      }
    }
  }

  /** The same after a restart from the files. */
  method CreateThenRestart(s: LocalStore, url: bytes, alias: Option<Code>, ttl: int, now: int, draws: seq<Draw>,
      later: int, ghost ops: seq<LogOp>)
      returns (m: Minted, r: Option<bytes>)
    requires Whole(s, ops) && CreateOk(url, alias, ttl, now)
    modifies s`index, s`dirty, s.log
    ensures m.Minted? ==> r == if ttl <= 0 || later < now + ttl then Some(url) else None
  {
    ghost var row;
    m, row := Created(s, url, alias, ttl, now, draws, ops);
    r := None;
    if m.Minted? {
      LastOf(RowFold(None, FileOps(s.snap), m.code), ops, row, m.code);
      r := RestartThenLookup(s, ops + [row], m.code, later);
    }
  }

  lemma LastOf(row: Option<LinkRow>, ops: seq<LogOp>, op: LogOp, c: Code)
    requires op.Code() == c && !op.Hit?
    ensures RowFold(row, ops + [op], c) == RowStep(None, op, c)
  {
    RowFoldOne(row, ops, op, c);
  }

  lemma LastUnread(row: Option<LinkRow>, r: Reader, before: seq<LogOp>, op: LogOp, hits: seq<LogOp>, c: Code)
    requires op.Code() == c && !op.Hit? && Silent(hits, c)
    ensures RowFold(row, Unread(r, before, [op] + hits), c) == RowStep(None, op, c)
  {
    var rest := UnreadParts(r, before, [op] + hits);
    LastDecides(row, rest, op, hits, c);
  }

  /** A record and a flush: the file ends with the record and then hits. */
  method Published(s: LocalStore, ghost ops: seq<LogOp>, ghost op: LogOp) returns (ghost hits: seq<LogOp>)
    requires Whole(s, ops + [op])
    modifies s`dirty, s.log
    ensures s.Valid() && s.log.file == EncodeLog(ops + ([op] + hits)) && AllLoggable(ops + ([op] + hits))
    ensures forall c :: Silent(hits, c)
  {
    hits := Flushed(s, ops + [op]);
    assert (ops + [op]) + hits == ops + ([op] + hits);
  }

  /** A record, a flush, and a sibling that polls: the record is what the sibling knows. */
  method PublishThenPoll(s: LocalStore, t: LocalStore, ghost ops: seq<LogOp>, ghost op: LogOp, c: Code, later: int)
      returns (r: Option<bytes>)
    requires s != t && s.me != t.me && Whole(s, ops + [op]) && op.Code() == c && !op.Hit?
    requires t.Valid() && StandsIn(At(t.readers, s.me), EncodeLog(ops))
    modifies s`dirty, s.log, t`index, t`stray, t`readers, t`lastPoll, t`dirty
    ensures r == RowAnswer(RowStep(None, op, c), later) && ViewOf(t.Memory(), c).row == RowStep(None, op, c)
  {
    ghost var hits := Published(s, ops, op);
    LastUnread(ViewOf(t.Memory(), c).row, At(t.readers, s.me), ops, op, hits, c);
    r := PollThenLookup(t, s.me, s.log.file, ops, [op] + hits, c, later);
  }

  /** The same on a sibling once it has polled, from wherever its reader stood; it also learns the
      creation time and the owner. */
  method CreateThenPoll(s: LocalStore, t: LocalStore, url: bytes, alias: Option<Code>, ttl: int, now: int,
      draws: seq<Draw>, later: int, ghost ops: seq<LogOp>)
      returns (m: Minted, r: Option<bytes>)
    requires s != t && s.me != t.me && Whole(s, ops) && CreateOk(url, alias, ttl, now)
    requires t.Valid() && StandsIn(At(t.readers, s.me), EncodeLog(ops))
    modifies s`index, s`dirty, s.log, t`index, t`stray, t`readers, t`lastPoll, t`dirty
    ensures m.Minted? ==> r == if ttl <= 0 || later < now + ttl then Some(url) else None
    ensures m.Minted? ==> m.code in t.index && t.index[m.code].a == now && t.index[m.code].i == s.me
  {
    ghost var row;
    m, row := Created(s, url, alias, ttl, now, draws, ops);
    r := None;
    if m.Minted? {
      r := PublishThenPoll(s, t, ops, row, m.code, later);
    }
  }

  /** A sibling that has not polled finds a generated code at its first lookup. */
  method CreateThenMiss(s: LocalStore, t: LocalStore, url: bytes, ttl: int, now: int, draws: seq<Draw>,
      later: int, ghost ops: seq<LogOp>)
      returns (m: Minted, r: Option<bytes>)
    requires s != t && s.me != t.me && Whole(s, ops) && CreateOk(url, None, ttl, now)
    requires t.Valid() && t.persistent && StandsIn(At(t.readers, s.me), EncodeLog(ops))
    modifies s`index, s`dirty, s.log, t`index, t`stray, t`readers, t`lastPoll, t`dirty
    ensures m.Minted? && m.code !in old(t.index) ==> r == if ttl <= 0 || later < now + ttl then Some(url) else None
  {
    ghost var row;
    m, row := Created(s, url, None, ttl, now, draws, ops);
    r := None;
    if m.Minted? && m.code !in t.index {
      ghost var hits := Published(s, ops, row);
      LastUnread(None, At(t.readers, s.me), ops, row, hits, m.code);
      r := MissThenTail(t, s.me, s.log.file, ops, [row] + hits, m.code, later, later);
    }
  }

  /** And an alias at its first lookup when its last poll is 200 milliseconds old. */
  method CreateThenMissAlias(s: LocalStore, t: LocalStore, url: bytes, alias: Code, ttl: int, now: int,
      later: int, ghost ops: seq<LogOp>)
      returns (m: Minted, r: Option<bytes>)
    requires s != t && s.me != t.me && Whole(s, ops) && CreateOk(url, Some(alias), ttl, now)
    requires t.Valid() && t.persistent && StandsIn(At(t.readers, s.me), EncodeLog(ops))
    requires alias !in t.index && (Owner(alias) < 0 || Owner(alias) == t.me) && later - t.lastPoll >= 200
    modifies s`index, s`dirty, s.log, t`index, t`stray, t`readers, t`lastPoll, t`dirty
    ensures m.Minted? ==> r == if ttl <= 0 || later < now + ttl then Some(url) else None
  {
    ghost var row;
    m, row := Created(s, url, Some(alias), ttl, now, [], ops);
    r := None;
    if m.Minted? {
      ghost var hits := Published(s, ops, row);
      LastUnread(None, At(t.readers, s.me), ops, row, hits, alias);
      r := MissThenPoll(t, s.me, s.log.file, ops, [row] + hits, alias, later, later);
    }
  }

  // ---- a link is changed ----

  /** Everything else is as before. */
  twostate predicate OthersSame(s: LocalStore, c: Code)
    reads s
  {
    forall b :: b != c ==> (b in s.index <==> b in old(s.index)) && (b in s.index ==> s.index[b] == old(s.index)[b])
  }

  /** An update serves the new url for its time to live, for ever when that is not positive, or for as
      long as the old one would have been served when it brings none; creation time, owner and counts
      stay. */
  method UpdateThenLookup(s: LocalStore, c: Code, url: bytes, ttl: int, hasTtl: bool, now: int, later: int)
      returns (d: MutResult, r: Option<bytes>)
    requires s.Valid() && (hasTtl ==> 0 <= now && IsI64(if ttl > 0 then now + ttl else 0))
    modifies s`index, s`stray, s`readers, s`lastPoll, s`dirty, s.log
    ensures d == if c !in old(s.index) then Missing else if old(s.index)[c].i != s.me then Remote else Done
    ensures d.Done? ==> var en := old(s.index)[c];
                        r == (if (if hasTtl then ttl <= 0 || later < now + ttl else en.e == 0 || later < en.e)
                              then Some(url) else None) &&
                        var hit := if s.track && r.Some? then 1 else 0;
                        c in s.index && s.index[c].a == en.a && s.index[c].i == en.i &&
                        s.index[c].h == en.h + hit && s.index[c].oh == en.oh + hit
    ensures OthersSame(s, c) && (!d.Done? ==> s.index == old(s.index))
  {
    d := s.Update(c, url, ttl, hasTtl, now);
    r := None;
    if d.Done? {
      r := LookupCounts(s, c, later);
    }
  }

  /** Updating is one more record. */
  method UpdatedRecord(s: LocalStore, c: Code, url: bytes, ttl: int, hasTtl: bool, now: int, ghost ops: seq<LogOp>)
      returns (d: MutResult, ghost row: LogOp)
    requires Whole(s, ops) && ValidUtf8(url) && CodeOk(c)
    requires hasTtl ==> 0 <= now && IsI64(if ttl > 0 then now + ttl else 0)
    modifies s`index, s.log
    ensures s.dirty == old(s.dirty) && s.snap == old(s.snap)
    ensures d.Done? <==> c in old(s.index) && old(s.index)[c].i == s.me
    ensures d.Done? ==> Whole(s, ops + [row]) &&
                        var en := old(s.index)[c];
                        row == Row(c, url, en.a, if !hasTtl then en.e else if ttl > 0 then now + ttl else 0, s.me, 0)
  {
    d := s.Update(c, url, ttl, hasTtl, now);
    row := Del([]);
    if d.Done? {
      ghost var en := old(s.index)[c];
      row := Row(c, url, en.a, if !hasTtl then en.e else if ttl > 0 then now + ttl else 0, s.me, 0);
      EncodeAppend(ops, [row]);
    }
  }

  /** The same after a restart. */
  method UpdateThenRestart(s: LocalStore, c: Code, url: bytes, ttl: int, hasTtl: bool, now: int, later: int,
      ghost ops: seq<LogOp>)
      returns (d: MutResult, r: Option<bytes>)
    requires Whole(s, ops) && ValidUtf8(url) && CodeOk(c)
    requires hasTtl ==> 0 <= now && IsI64(if ttl > 0 then now + ttl else 0)
    modifies s`index, s`dirty, s.log
    ensures d.Done? <==> c in old(s.index) && old(s.index)[c].i == s.me
    ensures d.Done? ==> var en := old(s.index)[c];
                        r == if (if hasTtl then ttl <= 0 || later < now + ttl else en.e == 0 || later < en.e)
                             then Some(url) else None
  {
    ghost var row;
    d, row := UpdatedRecord(s, c, url, ttl, hasTtl, now, ops);
    r := None;
    if d.Done? {
      LastOf(RowFold(None, FileOps(s.snap), c), ops, row, c);
      r := RestartThenLookup(s, ops + [row], c, later);
    }
  }

  /** The same on a sibling once it has polled, whatever it served before. */
  method UpdateThenPoll(s: LocalStore, t: LocalStore, c: Code, url: bytes, ttl: int, hasTtl: bool, now: int,
      later: int, ghost ops: seq<LogOp>)
      returns (d: MutResult, r: Option<bytes>)
    requires s != t && s.me != t.me && Whole(s, ops) && ValidUtf8(url) && CodeOk(c)
    requires hasTtl ==> 0 <= now && IsI64(if ttl > 0 then now + ttl else 0)
    requires t.Valid() && StandsIn(At(t.readers, s.me), EncodeLog(ops))
    modifies s`index, s`dirty, s.log, t`index, t`stray, t`readers, t`lastPoll, t`dirty
    ensures d.Done? <==> c in old(s.index) && old(s.index)[c].i == s.me
    ensures d.Done? ==> var en := old(s.index)[c];
                        r == (if (if hasTtl then ttl <= 0 || later < now + ttl else en.e == 0 || later < en.e)
                              then Some(url) else None) &&
                        c in t.index && t.index[c].a == en.a && t.index[c].i == s.me
  {
    ghost var row;
    d, row := UpdatedRecord(s, c, url, ttl, hasTtl, now, ops);
    r := None;
    if d.Done? {
      r := PublishThenPoll(s, t, ops, row, c, later);
    }
  }

  // ---- a link is removed ----

  /** A removed link is not served any more. */
  method RemoveThenLookup(s: LocalStore, c: Code, later: int) returns (d: MutResult, r: Option<bytes>)
    requires s.Valid()
    modifies s`index, s`stray, s`readers, s`lastPoll, s`dirty, s.log
    ensures d == if c !in old(s.index) then Missing else if old(s.index)[c].i != s.me then Remote else Done
    ensures d.Done? ==> r == None && c !in s.index
    ensures OthersSame(s, c) && (!d.Done? ==> s.index == old(s.index))
  {
    d := s.Remove(c);
    r := None;
    if d.Done? {
      NoFiles(s.readers);
      r := QuietLookup(s, c, later, map[]);
    }
  }

  method RemovedRecord(s: LocalStore, c: Code, ghost ops: seq<LogOp>) returns (d: MutResult)
    requires Whole(s, ops) && CodeOk(c)
    modifies s`index, s.log
    ensures s.dirty == old(s.dirty) && s.snap == old(s.snap)
    ensures d.Done? <==> c in old(s.index) && old(s.index)[c].i == s.me
    ensures d.Done? ==> Whole(s, ops + [Del(c)])
  {
    d := s.Remove(c);
    if d.Done? {
      EncodeAppend(ops, [Del(c)]);
    }
  }

  /** Nor after a restart. */
  method RemoveThenRestart(s: LocalStore, c: Code, later: int, ghost ops: seq<LogOp>)
      returns (d: MutResult, r: Option<bytes>)
    requires Whole(s, ops) && CodeOk(c)
    modifies s`index, s`dirty, s.log
    ensures d.Done? <==> c in old(s.index) && old(s.index)[c].i == s.me
    ensures d.Done? ==> r == None
  {
    d := RemovedRecord(s, c, ops);
    r := None;
    if d.Done? {
      LastOf(RowFold(None, FileOps(s.snap), c), ops, Del(c), c);
      r := RestartThenLookup(s, ops + [Del(c)], c, later);
    }
  }

  /** Nor on a sibling that has polled. */
  method RemoveThenPoll(s: LocalStore, t: LocalStore, c: Code, later: int, ghost ops: seq<LogOp>)
      returns (d: MutResult, r: Option<bytes>)
    requires s != t && s.me != t.me && Whole(s, ops) && CodeOk(c)
    requires t.Valid() && StandsIn(At(t.readers, s.me), EncodeLog(ops))
    modifies s`index, s`dirty, s.log, t`index, t`stray, t`readers, t`lastPoll, t`dirty
    ensures d.Done? <==> c in old(s.index) && old(s.index)[c].i == s.me
    ensures d.Done? ==> r == None && c !in t.index
  {
    d := RemovedRecord(s, c, ops);
    r := None;
    if d.Done? {
      r := PublishThenPoll(s, t, ops, Del(c), c, later);
    }
  }

  // ---- links are created in bulk ----

  method CreateManyThenLookup(s: LocalStore, urls: seq<bytes>, ttl: int, now: int, draws: seq<Draw>,
      spare: seq<Draw>, p: nat, later: int)
      returns (done: bool, codes: seq<Code>, r: Option<bytes>)
    requires s.Valid() && 0 <= now && IsI64(now) && (ttl > 0 ==> IsI64(now + ttl)) && |draws| == |urls| && p < |urls|
    modifies s`index, s`stray, s`readers, s`lastPoll, s`dirty, s.log
    ensures done ==> |codes| == |urls| && r == if ttl <= 0 || later < now + ttl then Some(urls[p]) else None
    ensures forall j, k :: 0 <= j < k < |codes| ==> codes[j] != codes[k]
  {
    done, codes := s.ShortenMany(urls, ttl, now, draws, spare);
    r := None;
    if done {
      r := LookupCounts(s, codes[p], later);
    }
  }

  lemma BatchDecides(row: Option<LinkRow>, ops: seq<LogOp>, codes: seq<Code>, urls: seq<bytes>, me: int,
      at: int, e: int, p: nat)
    requires |codes| == |urls| && p < |urls| && forall j, k :: 0 <= j < k < |codes| ==> codes[j] != codes[k]
    ensures RowFold(row, ops + RowsOf(codes, urls, me, at, e), codes[p]) == Some(LinkRow(urls[p], at, e, AsI32(me)))
  {
    var rows := RowsOf(codes, urls, me, at, e);
    RowFoldAppend(row, ops, rows, codes[p]);
    forall x | 0 <= x < |rows| && x != p ensures rows[x].Code() != codes[p] {
      assert rows[x] == Row(codes[x], urls[x], at, e, me, 0);
    }
    assert rows[p] == Row(codes[p], urls[p], at, e, me, 0);
    OneRecord(RowFold(row, ops, codes[p]), rows, codes[p], p);
  }

  method CreatedMany(s: LocalStore, urls: seq<bytes>, ttl: int, now: int, draws: seq<Draw>, spare: seq<Draw>,
      ghost ops: seq<LogOp>)
      returns (done: bool, codes: seq<Code>, ghost rows: seq<LogOp>)
    requires Whole(s, ops) && IsI64(now) && (ttl > 0 ==> IsI64(now + ttl)) && |draws| == |urls|
    requires forall k :: 0 <= k < |urls| ==> ValidUtf8(urls[k])
    modifies s`index, s.log
    ensures s.dirty == old(s.dirty) && s.snap == old(s.snap)
    ensures done ==> |codes| == |urls| && Whole(s, ops + rows) &&
                     rows == RowsOf(codes, urls, s.me, now, if ttl > 0 then now + ttl else 0) &&
                     forall j, k :: 0 <= j < k < |codes| ==> codes[j] != codes[k]
  {
    done, codes := s.ShortenMany(urls, ttl, now, draws, spare);
    rows := RowsOf(codes, urls, s.me, now, if ttl > 0 then now + ttl else 0);
    EncodeAppend(ops, rows);
    RowsPrintable(codes, urls, s.me, now, if ttl > 0 then now + ttl else 0);
  }

  lemma RowsPrintable(codes: seq<Code>, urls: seq<bytes>, me: int, at: int, e: int)
    requires |codes| <= |urls| && 0 <= me < MAX_INSTANCES && IsI64(at) && IsI64(e)
    requires (forall k :: 0 <= k < |urls| ==> ValidUtf8(urls[k])) && forall k :: 0 <= k < |codes| ==> CodeOk(codes[k])
    ensures AllLoggable(RowsOf(codes, urls, me, at, e))
  {
  }

  /** Every link of a batch is found again after a restart. */
  method CreateManyThenRestart(s: LocalStore, urls: seq<bytes>, ttl: int, now: int, draws: seq<Draw>,
      spare: seq<Draw>, p: nat, later: int, ghost ops: seq<LogOp>)
      returns (done: bool, codes: seq<Code>, r: Option<bytes>)
    requires Whole(s, ops) && 0 <= now && IsI64(now) && (ttl > 0 ==> IsI64(now + ttl)) && |draws| == |urls|
    requires p < |urls|
    requires forall k :: 0 <= k < |urls| ==> ValidUtf8(urls[k])
    modifies s`index, s`dirty, s.log
    ensures done ==> |codes| == |urls| && r == if ttl <= 0 || later < now + ttl then Some(urls[p]) else None
  {
    ghost var rows;
    done, codes, rows := CreatedMany(s, urls, ttl, now, draws, spare, ops);
    r := None;
    if done {
      BatchDecides(RowFold(None, FileOps(s.snap), codes[p]), ops, codes, urls, s.me, now,
                   if ttl > 0 then now + ttl else 0, p);
      r := RestartThenLookup(s, ops + rows, codes[p], later);
    }
  }

  // ---- compact, and boots ----

  /** Rows alone never evict anything. */
  lemma {:induction false} RowsView(m: Mem, me: int, ops: seq<LogOp>, victims: seq<Code>, c: Code)
    requires |victims| == |ops| && Tidy(m, c) && forall x :: 0 <= x < |ops| ==> ops[x].Row?
    ensures Tidy(Fold(m, me, ops, victims), c)
    ensures ViewOf(Fold(m, me, ops, victims), c) == FoldView(ViewOf(m, c), me, ops, c)
  {
    if ops != [] {
      var n := |ops| - 1;
      RowsView(m, me, ops[..n], victims[..n], c);
      ApplyView(Fold(m, me, ops[..n], victims[..n]), me, ops[n], victims[n], c);
    }
  }

  lemma CompactedRows(rows: seq<LogOp>, index: map<Code, Entry>, me: int)
    requires Snapshots(rows, index, me) && 0 <= me < MAX_INSTANCES
    requires forall b :: b in index ==> CodeOk(b) && ValidUtf8(index[b].u) && IsI64(index[b].oh)
    requires forall b :: b in index ==> IsI64(index[b].a) && IsI64(index[b].e)
    ensures FileOps(EncodeLog(rows)) + FileOps([]) == rows && forall x :: 0 <= x < |rows| ==> rows[x].Row?
  {
    LogRoundTrip(rows);
    LogRoundTrip([]);
    assert EncodeLog([]) == [];
  }

  method Compacted(s: LocalStore) returns (ghost rows: seq<LogOp>)
    requires s.Valid() && s.persistent && (forall b :: b in s.dirty ==> IsI64(s.dirty[b]))
    requires forall b :: b in s.index ==> CodeOk(b) && ValidUtf8(s.index[b].u) && IsI64(s.index[b].oh)
    modifies s`dirty, s`snap, s.log
    ensures s.Valid() && Snapshots(rows, s.index, s.me) && FileOps(s.snap) + FileOps(s.log.file) == rows
    ensures forall x :: 0 <= x < |rows| ==> rows[x].Row?
  {
    rows := s.Compact();
    CompactedRows(rows, s.index, s.me);
  }

  /** What a new process knows of a code after compact. */
  method CompactedRestart(s: LocalStore, c: Code) returns (t: LocalStore)
    requires s.Valid() && s.persistent && (forall b :: b in s.dirty ==> IsI64(s.dirty[b]))
    requires forall b :: b in s.index ==> CodeOk(b) && ValidUtf8(s.index[b].u) && IsI64(s.index[b].oh)
    modifies s`dirty, s`snap, s.log
    ensures fresh(t) && fresh(t.log) && t.Valid() && t.readers == map[]
    ensures ViewOf(t.Memory(), c) ==
            if c in s.index && s.index[c].i == s.me
            then View(Some(LinkRow(s.index[c].u, s.index[c].a, s.index[c].e, s.me)), s.index[c].oh, s.index[c].oh)
            else View(None, 0, 0)
  {
    ghost var rows := Compacted(s);
    SnapshotRestores(rows, s.index, s.me, c);
    ghost var victims;
    t, victims := Restarted(s);
    RowsView(EMPTY_MEM, s.me, rows, victims, c);
  }

  /** After compact a restart serves the own links exactly as before, with their own hits, and nothing
      else. */
  method CompactThenRestart(s: LocalStore, c: Code, now: int) returns (t: LocalStore, r: Option<bytes>)
    requires s.Valid() && s.persistent && (forall b :: b in s.dirty ==> IsI64(s.dirty[b]))
    requires forall b :: b in s.index ==> CodeOk(b) && ValidUtf8(s.index[b].u) && IsI64(s.index[b].oh)
    modifies s`dirty, s`snap, s.log
    ensures fresh(t) && s.index == old(s.index)
    ensures c in s.index && s.index[c].i == s.me ==>
              var en := s.index[c];
              r == (if en.e == 0 || now < en.e then Some(en.u) else None) && c in t.index &&
              t.index[c].oh == en.oh + if t.track && r.Some? then 1 else 0
    ensures c !in s.index || s.index[c].i != s.me ==> r == None
  {
    t := CompactedRestart(s, c);
    NoFiles(t.readers);
    r := QuietLookup(t, c, now, map[]);
  }

  predicate NoRecord(ops: seq<LogOp>, c: Code) {
    forall x :: 0 <= x < |ops| ==> ops[x].Code() != c
  }

  lemma {:induction false} FlatDecides(parts: seq<seq<LogOp>>, j: nat, c: Code)
    requires j < |parts| && forall x :: 0 <= x < |parts| && x != j ==> NoRecord(parts[x], c)
    ensures RowFold(None, Flat(parts), c) == RowFold(None, parts[j], c)
  {
    var n := |parts| - 1;
    RowFoldAppend(None, Flat(parts[..n]), parts[n], c);
    if j == n {
      FlatSilent(parts[..n], c);
    } else {
      FlatDecides(parts[..n], j, c);
      SilentRow(RowFold(None, Flat(parts[..n]), c), parts[n], c);
    }
  }

  lemma {:induction false} FlatSilent(parts: seq<seq<LogOp>>, c: Code)
    requires forall x :: 0 <= x < |parts| ==> NoRecord(parts[x], c)
    ensures RowFold(None, Flat(parts), c) == None
  {
    if parts != [] {
      var n := |parts| - 1;
      RowFoldAppend(None, Flat(parts[..n]), parts[n], c);
      FlatSilent(parts[..n], c);
      SilentRow(None, parts[n], c);
    }
  }

  /** A boot finds a sibling's link in the sibling's snapshot alone. */
  method BootThenLookup(me: int, track: bool, siblings: seq<Sibling>, j: nat, ghost rows: seq<LogOp>,
      ghost p: nat, c: Code, now: int)
      returns (r: Option<bytes>)
    requires 0 <= me < MAX_INSTANCES && NamesOthers(siblings, me) && j < |siblings| && AllLoggable(rows)
    requires siblings[j].snap == EncodeLog(rows) && p < |rows| && rows[p].Row? && rows[p].c == c
    requires forall x :: 0 <= x < |rows| && x != p ==> rows[x].Code() != c
    requires forall x :: 0 <= x < |siblings| && x != j ==> NoRecord(FileOps(siblings[x].snap), c)
    ensures r == if rows[p].e == 0 || now < rows[p].e then Some(rows[p].u) else None
  {
    var t := new LocalStore(me, true, track, [], []);
    ghost var victims := t.LoadAll(siblings);
    LogRoundTrip([]);
    assert EncodeLog([]) == [];
    LogRoundTrip(rows);
    FlatDecides(SnapshotOps(siblings), j, c);
    OneRecord(None, rows, c, p);
    assert ([] + []) + Flat(SnapshotOps(siblings)) == Flat(SnapshotOps(siblings));
    FoldRow(EMPTY_MEM, me, Flat(SnapshotOps(siblings)), victims, c);
    NoFiles(t.readers);
    r := QuietLookup(t, c, now, map[]);
  }

  /** And reads the sibling's log from its first byte. */
  method BootThenMiss(me: int, track: bool, from: int, file: bytes, ghost rows: seq<LogOp>, ghost p: nat,
      c: Code, now: int)
      returns (r: Option<bytes>)
    requires 0 <= me < MAX_INSTANCES && from != me && 0 <= from == Owner(c) && AllLoggable(rows)
    requires file == EncodeLog(rows) && p < |rows| && rows[p].Row? && rows[p].c == c
    requires forall x :: 0 <= x < |rows| && x != p ==> rows[x].Code() != c
    ensures r == if rows[p].e == 0 || now < rows[p].e then Some(rows[p].u) else None
  {
    var t := new LocalStore(me, true, track, [], []);
    ghost var victims := t.LoadAll([Sibling(from, [])]);
    BootedEmpty(from);
    StandsAtStart([]);
    assert [] + rows == rows && EncodeLog([]) == [];
    r := MissThenTail(t, from, file, [], rows, c, now, now);
    assert Unread(NEW_READER, [], rows) == rows;
    OneRecord(None, rows, c, p);
  }

  lemma StandsAtStart(ops: seq<LogOp>)
    ensures StandsIn(NEW_READER, EncodeLog(ops))
  {
    assert EncodeLog(ops)[..0] == [];
  }

  /** Empty files hold no records, and the only sibling's reader is new. */
  lemma BootedEmpty(from: int)
    ensures (FileOps([]) + FileOps([])) + Flat(SnapshotOps([Sibling(from, [])])) == []
    ensures At(NewReaders([Sibling(from, [])]), from) == NEW_READER
  {
    LogRoundTrip([]);
    assert EncodeLog([]) == [];
    var s := [Sibling(from, [])];
    assert s[..0] == [];
    var parts := SnapshotOps(s);
    assert parts == [FileOps([])] && parts[..0] == [];
    assert Flat(parts) == Flat(parts[..0]) + parts[0];
  }
}
