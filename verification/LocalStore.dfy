/** One instance of the log-backed store as the object the program runs: its index, unflushed hit
    counts, log, snapshot and sibling readers, updated in place by the public operations. The 256
    lock shards of the index are one map here. */
module LocalStores {
  import opened Bytes
  import opened Codec
  import opened Parser
  import opened RoundTrip
  import opened Aof
  import opened Engine
  import opened Times
  import opened Sums

  const FLUSH_BYTES: nat := 256 * 1024
  const TAIL_MIN_INTERVAL: int := 200
  const SUFFIX_LEN: nat := 7

  /** Seven raw random bytes. */
  type Draw = d: bytes | |d| == SUFFIX_LEN witness [0, 0, 0, 0, 0, 0, 0]

  /** A generated code: the instance's prefix, then the drawn bytes reduced to the alphabet. */
  function GenCode(me: int, d: Draw): Code
    requires 0 <= me < MAX_INSTANCES
  {
    [ALPHABET[me]] + seq(SUFFIX_LEN, k requires 0 <= k < SUFFIX_LEN => ALPHABET[d[k] as int % MAX_INSTANCES])
  }

  lemma GeneratedCodeIsOwned(me: int, d: Draw)
    requires 0 <= me < MAX_INSTANCES
    ensures CodeOk(GenCode(me, d)) && |GenCode(me, d)| == 8 && Owner(GenCode(me, d)) == me
  {
    PrefixNamesOwner(me);
    var c := GenCode(me, d);
    forall k | 0 <= k < 8
      ensures IsDigit(c[k]) || 65 <= c[k] <= 90 || 97 <= c[k] <= 122
    {
      var i := if k == 0 then me else d[k - 1] as int % MAX_INSTANCES;
      assert c[k] == ALPHABET[i] == AlphabetAt(i);
    }
  }

  /** Two draws give the same code exactly when their bytes agree modulo the size of the alphabet. */
  lemma SameCodeIff(me: int, d: Draw, d': Draw)
    requires 0 <= me < MAX_INSTANCES
    ensures GenCode(me, d) == GenCode(me, d') <==> forall k :: 0 <= k < 7 ==> d[k] as int % 62 == d'[k] as int % 62
  {
    var c, c' := GenCode(me, d), GenCode(me, d');
    forall j | 1 <= j < 8 ensures c[j] == c'[j] <==> d[j - 1] as int % 62 == d'[j - 1] as int % 62 {
      var i, i' := d[j - 1] as int % 62, d'[j - 1] as int % 62;
      assert c[j] == ALPHABET[i] == AlphabetAt(i) && c'[j] == ALPHABET[i'] == AlphabetAt(i');
    }
    forall k | 0 <= k < 7 && c == c' ensures d[k] as int % 62 == d'[k] as int % 62 {
      assert c[k + 1] == c'[k + 1];
    }
  }

  /** What shorten answers; NoDraw is the retry loop still running when the draws given to the
      model are used up. */
  datatype Minted = Minted(code: Code) | Taken | NoDraw

  // ---- parsed numbers ----

  /** Every number the parser stores is a 64-bit integer. */
  predicate Op64(o: Op) {
    IsI64(o.a) && IsI64(o.e) && IsI64(o.i) && IsI64(o.n) && IsI64(o.d)
  }

  lemma {:induction false} ParsedFields(s: bytes, o: Op)
    requires Op64(o)
    ensures ParseFields(s, o).Some? ==> Op64(ParseFields(s, o).value)
    decreases |s|
  {
    match FindKey(s)
    case NoKey =>
    case CutKey =>
    case KeyAt(key, rest) =>
      FieldKeeps64(o, key, rest);
      ParsedFields(FieldValue(o, key, rest).1, FieldValue(o, key, rest).0);
  }

  lemma FieldKeeps64(o: Op, key: bytes, s: bytes)
    requires s != [] && Op64(o)
    ensures Op64(FieldValue(o, key, s).0)
  {
    if s[0] != QUOTE {
      NumKeeps64(o, key, s[..BareLen(s)]);
    }
  }

  lemma NumKeeps64(o: Op, key: bytes, raw: bytes)
    requires Op64(o)
    ensures Op64(SetNum(o, key, raw))
  {
  }

  function Classified(r: Option<Op>): seq<LogOp> {
    match r
    case None => []
    case Some(o) => [Classify(o)]
  }

  /** Parses one line; rejected lines stand for no operation. */
  method ParseRecord(line: bytes) returns (r: Option<Op>)
    ensures r.Some? ==> Op64(r.value) && (r.value.x != [] || r.value.h != [] || r.value.c != [])
    ensures DecodeAll([line]) == Classified(r)
  {
    r := ParseOp(line);
    ParsedFields(line, DEFAULT_OP);
    DecodeOne(line, r);
  }

  lemma DecodeOne(line: bytes, r: Option<Op>)
    requires ParseLine(line) == r
    ensures DecodeAll([line]) == Classified(r)
  {
    assert FilterMap(Decode, [line][1..]) == [];
  }

  lemma DecodeNext(lines: seq<bytes>, k: nat, one: seq<LogOp>)
    requires k < |lines| && DecodeAll([lines[k]]) == one
    ensures DecodeAll(lines[..k + 1]) == DecodeAll(lines[..k]) + one
  {
    DecodeAppend(lines[..k], [lines[k]]);
    assert lines[..k + 1] == lines[..k] + [lines[k]];
  }

  lemma DecodeAppend(a: seq<bytes>, b: seq<bytes>)
    ensures DecodeAll(a + b) == DecodeAll(a) + DecodeAll(b)
  {
    FilterMapAppend(Decode, a, b);
  }

  // ---- what a flush writes ----

  /** `ops` are the hit lines of the codes in `done`, each once, in some order. */
  ghost predicate DrainsOf(ops: seq<LogOp>, dirty: map<Code, int>, me: int, done: set<Code>) {
    (forall k :: 0 <= k < |ops| ==>
      ops[k].Hit? && ops[k].h in done && ops[k].h in dirty &&
      ops[k] == Hit(ops[k].h, dirty[ops[k].h], me)) &&
    (forall c :: c in done && c in dirty ==> Hit(c, dirty[c], me) in ops) &&
    (forall j, k :: 0 <= j < k < |ops| ==> ops[j].Code() != ops[k].Code())
  }

  /** `ops` are the hit lines of `dirty`, one per code, in some order. */
  ghost predicate Drains(ops: seq<LogOp>, dirty: map<Code, int>, me: int) {
    DrainsOf(ops, dirty, me, dirty.Keys)
  }

  lemma DrainNext(ops: seq<LogOp>, dirty: map<Code, int>, me: int, done: set<Code>, c: Code)
    requires DrainsOf(ops, dirty, me, done) && c in dirty && c !in done
    ensures DrainsOf(ops + [Hit(c, dirty[c], me)], dirty, me, done + {c})
  {
    var all := ops + [Hit(c, dirty[c], me)];
    forall b | b in done + {c} && b in dirty
      ensures Hit(b, dirty[b], me) in all
    {
      if b == c {
        assert all[|ops|] == Hit(c, dirty[c], me);
      }
    }
  }

  /** Appending a record's line and a newline appends the record. */
  lemma EncodeNext(ops: seq<LogOp>, op: LogOp)
    ensures EncodeLog(ops + [op]) == (EncodeLog(ops) + Line(op)) + [NL]
  {
    EncodeAppend(ops, [op]);
    EncodeOne(op);
  }

  /** A flush writes exactly the unflushed count of every code, once. */
  lemma {:induction false} DrainsSum(ops: seq<LogOp>, dirty: map<Code, int>, me: int, c: Code)
    requires Drains(ops, dirty, me)
    ensures HitSum(ops, c) == DirtyOf(dirty, c)
  {
    if c in dirty {
      var k :| 0 <= k < |ops| && ops[k] == Hit(c, dirty[c], me);
      SumOfOne(ops, c, k);
    } else {
      SumOfNone(ops, c);
    }
  }

  lemma {:induction false} SumOfNone(ops: seq<LogOp>, c: Code)
    requires forall k :: 0 <= k < |ops| ==> ops[k].Code() != c
    ensures HitSum(ops, c) == 0
  {
    if ops != [] {
      SumOfNone(ops[..|ops| - 1], c);
    }
  }

  lemma {:induction false} SumOfOne(ops: seq<LogOp>, c: Code, k: nat)
    requires k < |ops| && ops[k].Code() == c
    requires forall j :: 0 <= j < |ops| && j != k ==> ops[j].Code() != c
    ensures HitSum(ops, c) == HitOf(ops[k], c)
  {
    var n := |ops| - 1;
    if k == n {
      SumOfNone(ops[..n], c);
    } else {
      SumOfOne(ops[..n], c, k);
    }
  }

  // ---- what a snapshot holds ----

  /** `rows` are the rows `me` owns among the codes in `done`, each once, in some order. */
  ghost predicate SnapshotsOf(rows: seq<LogOp>, index: map<Code, Entry>, me: int, done: set<Code>) {
    (forall k :: 0 <= k < |rows| ==>
       rows[k].Row? && rows[k].c in done && rows[k].c in index && index[rows[k].c].i == me &&
       rows[k] == SnapshotRow(rows[k].c, index[rows[k].c])) &&
    (forall c :: c in done && c in index && index[c].i == me ==> SnapshotRow(c, index[c]) in rows) &&
    (forall j, k :: 0 <= j < k < |rows| ==> rows[j].Code() != rows[k].Code())
  }

  /** `rows` are all the rows `me` owns. */
  ghost predicate Snapshots(rows: seq<LogOp>, index: map<Code, Entry>, me: int) {
    SnapshotsOf(rows, index, me, index.Keys)
  }

  lemma SnapshotNext(rows: seq<LogOp>, index: map<Code, Entry>, me: int, done: set<Code>, c: Code)
    requires SnapshotsOf(rows, index, me, done) && c in index && c !in done
    ensures SnapshotsOf(if index[c].i == me then rows + [SnapshotRow(c, index[c])] else rows, index, me, done + {c})
  {
    var all := if index[c].i == me then rows + [SnapshotRow(c, index[c])] else rows;
    forall b | b in done + {c} && b in index && index[b].i == me
      ensures SnapshotRow(b, index[b]) in all
    {
      if b == c {
        assert all[|rows|] == SnapshotRow(c, index[c]);
      }
    }
  }

  /** Booting from a snapshot alone brings back every own row, with both of its hit counters at
      the own count, and nothing else. */
  lemma SnapshotRestores(rows: seq<LogOp>, index: map<Code, Entry>, me: int, c: Code)
    requires Snapshots(rows, index, me) && 0 <= me < MAX_INSTANCES
    ensures FoldView(NO_VIEW, me, rows, c) ==
            if c in index && index[c].i == me
            then View(Some(LinkRow(index[c].u, index[c].a, index[c].e, me)), index[c].oh, index[c].oh)
            else NO_VIEW
  {
    if c in index && index[c].i == me {
      var k :| 0 <= k < |rows| && rows[k] == SnapshotRow(c, index[c]);
      ViewOfOne(NO_VIEW, me, rows, c, k);
    } else {
      ViewOfNone(NO_VIEW, me, rows, c);
    }
  }

  lemma {:induction false} ViewOfNone(v: View, me: int, ops: seq<LogOp>, c: Code)
    requires forall k :: 0 <= k < |ops| ==> ops[k].Code() != c
    ensures FoldView(v, me, ops, c) == v
  {
    if ops != [] {
      ViewOfNone(v, me, ops[..|ops| - 1], c);
    }
  }

  lemma {:induction false} ViewOfOne(v: View, me: int, ops: seq<LogOp>, c: Code, k: nat)
    requires k < |ops| && ops[k].Code() == c
    requires forall j :: 0 <= j < |ops| && j != k ==> ops[j].Code() != c
    ensures FoldView(v, me, ops, c) == Step(v, me, ops[k], c)
  {
    var n := |ops| - 1;
    if k == n {
      ViewOfNone(v, me, ops[..n], c);
    } else {
      ViewOfOne(v, me, ops[..n], c, k);
    }
  }

  // ---- bulk creation ----

  /** The first |codes| links of a bulk create: fresh distinct codes, each mapped to its own url,
      and nothing else changed. */
  ghost predicate MintedAll(was: map<Code, Entry>, now: map<Code, Entry>, codes: seq<Code>, urls: seq<bytes>,
                            me: int, at: int, e: int)
  {
    |codes| <= |urls| &&
    (forall k :: 0 <= k < |codes| ==>
       codes[k] !in was && codes[k] in now && now[codes[k]] == Entry(urls[k], at, e, me, 0, 0)) &&
    (forall j, k :: 0 <= j < k < |codes| ==> codes[j] != codes[k]) &&
    (forall c :: c in now <==> c in was || c in codes) &&
    (forall c :: c in was && c in now ==> now[c] == was[c])
  }

  lemma MintedNext(was: map<Code, Entry>, now: map<Code, Entry>, codes: seq<Code>, urls: seq<bytes>,
                   me: int, at: int, e: int, c: Code)
    requires MintedAll(was, now, codes, urls, me, at, e) && |codes| < |urls| && c !in now
    ensures MintedAll(was, now[c := Entry(urls[|codes|], at, e, me, 0, 0)], codes + [c], urls, me, at, e)
  {
  }

  /** The rows a bulk create logs. */
  function RowsOf(codes: seq<Code>, urls: seq<bytes>, me: int, at: int, e: int): seq<LogOp>
    requires |codes| <= |urls|
  {
    seq(|codes|, k requires 0 <= k < |codes| => Row(codes[k], urls[k], at, e, me, 0))
  }

  lemma RowsNext(codes: seq<Code>, urls: seq<bytes>, me: int, at: int, e: int, c: Code)
    requires |codes| < |urls|
    ensures RowsOf(codes + [c], urls, me, at, e) ==
            RowsOf(codes, urls, me, at, e) + [Row(c, urls[|codes|], at, e, me, 0)]
  {
  }

  // ---- sibling logs ----

  function FileOf(files: map<int, bytes>, i: int): bytes {
    if i in files then files[i] else []
  }

  /** A read to the end of the file. */
  function Caught(r: Reader, file: bytes): (Reader, seq<bytes>) {
    ReadStep(r, file, |file| - ResumeAt(r, file).offset)
  }

  const NEW_READER: Reader := Reader(0, [])

  function At(rs: map<int, Reader>, i: int): Reader {
    if i in rs then rs[i] else NEW_READER
  }

  /** Batches of operations, one after the other. */
  function Flat(parts: seq<seq<LogOp>>): seq<LogOp> {
    if parts == [] then [] else Flat(parts[..|parts| - 1]) + parts[|parts| - 1]
  }

  lemma FlatNext(own: seq<LogOp>, parts: seq<seq<LogOp>>, k: nat)
    requires k < |parts|
    ensures own + Flat(parts[..k + 1]) == (own + Flat(parts[..k])) + parts[k]
  {
    assert parts[..k + 1][..k] == parts[..k];
  }

  lemma FlatNone(own: seq<LogOp>, parts: seq<seq<LogOp>>)
    ensures own + Flat(parts[..0]) == own
  {
  }

  /** A sibling found in the directory: its instance id and its snapshot file. */
  datatype Sibling = Sibling(id: int, snap: bytes)

  /** Distinct instances other than `me`. */
  predicate NamesOthers(siblings: seq<Sibling>, me: int) {
    (forall k :: 0 <= k < |siblings| ==> siblings[k].id != me) &&
    (forall j, k :: 0 <= j < k < |siblings| ==> siblings[j].id != siblings[k].id)
  }

  /** One reader per sibling, at the start of its log. */
  function NewReaders(siblings: seq<Sibling>): map<int, Reader> {
    if siblings == [] then map[] else NewReaders(siblings[..|siblings| - 1])[siblings[|siblings| - 1].id := NEW_READER]
  }

  lemma NewReadersNext(siblings: seq<Sibling>, k: nat)
    requires k < |siblings|
    ensures NewReaders(siblings[..k + 1]) == NewReaders(siblings[..k])[siblings[k].id := NEW_READER]
  {
    assert siblings[..k + 1][..k] == siblings[..k];
  }

  function SnapshotOps(siblings: seq<Sibling>): seq<seq<LogOp>> {
    seq(|siblings|, k requires 0 <= k < |siblings| => FileOps(siblings[k].snap))
  }

  lemma FoldAppend(m: Mem, me: int, a: seq<LogOp>, va: seq<Code>, b: seq<LogOp>, vb: seq<Code>)
    requires |va| == |a| && |vb| == |b|
    ensures Fold(m, me, a + b, va + vb) == Fold(Fold(m, me, a, va), me, b, vb)
  {
    if b == [] {
      assert a + b == a && va + vb == va;
    } else {
      var n := |b| - 1;
      FoldAppend(m, me, a, va, b[..n], vb[..n]);
      assert (a + b)[..|a + b| - 1] == a + b[..n] && (va + vb)[..|a + b| - 1] == va + vb[..n];
    }
  }

  lemma FoldOne(m: Mem, me: int, ops: seq<LogOp>, victims: seq<Code>, op: LogOp, victim: Code)
    requires |victims| == |ops|
    ensures Fold(m, me, ops + [op], victims + [victim]) == Apply(Fold(m, me, ops, victims), me, op, victim)
  {
    assert (ops + [op])[..|ops|] == ops && (victims + [victim])[..|ops|] == victims;
  }

  /** What one read of sibling `i` folds in. */
  function Delivered(rs: map<int, Reader>, i: int, files: map<int, bytes>): seq<LogOp> {
    DecodeAll(Caught(At(rs, i), FileOf(files, i)).1)
  }

  /** What a poll that visits the siblings in this order folds in. */
  function Polled(order: seq<int>, rs: map<int, Reader>, files: map<int, bytes>): seq<LogOp> {
    if order == [] then []
    else Polled(order[..|order| - 1], rs, files) + Delivered(rs, order[|order| - 1], files)
  }

  lemma PolledNext(order: seq<int>, i: int, rs: map<int, Reader>, files: map<int, bytes>)
    ensures Polled(order + [i], rs, files) == Polled(order, rs, files) + Delivered(rs, i, files)
  {
    assert (order + [i])[..|order|] == order;
  }

  ghost predicate IsOrderOf(order: seq<int>, s: set<int>) {
    (forall i :: i in s <==> i in order) && (forall j, k :: 0 <= j < k < |order| ==> order[j] != order[k])
  }

  lemma PolledOne(i: int, rs: map<int, Reader>, files: map<int, bytes>)
    ensures Polled([i], rs, files) == Delivered(rs, i, files)
  {
    PolledNext([], i, rs, files);
    assert [] + [i] == [i];
  }

  /** A sibling met for the first time starts from an empty reader. */
  lemma {:induction false} PolledSame(order: seq<int>, rs: map<int, Reader>, rs': map<int, Reader>,
      files: map<int, bytes>)
    requires forall i :: i in order ==> At(rs, i) == At(rs', i)
    ensures Polled(order, rs, files) == Polled(order, rs', files)
  {
    if order != [] {
      PolledSame(order[..|order| - 1], rs, rs', files);
    }
  }

  lemma NextInOrder(order: seq<int>, s: set<int>, i: int)
    requires IsOrderOf(order, s) && i !in s
    ensures IsOrderOf(order + [i], s + {i})
  {
  }

  /** The readers after those in `done` have read to the end of their files. */
  function ReadersAfter(rs: map<int, Reader>, files: map<int, bytes>, done: set<int>): map<int, Reader> {
    map i | i in rs :: if i in done then Caught(rs[i], FileOf(files, i)).0 else rs[i]
  }

  lemma ReadersNext(rs: map<int, Reader>, files: map<int, bytes>, done: set<int>, i: int)
    requires i in rs && i !in done
    ensures ReadersAfter(rs, files, done + {i}) == ReadersAfter(rs, files, done)[i := Caught(rs[i], FileOf(files, i)).0]
    ensures Delivered(ReadersAfter(rs, files, done), i, files) == Delivered(rs, i, files)
  {
  }

  /** The readers after the directory listing was merged in. */
  function WithListed(rs: map<int, Reader>, listed: seq<int>): map<int, Reader> {
    map i | i in rs.Keys + (set j | j in listed) :: At(rs, i)
  }

  /** The reader sits in its table by value: it is taken out, advanced and put back. */
  method CatchUp(r: Reader, file: bytes) returns (r': Reader, lines: seq<bytes>)
    requires NL !in r.leftover
    ensures (r', lines) == Caught(r, file) && NL !in r'.leftover
  {
    var t := new TailReader();
    t.offset, t.leftover := r.offset, r.leftover;
    lines := t.ReadNew(file, |file| - if |file| < r.offset then 0 else r.offset);
    r' := Reader(t.offset, t.leftover);
  }

  // ---- answering a lookup ----

  function AfterServing(m: Mem, c: Code, now: int, track: bool): Mem {
    if track && Served(m, c, now).Some? then CountHit(m, c) else m
  }

  // ---- records as text ----

  method RowText(c: Code, u: bytes, a: int, e: int, i: int, n: int) returns (b: bytes)
    requires IsI64(a) && IsI64(e) && IsI64(i) && IsI64(n)
    ensures b + [NL] == EncodeLog([Row(c, u, a, e, i, n)])
  {
    b := RowLineInto([], c, u, a, e, i, n);
    EncodeOne(Row(c, u, a, e, i, n));
    assert b == Line(Row(c, u, a, e, i, n));
  }

  method DelText(c: Code) returns (b: bytes)
    ensures b + [NL] == EncodeLog([Del(c)])
  {
    b := DelLine(c);
    EncodeOne(Del(c));
  }

  method AppendHit(lines: bytes, c: Code, d: int, i: int, ghost ops: seq<LogOp>) returns (b: bytes)
    requires IsI64(d) && IsI64(i) && lines == EncodeLog(ops)
    ensures b == EncodeLog(ops + [Hit(c, d, i)])
  {
    b := HitLineInto(lines, c, d, i);
    b := b + [NL];
    EncodeNext(ops, Hit(c, d, i));
  }

  method AppendRow(lines: bytes, c: Code, u: bytes, a: int, e: int, i: int, n: int, ghost ops: seq<LogOp>)
      returns (b: bytes)
    requires IsI64(a) && IsI64(e) && IsI64(i) && IsI64(n) && lines == EncodeLog(ops)
    ensures b == EncodeLog(ops + [Row(c, u, a, e, i, n)])
  {
    b := RowLineInto(lines, c, u, a, e, i, n);
    b := b + [NL];
    EncodeNext(ops, Row(c, u, a, e, i, n));
  }

  /** After a compaction the two files alone, read back byte by byte, rebuild exactly the own rows
      with their own hit counts. */
  lemma CompactedFilesRestore(rows: seq<LogOp>, index: map<Code, Entry>, me: int, c: Code)
    requires Snapshots(rows, index, me) && 0 <= me < MAX_INSTANCES
    requires forall b :: b in index && index[b].i == me ==> Loggable(SnapshotRow(b, index[b]))
    ensures FoldView(NO_VIEW, me, FileOps(EncodeLog(rows)) + FileOps([]), c) ==
            if c in index && index[c].i == me
            then View(Some(LinkRow(index[c].u, index[c].a, index[c].e, me)), index[c].oh, index[c].oh)
            else NO_VIEW
  {
    LogRoundTrip(rows);
    assert FileOps(EncodeLog(rows)) + FileOps([]) == rows;
    SnapshotRestores(rows, index, me, c);
  }

  /** Some element: a hash table's iteration order is not the program's choice. */
  method Pick<T>(s: set<T>) returns (x: T)
    requires s != {}
    ensures x in s
  {
    x :| x in s;
  }

  class LocalStore {
    const me: int
    /** False for the ":memory:" store, which has no log. */
    const persistent: bool
    const track: bool
    const log: Log
    var snap: bytes
    var index: map<Code, Entry>
    var dirty: map<Code, int>
    var stray: map<Code, Stray>
    var readers: map<int, Reader>
    var lastPoll: int

    ghost predicate Valid()
      reads this
    {
      0 <= me < MAX_INSTANCES && me !in readers &&
      (forall i :: i in readers ==> NL !in readers[i].leftover) &&
      (forall c :: c in index ==> IsI64(index[c].a) && IsI64(index[c].e))
    }

    ghost function Memory(): Mem
      reads this
    {
      Mem(index, stray)
    }

    /** Everything recorded so far, written or queued. */
    ghost function Recorded(): bytes
      reads this, log
    {
      log.file + log.buf
    }

    constructor (me: int, persistent: bool, track: bool, snapFile: bytes, logFile: bytes)
      requires 0 <= me < MAX_INSTANCES
      ensures this.me == me && this.persistent == persistent && this.track == track
      ensures Valid() && fresh(log) && Memory() == EMPTY_MEM && dirty == map[] && readers == map[]
      ensures log.buf == [] && log.file == logFile && snap == snapFile
    {
      this.me, this.persistent, this.track := me, persistent, track;
      log := new Log(logFile);
      snap := snapFile;
      index, dirty, stray, readers, lastPoll := map[], map[], map[], map[], 0;
    }

    // ---- folding lines in ----

    /** The fold's three branches, on the parser's record. */
    method ApplyOp(o: Op) returns (ghost victim: Code)
      requires o.x != [] || o.h != [] || o.c != []
      requires Valid() && Op64(o)
      modifies this`index, this`stray
      ensures Valid()
      ensures Memory() == Apply(old(Memory()), me, Classify(o), victim)
    {
      victim := [];
      if o.x != [] {
        index := index - {o.x};
        stray := stray - {o.x};
        return;
      }
      if o.h != [] {
        var own := me == o.i;
        if o.h in index {
          var en := index[o.h];
          index := index[o.h := en.(h := en.h + o.d, oh := if own then en.oh + o.d else en.oh)];
          return;
        }
        if |stray| >= MAX_STRAY_HITS {
          assert stray.Keys != {};
          var k: Code :| k in stray;
          victim := k;
          stray := stray - {k};
        }
        var st := if o.h in stray then stray[o.h] else Stray(0, 0);
        stray := stray[o.h := Stray(st.t + o.d, if own then st.o + o.d else st.o)];
        return;
      }
      var st := if o.c in stray then stray[o.c] else Stray(0, 0);
      stray := stray - {o.c};
      index := index[o.c := Entry(o.u, o.a, if o.hasE then o.e else 0, AsI32(o.i), o.n + st.t, o.n + st.o)];
    }

    /** `ops` folded over `start` is what memory holds. */
    ghost predicate Holds(start: Mem, ops: seq<LogOp>, victims: seq<Code>)
      reads this
    {
      |victims| == |ops| && Memory() == Fold(start, me, ops, victims)
    }

    method ApplyRecord(r: Option<Op>, ghost start: Mem, ghost ops: seq<LogOp>, ghost victims: seq<Code>)
        returns (ghost victims': seq<Code>)
      requires Valid() && Holds(start, ops, victims)
      requires r.Some? ==> Op64(r.value) && (r.value.x != [] || r.value.h != [] || r.value.c != [])
      modifies this`index, this`stray
      ensures Valid() && Holds(start, ops + Classified(r), victims')
    {
      victims' := victims;
      if r.Some? {
        ghost var victim := ApplyOp(r.value);
        FoldOne(start, me, ops, victims, Classify(r.value), victim);
        victims' := victims + [victim];
      } else {
        assert ops + [] == ops;
      }
    }

    /** Folds a batch of complete lines; lines the parser rejects change nothing. */
    method ApplyLines(lines: seq<bytes>) returns (ghost victims: seq<Code>)
      requires Valid()
      modifies this`index, this`stray
      ensures Valid() && Holds(old(Memory()), DecodeAll(lines), victims)
    {
      victims := [];
      ghost var start := Memory();
      for k := 0 to |lines|
        invariant Valid() && Holds(start, DecodeAll(lines[..k]), victims)
      {
        var r := ParseRecord(lines[k]);
        DecodeNext(lines, k, Classified(r));
        victims := ApplyRecord(r, start, DecodeAll(lines[..k]), victims);
      }
      assert lines[..|lines|] == lines;
    }

    /** Folds one batch on top of the operations already folded. */
    method ApplyMore(lines: seq<bytes>, ghost start: Mem, ghost ops: seq<LogOp>, ghost victims: seq<Code>)
        returns (ghost ops': seq<LogOp>, ghost victims': seq<Code>)
      requires Valid() && Holds(start, ops, victims)
      modifies this`index, this`stray
      ensures Valid() && ops' == ops + DecodeAll(lines) && Holds(start, ops', victims')
    {
      ghost var vs := ApplyLines(lines);
      FoldAppend(start, me, ops, victims, DecodeAll(lines), vs);
      ops', victims' := ops + DecodeAll(lines), victims + vs;
    }

    method ReplayMore(file: bytes, ghost start: Mem, ghost ops: seq<LogOp>, ghost victims: seq<Code>)
        returns (ghost ops': seq<LogOp>, ghost victims': seq<Code>)
      requires Valid() && Holds(start, ops, victims)
      modifies this`index, this`stray
      ensures Valid() && ops' == ops + FileOps(file) && Holds(start, ops', victims')
    {
      var lines := ReplayFile(file);
      ops', victims' := ApplyMore(lines, start, ops, victims);
    }

    method ReplayOwn() returns (ghost ops: seq<LogOp>, ghost victims: seq<Code>)
      requires Valid() && Memory() == EMPTY_MEM
      modifies this`index, this`stray
      ensures Valid() && ops == FileOps(snap) + FileOps(log.file) && Holds(EMPTY_MEM, ops, victims)
    {
      ops, victims := ReplayMore(snap, EMPTY_MEM, [], []);
      assert [] + FileOps(snap) == FileOps(snap);
      ops, victims := ReplayMore(log.file, EMPTY_MEM, ops, victims);
    }

    method LoadSiblings(siblings: seq<Sibling>, ghost own: seq<LogOp>, ghost start: seq<Code>)
        returns (ghost victims: seq<Code>)
      requires Valid() && readers == map[] && Holds(EMPTY_MEM, own, start) && NamesOthers(siblings, me)
      modifies this`index, this`stray, this`readers
      ensures Valid() && readers == NewReaders(siblings)
      ensures Holds(EMPTY_MEM, own + Flat(SnapshotOps(siblings)), victims)
    {
      ghost var ops := own;
      victims := start;
      FlatNone(own, SnapshotOps(siblings));
      for k := 0 to |siblings|
        invariant Valid() && readers == NewReaders(siblings[..k])
        invariant ops == own + Flat(SnapshotOps(siblings)[..k]) && Holds(EMPTY_MEM, ops, victims)
      {
        FlatNext(own, SnapshotOps(siblings), k);
        NewReadersNext(siblings, k);
        ops, victims := ReplayMore(siblings[k].snap, EMPTY_MEM, ops, victims);
        readers := readers[siblings[k].id := NEW_READER];
      }
      assert siblings[..|siblings|] == siblings;
      assert SnapshotOps(siblings)[..|siblings|] == SnapshotOps(siblings);
    }

    /** Boot: own snapshot, own log, then the snapshot of every sibling whose log exists, each of
        which gets a reader that starts at the beginning of its log. */
    method LoadAll(siblings: seq<Sibling>) returns (ghost victims: seq<Code>)
      requires Valid() && readers == map[] && Memory() == EMPTY_MEM && NamesOthers(siblings, me)
      modifies this`index, this`stray, this`readers
      ensures Valid() && readers == NewReaders(siblings)
      ensures Holds(EMPTY_MEM, (FileOps(snap) + FileOps(log.file)) + Flat(SnapshotOps(siblings)), victims)
    {
      ghost var own;
      own, victims := ReplayOwn();
      victims := LoadSiblings(siblings, own, victims);
    }

    // ---- tailing siblings ----

    /** Reads what sibling `i` appended since the last read and folds it in. */
    method Tail(i: int, files: map<int, bytes>) returns (ghost victims: seq<Code>)
      requires Valid() && i in readers
      modifies this`index, this`stray, this`readers
      ensures Valid() && readers == old(readers)[i := Caught(old(readers)[i], FileOf(files, i)).0]
      ensures Holds(old(Memory()), Delivered(old(readers), i, files), victims)
    {
      var r, lines := CatchUp(readers[i], FileOf(files, i));
      readers := readers[i := r];
      victims := ApplyLines(lines);
    }

    /** Readers for the sibling logs the directory lists. */
    method Discover(listed: seq<int>)
      requires Valid() && me !in listed
      modifies this`readers
      ensures Valid() && readers == WithListed(old(readers), listed)
    {
      for k := 0 to |listed|
        invariant Valid() && readers == WithListed(old(readers), listed[..k])
      {
        assert listed[..k + 1] == listed[..k] + [listed[k]];
        if listed[k] !in readers {
          readers := readers[listed[k] := NEW_READER];
        }
      }
      assert listed[..|listed|] == listed;
    }

    method ReadOne(i: int, files: map<int, bytes>, ghost start: Mem, ghost before: map<int, Reader>,
                   ghost done: set<int>, ghost order: seq<int>, ghost victims: seq<Code>)
        returns (ghost victims': seq<Code>)
      requires Valid() && i in before && i !in done && readers == ReadersAfter(before, files, done)
      requires Holds(start, Polled(order, before, files), victims)
      modifies this`index, this`stray, this`readers
      ensures Valid() && readers == ReadersAfter(before, files, done + {i})
      ensures Holds(start, Polled(order + [i], before, files), victims')
    {
      ghost var ops := Delivered(readers, i, files);
      ghost var vs := Tail(i, files);
      FoldAppend(start, me, Polled(order, before, files), victims, ops, vs);
      PolledNext(order, i, before, files);
      ReadersNext(before, files, done, i);
      victims' := victims + vs;
    }

    /** Brings every reader up to date, in the order the reader table happens to give. */
    method ReadAll(files: map<int, bytes>) returns (ghost order: seq<int>, ghost victims: seq<Code>)
      requires Valid()
      modifies this`index, this`stray, this`readers
      ensures Valid() && IsOrderOf(order, readers.Keys) &&
        readers == ReadersAfter(old(readers), files, old(readers).Keys)
      ensures Holds(old(Memory()), Polled(order, old(readers), files), victims)
    {
      ghost var before, start := readers, Memory();
      order, victims := [], [];
      var todo := readers.Keys;
      ghost var done: set<int> := {};
      while todo != {}
        invariant Valid() && before.Keys == done + todo && done !! todo && IsOrderOf(order, done)
        invariant readers == ReadersAfter(before, files, done) && Holds(start, Polled(order, before, files), victims)
      {
        var i := Pick(todo);
        victims := ReadOne(i, files, start, before, done, order, victims);
        NextInOrder(order, done, i);
        order, done, todo := order + [i], done + {i}, todo - {i};
      }
      assert done == before.Keys;
    }

    /** Discover new sibling logs, then bring every reader up to date. */
    method Poll(listed: seq<int>, files: map<int, bytes>, now: int)
        returns (ghost order: seq<int>, ghost victims: seq<Code>)
      requires Valid() && me !in listed
      modifies this`index, this`stray, this`readers, this`lastPoll
      ensures Valid() && lastPoll == now && IsOrderOf(order, readers.Keys)
      ensures var known := WithListed(old(readers), listed); readers == ReadersAfter(known, files, known.Keys)
      ensures Holds(old(Memory()), Polled(order, old(readers), files), victims)
    {
      Discover(listed);
      order, victims := ReadAll(files);
      PolledSame(order, old(readers), WithListed(old(readers), listed), files);
      lastPoll := now;
    }

    /** Reads one sibling's log, known before or not. */
    method TailNamed(owner: int, files: map<int, bytes>, now: int) returns (ghost victims: seq<Code>)
      requires Valid() && owner != me
      modifies this`index, this`stray, this`readers, this`lastPoll
      ensures Valid() && lastPoll == now
      ensures readers == old(readers)[owner := Caught(At(old(readers), owner), FileOf(files, owner)).0]
      ensures Holds(old(Memory()), Delivered(old(readers), owner, files), victims)
    {
      if owner !in readers {
        readers := readers[owner := NEW_READER];
      }
      victims := Tail(owner, files);
      lastPoll := now;
    }

    /** What a lookup miss does: read exactly the log the code's prefix names, or, for an own or
        unknown prefix, poll everything if the last poll is old enough. */
    method TailMissed(code: Code, now: int, listed: seq<int>, files: map<int, bytes>)
        returns (ghost order: seq<int>, ghost victims: seq<Code>)
      requires Valid() && me !in listed
      modifies this`index, this`stray, this`readers, this`lastPoll
      ensures Valid()
      ensures Holds(old(Memory()), Polled(order, old(readers), files), victims)
      ensures WhatMissReads(order, code, Owner(code), now - old(lastPoll), readers.Keys)
      ensures persistent && 0 <= Owner(code) && Owner(code) != me ==>
                order == [Owner(code)] && lastPoll == now &&
                readers == old(readers)[Owner(code) :=
                  Caught(At(old(readers), Owner(code)), FileOf(files, Owner(code))).0]
      ensures persistent && code != [] && (Owner(code) < 0 || Owner(code) == me) && now - old(lastPoll) >= 200 ==>
                ReadsAll(order, old(readers), readers, listed, files) && lastPoll == now
      ensures !persistent || code == [] ||
              ((Owner(code) < 0 || Owner(code) == me) && now - old(lastPoll) < 200) ==>
                order == [] && readers == old(readers) && lastPoll == old(lastPoll)
    {
      order, victims := [], [];
      if code == [] || !persistent {
        return;
      }
      var owner := AlphaIdx(code[0]);
      assert Owner(code) == owner;
      if owner >= 0 && owner != me {
        PolledOne(owner, readers, files);
        victims := TailNamed(owner, files, now);
        order := [owner];
        return;
      }
      if now - lastPoll >= TAIL_MIN_INTERVAL {
        order, victims := Poll(listed, files, now);
      }
    }

    /** Every sibling known or listed is read to the end of its log, once. */
    ghost predicate ReadsAll(order: seq<int>, before: map<int, Reader>, after: map<int, Reader>, listed: seq<int>,
                             files: map<int, bytes>)
    {
      IsOrderOf(order, after.Keys) && (forall i :: i in after <==> i in before || i in listed) &&
      forall i :: i in after ==> after[i] == Caught(At(before, i), FileOf(files, i)).0
    }

    /** The sibling logs a lookup miss reads, in order; `age` is the time since the last poll. */
    ghost predicate WhatMissReads(order: seq<int>, code: Code, owner: int, age: int, known: set<int>) {
      if code == [] || !persistent then order == []
      else if owner >= 0 && owner != me then order == [owner]
      else if age < TAIL_MIN_INTERVAL then order == []
      else IsOrderOf(order, known)
    }

    method CountServed(code: Code)
      requires Valid() && code in index
      modifies this`index, this`dirty
      ensures Valid() && Memory() == CountHit(old(Memory()), code) && dirty == Dirtied(old(dirty), code)
    {
      var en := index[code];
      index := index[code := en.(h := en.h + 1, oh := en.oh + 1)];
      dirty := dirty[code := (if code in dirty then dirty[code] else 0) + 1];
    }

    /** The target url, or None for a miss or an expired link; counts a hit when it serves one.
        `now` and `later` are the two readings of the clock. */
    method Resolve(code: Code, now: int, later: int, listed: seq<int>, files: map<int, bytes>)
        returns (r: Option<bytes>, ghost order: seq<int>, ghost victims: seq<Code>)
      requires Valid() && me !in listed
      modifies this`index, this`stray, this`readers, this`lastPoll, this`dirty
      ensures Valid()
      ensures code in old(index) ==> order == []
      ensures code !in old(index) ==> WhatMissReads(order, code, Owner(code), now - old(lastPoll), readers.Keys)
      ensures |victims| == |Polled(order, old(readers), files)|
      ensures persistent && code !in old(index) && 0 <= Owner(code) && Owner(code) != me ==>
                var (reader, lines) := Caught(At(old(readers), Owner(code)), FileOf(files, Owner(code)));
                |victims| == |DecodeAll(lines)| && readers == old(readers)[Owner(code) := reader] && lastPoll == now &&
                r == Served(Fold(old(Memory()), me, DecodeAll(lines), victims), code, later)
      ensures persistent && code !in old(index) && code != [] && (Owner(code) < 0 || Owner(code) == me) &&
              now - old(lastPoll) >= 200 ==>
                ReadsAll(order, old(readers), readers, listed, files) && lastPoll == now
      ensures code in old(index) || !persistent || code == [] ||
              ((Owner(code) < 0 || Owner(code) == me) && now - old(lastPoll) < 200) ==>
                order == [] && readers == old(readers) && lastPoll == old(lastPoll)
      ensures var at := if code in old(index) then now else later;
              var m := Fold(old(Memory()), me, Polled(order, old(readers), files), victims);
              r == Served(m, code, at) && Memory() == AfterServing(m, code, at, track)
      ensures dirty == if track && r.Some? then Dirtied(old(dirty), code) else old(dirty)
    {
      order, victims := [], [];
      if code in index {
        if index[code].e == 0 || index[code].e > now {
          r := Some(index[code].u);
          if track {
            CountServed(code);
          }
          return;
        }
        return None, [], [];
      }
      if !persistent {
        return None, [], [];
      }
      order, victims := TailMissed(code, now, listed, files);
      if 0 <= Owner(code) && Owner(code) != me {
        PolledOne(Owner(code), old(readers), files);
      }
      if code in index && (index[code].e == 0 || index[code].e > later) {
        r := Some(index[code].u);
        if track {
          CountServed(code);
        }
        return;
      }
      r := None;
    }

    // ---- creating links ----

    /** Queue a new link's row, writing the queue out once it is long. */
    method LogRow(code: Code, url: bytes, a: int, e: int)
      requires 0 <= me < MAX_INSTANCES && IsI64(a) && IsI64(e)
      modifies log
      ensures Recorded() ==
              if persistent then old(Recorded()) + EncodeLog([Row(code, url, a, e, me, 0)]) else old(Recorded())
      ensures old(log.file) <= log.file && (persistent ==> |log.buf| <= 262_144)
    {
      if persistent {
        var line := RowText(code, url, a, e, me, 0);
        log.Push(line);
        var n := log.PendingBytes();
        if n > FLUSH_BYTES {
          log.Flush();
        }
      }
    }

    /** Create one link: under the alias if it is free, else under the first drawn code that is. */
    method Shorten(url: bytes, alias: Option<Code>, ttl: int, now: int, draws: seq<Draw>) returns (r: Minted)
      requires Valid() && IsI64(now) && IsI64(ExpiryAt(now, ttl))
      modifies this`index, log
      ensures Valid()
      ensures r.Minted? ==> r.code !in old(index) && Memory() == Mint(old(Memory()), me, r.code, url, now, ttl)
      ensures r.Minted? && persistent ==> Recorded() == old(Recorded()) + EncodeLog([MintOp(me, r.code, url, now, ttl)])
      ensures r.Minted? ==> index == old(index)[r.code := Entry(url, now, if ttl > 0 then now + ttl else 0, me, 0, 0)]
      ensures r.Minted? && persistent ==>
                Recorded() == old(Recorded()) +
                              EncodeLog([Row(r.code, url, now, if ttl > 0 then now + ttl else 0, me, 0)])
      ensures r.Minted? && persistent ==> |log.buf| <= 262_144
      ensures !r.Minted? || !persistent ==> Recorded() == old(Recorded())
      ensures !r.Minted? ==> Memory() == old(Memory())
      ensures alias.Some? ==> r == if alias.value in old(index) then Taken else Minted(alias.value)
      ensures alias.None? && r.Minted? ==>
                exists k :: 0 <= k < |draws| && r.code == GenCode(me, draws[k]) &&
                            forall j :: 0 <= j < k ==> GenCode(me, draws[j]) in old(index)
      ensures alias.None? && !r.Minted? ==> r.NoDraw? && forall d :: d in draws ==> GenCode(me, d) in old(index)
    {
      var e := if ttl > 0 then now + ttl else 0;
      var code;
      match alias {
        case Some(a) =>
          if a in index {
            return Taken;
          }
          code := a;
        case None =>
          var k := 0;
          while k < |draws| && GenCode(me, draws[k]) in index
            invariant k <= |draws|
            invariant forall j :: 0 <= j < k ==> GenCode(me, draws[j]) in index
          {
            k := k + 1;
          }
          if k == |draws| {
            return NoDraw;
          }
          code := GenCode(me, draws[k]);
      }
      index := index[code := Entry(url, now, e, me, 0, 0)];
      LogRow(code, url, now, e);
      r := Minted(code);
    }

    method QueueRaw(raw: bytes)
      modifies log
      ensures Recorded() == old(Recorded()) + raw && old(log.file) <= log.file && |log.buf| <= 262_144
    {
      log.PushRaw(raw);
      var n := log.PendingBytes();
      if n > FLUSH_BYTES {
        log.Flush();
      }
    }

    /** The first free code among one draw and the unused spare draws. */
    method FreeCode(first: Draw, spare: seq<Draw>, used: nat) returns (r: Minted, used': nat)
      requires 0 <= me < MAX_INSTANCES && used <= |spare|
      ensures used <= used' <= |spare| && !r.Taken?
      ensures r.Minted? ==> r.code !in index && CodeOk(r.code) && Owner(r.code) == me
    {
      var code := GenCode(me, first);
      used' := used;
      GeneratedCodeIsOwned(me, first);
      while code in index
        invariant used <= used' <= |spare|
        invariant CodeOk(code) && Owner(code) == me
        decreases |spare| - used'
      {
        if used' == |spare| {
          return NoDraw, used';
        }
        code := GenCode(me, spare[used']);
        GeneratedCodeIsOwned(me, spare[used']);
        used' := used' + 1;
      }
      r := Minted(code);
    }

    method MintNext(code: Code, url: bytes, at: int, e: int, lines: bytes,
                    ghost urls: seq<bytes>, ghost codes: seq<Code>, ghost was: map<Code, Entry>)
        returns (lines': bytes)
      requires Valid() && IsI64(at) && IsI64(e) && code !in index && |codes| < |urls| && url == urls[|codes|]
      requires MintedAll(was, index, codes, urls, me, at, e)
      requires persistent ==> lines == EncodeLog(RowsOf(codes, urls, me, at, e))
      modifies this`index
      ensures Valid() && MintedAll(was, index, codes + [code], urls, me, at, e)
      ensures persistent ==> lines' == EncodeLog(RowsOf(codes + [code], urls, me, at, e))
    {
      MintedNext(was, index, codes, urls, me, at, e, code);
      RowsNext(codes, urls, me, at, e, code);
      index := index[code := Entry(url, at, e, me, 0, 0)];
      lines' := lines;
      if persistent {
        lines' := AppendRow(lines, code, url, at, e, me, 0, RowsOf(codes, urls, me, at, e));
      }
    }

    /** Create a batch: one code per url, in input order, all rows in one write. `done` is false
        when the draws given ran out, which the program does not let happen. */
    method ShortenMany(urls: seq<bytes>, ttl: int, now: int, draws: seq<Draw>, spare: seq<Draw>)
        returns (done: bool, codes: seq<Code>)
      requires Valid() && IsI64(now) && IsI64(ExpiryAt(now, ttl)) && |draws| == |urls|
      modifies this`index, log
      ensures Valid()
      ensures MintedAll(old(index), index, codes, urls, me, now, if ttl > 0 then now + ttl else 0)
      ensures forall k :: 0 <= k < |codes| ==> CodeOk(codes[k]) && Owner(codes[k]) == me
      ensures done ==> |codes| == |urls|
      ensures Recorded() == if done && persistent
                            then old(Recorded()) +
                                 EncodeLog(RowsOf(codes, urls, me, now, if ttl > 0 then now + ttl else 0))
                            else old(Recorded())
      ensures done && persistent ==> |log.buf| <= 262_144
    {
      var e := if ttl > 0 then now + ttl else 0;
      codes, done := [], false;
      var lines: bytes, used := [], 0;
      for i := 0 to |urls|
        invariant Valid() && |codes| == i && used <= |spare|
        invariant log.file == old(log.file) && log.buf == old(log.buf)
        invariant MintedAll(old(index), index, codes, urls, me, now, e)
        invariant forall k :: 0 <= k < |codes| ==> CodeOk(codes[k]) && Owner(codes[k]) == me
        invariant persistent ==> lines == EncodeLog(RowsOf(codes, urls, me, now, e))
      {
        var r;
        r, used := FreeCode(draws[i], spare, used);
        if r.NoDraw? {
          return;
        }
        lines := MintNext(r.code, urls[i], now, e, lines, urls, codes, old(index));
        codes := codes + [r.code];
      }
      if persistent {
        QueueRaw(lines);
      }
      done := true;
    }

    // ---- owner-only changes ----

    method Update(code: Code, url: bytes, ttl: int, hasTtl: bool, now: int) returns (r: MutResult)
      requires Valid() && (hasTtl ==> IsI64(ExpiryAt(now, ttl)))
      modifies this`index, log
      ensures Valid() && r == MayMutate(old(Memory()), me, code) && log.file == old(log.file)
      ensures r.Missing? <==> code !in old(index)
      ensures r.Remote? <==> code in old(index) && old(index)[code].i != me
      ensures r.Done? ==>
                var en := old(index)[code];
                var e := if !hasTtl then en.e else if ttl > 0 then now + ttl else 0;
                index == old(index)[code := en.(u := url, e := e)] &&
                (persistent ==> Recorded() == old(Recorded()) + EncodeLog([Row(code, url, en.a, e, me, 0)]))
      ensures r.Done? ==> Memory() == Updated(old(Memory()), code, url, now, ttl, hasTtl)
      ensures r.Done? && persistent ==>
                Recorded() == old(Recorded()) + EncodeLog([UpdateOp(old(Memory()), me, code, url, now, ttl, hasTtl)])
      ensures !r.Done? || !persistent ==> Recorded() == old(Recorded())
      ensures !r.Done? ==> Memory() == old(Memory())
    {
      if code !in index {
        return Missing;
      }
      var en := index[code];
      if en.i != me {
        return Remote;
      }
      var e := if hasTtl then (if ttl > 0 then now + ttl else 0) else en.e;
      index := index[code := en.(u := url, e := e)];
      if persistent {
        var line := RowText(code, url, en.a, e, me, 0);
        log.Push(line);
      }
      r := Done;
    }

    method Remove(code: Code) returns (r: MutResult)
      requires Valid()
      modifies this`index, log
      ensures Valid() && r == MayMutate(old(Memory()), me, code) && log.file == old(log.file)
      ensures r.Missing? <==> code !in old(index)
      ensures r.Remote? <==> code in old(index) && old(index)[code].i != me
      ensures r.Done? ==> index == old(index) - {code}
      ensures r.Done? ==> Memory() == Removed(old(Memory()), code)
      ensures r.Done? && persistent ==> Recorded() == old(Recorded()) + EncodeLog([Del(code)])
      ensures !r.Done? || !persistent ==> Recorded() == old(Recorded())
      ensures !r.Done? ==> Memory() == old(Memory())
    {
      if code !in index {
        return Missing;
      }
      if index[code].i != me {
        return Remote;
      }
      index := index - {code};
      if persistent {
        var line := DelText(code);
        log.Push(line);
      }
      r := Done;
    }

    // ---- flush and compact ----

    /** Writes one line per code with unflushed hits, after everything already queued. */
    method FlushLocked() returns (ghost ops: seq<LogOp>)
      requires 0 <= me < MAX_INSTANCES && forall c :: c in dirty ==> IsI64(dirty[c])
      modifies this`dirty, log
      ensures persistent ==>
                dirty == map[] && Drains(ops, old(dirty), me) && log.buf == [] &&
                log.file == old(Recorded()) + EncodeLog(ops)
      ensures !persistent ==> dirty == old(dirty) && log.buf == old(log.buf) && log.file == old(log.file)
    {
      ops := [];
      if !persistent {
        return;
      }
      var lines: bytes := [];
      var todo := dirty.Keys;
      ghost var done: set<Code> := {};
      while todo != {}
        invariant dirty == old(dirty) && dirty.Keys == done + todo && done !! todo
        invariant DrainsOf(ops, dirty, me, done) && lines == EncodeLog(ops)
        invariant log.buf == old(log.buf) && log.file == old(log.file)
      {
        var c := Pick(todo);
        lines := AppendHit(lines, c, dirty[c], me, ops);
        DrainNext(ops, dirty, me, done, c);
        ops, done, todo := ops + [Hit(c, dirty[c], me)], done + {c}, todo - {c};
      }
      dirty := map[];
      log.PushRaw(lines);
      log.Flush();
    }

    /** Rewrite the own rows as a snapshot, then empty the log. */
    method Compact() returns (ghost rows: seq<LogOp>)
      requires Valid() && (forall c :: c in dirty ==> IsI64(dirty[c])) &&
        (forall c :: c in index ==> IsI64(index[c].oh))
      modifies this`dirty, this`snap, log
      ensures Valid()
      ensures persistent ==>
                dirty == map[] && log.buf == [] && log.file == [] &&
                Snapshots(rows, index, me) && snap == EncodeLog(rows)
      ensures !persistent ==> dirty == old(dirty) && snap == old(snap)
      ensures !persistent ==> log.buf == old(log.buf) && log.file == old(log.file)
    {
      rows := [];
      if !persistent {
        return;
      }
      ghost var ops := FlushLocked();
      var tmp: bytes := [];
      var todo := index.Keys;
      ghost var done: set<Code> := {};
      while todo != {}
        invariant index.Keys == done + todo && done !! todo
        invariant SnapshotsOf(rows, index, me, done) && tmp == EncodeLog(rows)
        invariant dirty == map[]
      {
        var c := Pick(todo);
        SnapshotNext(rows, index, me, done, c);
        var en := index[c];
        if en.i == me {
          tmp := AppendRow(tmp, c, en.u, en.a, en.e, en.i, en.oh, rows);
          rows := rows + [SnapshotRow(c, en)];
        }
        done, todo := done + {c}, todo - {c};
      }
      snap := tmp;
      log.Truncate();
    }
  }
}
