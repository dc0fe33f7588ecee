/** The built-in server's connection loop: bytes arrive in arbitrary pieces, requests come out. The
    HTTP parser and the request handler are parameters. */
module MiniServer {
  import opened Bytes

  const MAX_BODY: nat := 4096
  const MAX_BULK_BODY: nat := 1_048_576

  datatype Head = Head(verb: bytes, path: bytes, version: int, headers: seq<(bytes, bytes)>)

  /** What the parser says of a buffer; `len` is where a complete head ends. */
  datatype Parsed = Partial | Bad | Complete(head: Head, len: nat)

  type Parser = bytes -> Parsed

  /** More bytes never change a verdict once it is reached; no bytes are no verdict. */
  ghost predicate Stable(p: Parser) {
    p([]).Partial? &&
    (forall s: bytes :: p(s).Complete? ==> 1 <= p(s).len <= |s|) &&
    (forall s: bytes, t: bytes {:trigger p(s + t)} ::
       (p(s).Complete? ==> p(s + t) == p(s)) && (p(s).Bad? ==> p(s + t).Bad?))
  }

  /** What the loop takes from a head: how long the body is, whether that is too long, and whether
      the connection stays open. */
  datatype Ask = Ask(body: nat, tooBig: bool, alive: bool)

  type Rules = Head -> Ask

  // ---- what a head asks for ----

  function Lower(b: byte): byte {
    if 65 <= b <= 90 then b + 32 else b
  }

  predicate SameIgnoringCase(a: bytes, b: bytes) {
    |a| == |b| && forall i :: 0 <= i < |a| ==> Lower(a[i]) == Lower(b[i])
  }

  function HeaderVal(hs: seq<(bytes, bytes)>, name: bytes): Option<bytes> {
    if hs == [] then None
    else if SameIgnoringCase(hs[0].0, name) then Some(hs[0].1)
    else HeaderVal(hs[1..], name)
  }

  const POST: bytes := [80, 79, 83, 84]
  const PATCH: bytes := [80, 65, 84, 67, 72]
  const CLOSE: bytes := [99, 108, 111, 115, 101]
  const CONNECTION: bytes := [99, 111, 110, 110, 101, 99, 116, 105, 111, 110]
  const CONTENT_LENGTH: bytes := [99, 111, 110, 116, 101, 110, 116, 45, 108, 101, 110, 103, 116, 104]
  const BULK_PATH: bytes := [47, 97, 112, 105, 47, 115, 104, 111, 114, 116, 101, 110, 47, 98, 117, 108, 107]

  predicate KeepAlive(h: Head) {
    match HeaderVal(h.headers, CONNECTION)
    case Some(v) => !SameIgnoringCase(v, CLOSE)
    case None => h.version == 1
  }

  /** str::parse::<usize> on 64 bits. */
  function ParseUsize(t: bytes): Option<nat> {
    var d := if t != [] && t[0] == PLUS then t[1..] else t;
    if d == [] || !AllDigits(d) || DigitsValue(d) >= 0x1_0000_0000_0000_0000 then None else Some(DigitsValue(d))
  }

  function ContentLength(h: Head): nat {
    match HeaderVal(h.headers, CONTENT_LENGTH)
    case None => 0
    case Some(v) => if !ValidUtf8(v) then 0 else match ParseUsize(Trim(v)) case None => 0 case Some(n) => n
  }

  predicate NeedsBody(h: Head) {
    h.verb == POST || h.verb == PATCH
  }

  function BodyLimit(h: Head): nat {
    if h.path[..IndexOf(h.path, 63)] == BULK_PATH then MAX_BULK_BODY else MAX_BODY
  }

  function AskOf(h: Head): Ask {
    Ask(if NeedsBody(h) then ContentLength(h) else 0, NeedsBody(h) && ContentLength(h) > BodyLimit(h), KeepAlive(h))
  }

  // ---- the whole stream at once ----

  datatype Call = Call(head: Head, body: bytes)

  datatype Ending = Waiting(rest: bytes) | Malformed | Oversized | Closing

  datatype Served = Served(calls: seq<Call>, end: Ending)

  function Joined(calls: seq<Call>, s: Served): Served {
    Served(calls + s.calls, s.end)
  }

  /** The requests a stretch of bytes holds, and why serving stops after them. */
  ghost function Serve(p: Parser, q: Rules, s: bytes): Served
    requires Stable(p)
    decreases |s|
  {
    match p(s)
    case Partial => Served([], Waiting(s))
    case Bad => Served([], Malformed)
    case Complete(h, n) =>
      if q(h).tooBig then Served([], Oversized)
      else if |s| < n + q(h).body then Served([], Waiting(s))
      else if !q(h).alive then Served([Call(h, s[n..n + q(h).body])], Closing)
      else Joined([Call(h, s[n..n + q(h).body])], Serve(p, q, s[n + q(h).body..]))
  }

  lemma JoinedTwice(a: seq<Call>, b: seq<Call>, s: Served)
    ensures Joined(a, Joined(b, s)) == Joined(a + b, s)
  {
    assert a + (b + s.calls) == (a + b) + s.calls;
  }

  /** Bytes that arrive later are served as if they had been there, from where serving waits. */
  lemma {:induction false} ServeMore(p: Parser, q: Rules, s: bytes, t: bytes)
    requires Stable(p)
    ensures var r := Serve(p, q, s);
            Serve(p, q, s + t) == match r.end case Waiting(rest) => Joined(r.calls, Serve(p, q, rest + t))
                                           case Malformed => r case Oversized => r case Closing => r
    decreases |s|
  {
    match p(s)
    case Partial =>
      assert [] + Serve(p, q, s + t).calls == Serve(p, q, s + t).calls;
    case Bad =>
      assert p(s + t).Bad?;
    case Complete(h, n) =>
      assert p(s + t) == p(s);
      var total := n + q(h).body;
      if q(h).tooBig {
      } else if |s| < total {
        assert [] + Serve(p, q, s + t).calls == Serve(p, q, s + t).calls;
      } else {
        ServeMoreAfter(p, q, s, t, h, n);
      }
  }

  lemma ServeMoreAfter(p: Parser, q: Rules, s: bytes, t: bytes, h: Head, n: nat)
    requires Stable(p) && p(s) == Complete(h, n) && p(s + t) == p(s) && !q(h).tooBig && n + q(h).body <= |s|
    ensures var r := Serve(p, q, s);
            Serve(p, q, s + t) == match r.end case Waiting(rest) => Joined(r.calls, Serve(p, q, rest + t))
                                           case Malformed => r case Oversized => r case Closing => r
    decreases |s|, 0
  {
    var total := n + q(h).body;
    assert (s + t)[n..total] == s[n..total];
    if q(h).alive {
      var call := [Call(h, s[n..total])];
      assert (s + t)[total..] == s[total..] + t;
      ServeMore(p, q, s[total..], t);
      var r := Serve(p, q, s[total..]);
      if r.end.Waiting? {
        JoinedTwice(call, r.calls, Serve(p, q, r.end.rest + t));
      }
    }
  }

  /** What is left waiting holds no complete request. */
  lemma {:induction false} WaitingIsIdle(p: Parser, q: Rules, s: bytes)
    requires Stable(p) && Serve(p, q, s).end.Waiting?
    ensures var r := Serve(p, q, s).end.rest; Serve(p, q, r) == Served([], Waiting(r))
    decreases |s|
  {
    if p(s).Complete? {
      var total := p(s).len + q(p(s).head).body;
      if |s| >= total {
        WaitingIsIdle(p, q, s[total..]);
      }
    }
  }

  // ---- in pieces ----

  /** The reply to the last of a connection's calls so far; never empty. */
  type Handler = seq<Call> -> bytes

  ghost predicate Answers(f: Handler) {
    forall calls :: f(calls) != []
  }

  function Replies(f: Handler, before: seq<Call>, calls: seq<Call>): bytes {
    if calls == [] then []
    else Replies(f, before, calls[..|calls| - 1]) + f(before + calls)
  }

  lemma {:induction false} RepliesAppend(f: Handler, before: seq<Call>, a: seq<Call>, b: seq<Call>)
    ensures Replies(f, before, a + b) == Replies(f, before, a) + Replies(f, before + a, b)
  {
    if b == [] {
      assert a + b == a;
    } else {
      var n := |b| - 1;
      RepliesAppend(f, before, a, b[..n]);
      assert (a + b)[..|a + b| - 1] == a + b[..n];
      assert before + (a + b) == before + a + b;
    }
  }

  /** Bytes held, calls made, bytes written, and whether the connection is still open. */
  datatype Conn = Conn(buf: bytes, calls: seq<Call>, written: bytes, open: bool)

  const FRESH: Conn := Conn([], [], [], true)

  /** One read. Replies are written once per read; a malformed request closes the connection with
      the replies of its own read still unwritten. */
  ghost function OnRead(p: Parser, q: Rules, f: Handler, oversize: bytes, c: Conn, chunk: bytes): Conn
    requires Stable(p)
  {
    if !c.open then c
    else
      var r := Serve(p, q, c.buf + chunk);
      var replies := Replies(f, c.calls, r.calls);
      match r.end
      case Waiting(rest) => Conn(rest, c.calls + r.calls, c.written + replies, true)
      case Malformed => Conn([], c.calls + r.calls, c.written, false)
      case Oversized => Conn([], c.calls + r.calls, c.written + replies + oversize, false)
      case Closing => Conn([], c.calls + r.calls, c.written + replies, false)
  }

  ghost function Reads(p: Parser, q: Rules, f: Handler, oversize: bytes, chunks: seq<bytes>): Conn
    requires Stable(p)
  {
    if chunks == [] then FRESH
    else OnRead(p, q, f, oversize, Reads(p, q, f, oversize, chunks[..|chunks| - 1]), chunks[|chunks| - 1])
  }

  function Stream(chunks: seq<bytes>): bytes {
    if chunks == [] then [] else Stream(chunks[..|chunks| - 1]) + chunks[|chunks| - 1]
  }

  /** The connection after some reads is the stream so far served at once. */
  ghost predicate Tracks(f: Handler, oversize: bytes, c: Conn, r: Served) {
    c.calls == r.calls && (c.open <==> r.end.Waiting?) && (r.end.Waiting? ==> c.buf == r.end.rest) &&
    (!r.end.Malformed? ==> c.written == Replies(f, [], r.calls) + if r.end.Oversized? then oversize else [])
  }

  lemma ReadTracks(p: Parser, q: Rules, f: Handler, oversize: bytes, c: Conn, s: bytes, chunk: bytes)
    requires Stable(p) && Tracks(f, oversize, c, Serve(p, q, s))
    ensures Tracks(f, oversize, OnRead(p, q, f, oversize, c, chunk), Serve(p, q, s + chunk))
  {
    ServeMore(p, q, s, chunk);
    if c.open {
      var r := Serve(p, q, c.buf + chunk);
      RepliesAppend(f, [], c.calls, r.calls);
      assert [] + c.calls == c.calls;
      assert Replies(f, [], c.calls) + [] == Replies(f, [], c.calls);
      var replies := Replies(f, [], c.calls) + Replies(f, c.calls, r.calls);
      assert replies + [] == replies;
    }
  }

  lemma {:induction false} ReadsTrack(p: Parser, q: Rules, f: Handler, oversize: bytes, chunks: seq<bytes>)
    requires Stable(p)
    ensures Tracks(f, oversize, Reads(p, q, f, oversize, chunks), Serve(p, q, Stream(chunks)))
  {
    if chunks == [] {
      assert Stream(chunks) == [] && Serve(p, q, []) == Served([], Waiting([]));
    } else {
      var n := |chunks| - 1;
      ReadsTrack(p, q, f, oversize, chunks[..n]);
      ReadTracks(p, q, f, oversize, Reads(p, q, f, oversize, chunks[..n]), Stream(chunks[..n]), chunks[n]);
    }
  }

  /** However the same bytes are split into reads, the handler gets the same requests with the same
      bodies, and the connection ends up in the same state. */
  lemma SameCalls(p: Parser, q: Rules, f: Handler, oversize: bytes, a: seq<bytes>, b: seq<bytes>)
    requires Stable(p) && Stream(a) == Stream(b)
    ensures var ca, cb := Reads(p, q, f, oversize, a), Reads(p, q, f, oversize, b);
            ca.calls == cb.calls && ca.open == cb.open && (ca.open ==> ca.buf == cb.buf)
    ensures Reads(p, q, f, oversize, a).calls == Serve(p, q, Stream(a)).calls
  {
    ReadsTrack(p, q, f, oversize, a);
    ReadsTrack(p, q, f, oversize, b);
  }

  /** Without a malformed request the bytes written are the same too: one reply per request, in order. */
  lemma SameReplies(p: Parser, q: Rules, f: Handler, oversize: bytes, chunks: seq<bytes>)
    requires Stable(p) && !Serve(p, q, Stream(chunks)).end.Malformed?
    ensures var r := Serve(p, q, Stream(chunks));
            Reads(p, q, f, oversize, chunks).written ==
              Replies(f, [], r.calls) + if r.end.Oversized? then oversize else []
  {
    ReadsTrack(p, q, f, oversize, chunks);
  }

  // ---- what a malformed request does to the replies before it ----

  ghost predicate SplitInvisible(p: Parser, q: Rules, f: Handler, oversize: bytes, s: bytes)
    requires Stable(p)
  {
    forall chunks :: Stream(chunks) == s ==>
      Reads(p, q, f, oversize, chunks).written == Reads(p, q, f, oversize, [s]).written
  }

  lemma StreamOne(s: bytes)
    ensures Stream([s]) == s
  {
    assert [s][..0] == [];
  }

  lemma StreamTwo(s: bytes, t: bytes)
    ensures Stream([s, t]) == s + t
  {
    assert [s, t][..1] == [s];
    StreamOne(s);
  }

  lemma AtOnce(p: Parser, q: Rules, f: Handler, oversize: bytes, s: bytes)
    requires Stable(p)
    ensures Reads(p, q, f, oversize, [s]) == OnRead(p, q, f, oversize, FRESH, s)
  {
    assert [s][..0] == [];
  }

  lemma TwoReads(p: Parser, q: Rules, f: Handler, oversize: bytes, s: bytes, t: bytes)
    requires Stable(p)
    ensures Reads(p, q, f, oversize, [s, t]) == OnRead(p, q, f, oversize, OnRead(p, q, f, oversize, FRESH, s), t)
  {
    assert [s, t][..1] == [s];
    AtOnce(p, q, f, oversize, s);
  }

  lemma {:induction false} MalformedWritesNothing(p: Parser, q: Rules, f: Handler, oversize: bytes, chunks: seq<bytes>)
    requires Stable(p) && Serve(p, q, Stream(chunks)).end.Malformed? && Serve(p, q, Stream(chunks)).calls == []
    ensures Reads(p, q, f, oversize, chunks).written == []
  {
    if chunks != [] {
      var n := |chunks| - 1;
      var c := Reads(p, q, f, oversize, chunks[..n]);
      var s := Stream(chunks[..n]);
      ReadsTrack(p, q, f, oversize, chunks[..n]);
      ServeMore(p, q, s, chunks[n]);
      if Serve(p, q, s).end.Malformed? {
        MalformedWritesNothing(p, q, f, oversize, chunks[..n]);
      }
    }
  }

  /** The parser needs nothing past the end of a head to recognise it. */
  ghost predicate Prompt(p: Parser) {
    forall s: bytes :: p(s).Complete? && p(s).len <= |s| ==> p(s[..p(s).len]) == p(s)
  }

  lemma ServeOne(p: Parser, q: Rules, s: bytes, h: Head, n: nat)
    requires Stable(p) && p(s) == Complete(h, n) && !q(h).tooBig && n + q(h).body <= |s|
    ensures var call := Call(h, s[n..n + q(h).body]);
            Serve(p, q, s) ==
              if q(h).alive then Joined([call], Serve(p, q, s[n + q(h).body..])) else Served([call], Closing)
  {
  }

  lemma PromptHead(p: Parser, s: bytes, n: nat)
    requires Stable(p) && Prompt(p) && p(s).Complete? && p(s).len <= n <= |s|
    ensures p(s[..n]) == p(s)
  {
    var k := p(s).len;
    assert p(s[..k]) == p(s);
    assert s[..k] + s[k..n] == s[..n];
    assert p(s[..k] + s[k..n]) == p(s[..k]);
  }

  /** A request that arrives alone is answered before anything after it is looked at. */
  lemma FirstAlone(p: Parser, q: Rules, s: bytes) returns (n: nat, call: Call)
    requires Stable(p) && Prompt(p) && Serve(p, q, s).calls != [] && Serve(p, q, s).end.Malformed?
    ensures n <= |s| && Serve(p, q, s[..n]) == Served([call], Waiting([]))
  {
    var h, k := p(s).head, p(s).len;
    n := k + q(h).body;
    call := Call(h, s[..n][k..n]);
    PromptHead(p, s, n);
    ServeOne(p, q, s[..n], h, k);
    assert s[..n][n..] == [];
    assert Serve(p, q, []) == Served([], Waiting([]));
    assert [call] + [] == [call];
  }

  lemma OneReply(f: Handler, call: Call)
    ensures Replies(f, [], [call]) == f([call])
  {
    assert [call][..0] == [] && [] + [call] == [call];
    assert [] + f([call]) == f([call]);
  }

  lemma OnlyAppends(p: Parser, q: Rules, f: Handler, oversize: bytes, c: Conn, chunk: bytes)
    requires Stable(p)
    ensures |OnRead(p, q, f, oversize, c, chunk).written| >= |c.written|
  {
  }

  lemma FirstIsWritten(p: Parser, q: Rules, f: Handler, oversize: bytes, s: bytes, t: bytes, call: Call)
    requires Stable(p) && Answers(f) && Serve(p, q, s) == Served([call], Waiting([]))
    ensures Reads(p, q, f, oversize, [s, t]).written != []
  {
    TwoReads(p, q, f, oversize, s, t);
    var c := OnRead(p, q, f, oversize, FRESH, s);
    assert FRESH.buf + s == s;
    OneReply(f, call);
    assert c.written == FRESH.written + f([call]);
    OnlyAppends(p, q, f, oversize, c, t);
  }

  /** The bytes written depend on how the stream was split exactly when a malformed request comes
      after at least one good one: arriving together they are dropped without a reply. */
  lemma SplitInvisibleIff(p: Parser, q: Rules, f: Handler, oversize: bytes, s: bytes)
    requires Stable(p) && Prompt(p) && Answers(f)
    ensures SplitInvisible(p, q, f, oversize, s) <==> !(Serve(p, q, s).end.Malformed? && Serve(p, q, s).calls != [])
  {
    var r := Serve(p, q, s);
    StreamOne(s);
    if r.end.Malformed? && r.calls != [] {
      var n, call := FirstAlone(p, q, s);
      FirstIsWritten(p, q, f, oversize, s[..n], s[n..], call);
      AtOnce(p, q, f, oversize, s);
      assert [] + s == s;
      StreamTwo(s[..n], s[n..]);
      assert s[..n] + s[n..] == s;
    } else {
      forall chunks | Stream(chunks) == s
        ensures Reads(p, q, f, oversize, chunks).written == Reads(p, q, f, oversize, [s]).written
      {
        SameWritten(p, q, f, oversize, chunks, [s]);
      }
    }
  }

  lemma SameWritten(p: Parser, q: Rules, f: Handler, oversize: bytes, a: seq<bytes>, b: seq<bytes>)
    requires Stable(p) && Stream(a) == Stream(b)
    requires var r := Serve(p, q, Stream(a)); !(r.end.Malformed? && r.calls != [])
    ensures Reads(p, q, f, oversize, a).written == Reads(p, q, f, oversize, b).written
  {
    if Serve(p, q, Stream(a)).end.Malformed? {
      MalformedWritesNothing(p, q, f, oversize, a);
      MalformedWritesNothing(p, q, f, oversize, b);
    } else {
      SameReplies(p, q, f, oversize, a);
      SameReplies(p, q, f, oversize, b);
    }
  }

  // ---- the loop ----

  /** One turn of the inner loop: a reason to stop, or a request of `total` bytes. */
  datatype Turn = Stop(end: Ending) | Request(call: Call, total: nat, alive: bool)

  /** How a turn splits what was left to serve; `after` is what is left then. */
  predicate TurnOf(left: Served, t: Turn, after: Served) {
    match t
    case Stop(end) => left == Served([], end)
    case Request(call, total, alive) => left == if alive then Joined([call], after) else Served([call], Closing)
  }

  method NextRequest(p: Parser, q: Rules, rest: bytes) returns (t: Turn, ghost after: Served)
    requires Stable(p)
    ensures TurnOf(Serve(p, q, rest), t, after)
    ensures t.Stop? && t.end.Waiting? ==> t.end.rest == rest
    ensures t.Request? ==> 1 <= t.total <= |rest| && after == Serve(p, q, rest[t.total..])
  {
    after := Served([], Closing);
    match p(rest) {
      case Partial => t := Stop(Waiting(rest));
      case Bad => t := Stop(Malformed);
      case Complete(h, n) =>
        var ask := q(h);
        if ask.tooBig {
          return Stop(Oversized), after;
        }
        var total := n + ask.body;
        if |rest| < total {
          return Stop(Waiting(rest)), after;
        }
        ServeOne(p, q, rest, h, n);
        t := Request(Call(h, rest[n..total]), total, ask.alive);
        after := Serve(p, q, rest[total..]);
    }
  }

  /** Serves every complete request in the buffer: the calls made, the replies gathered, how far
      the buffer was consumed, and why it stopped. */
  method ServeBuffer(p: Parser, q: Rules, f: Handler, oversize: bytes, buf: bytes, before: seq<Call>)
      returns (calls: seq<Call>, out: bytes, off: nat, end: Ending)
    requires Stable(p)
    ensures off <= |buf| && Served(calls, end) == Serve(p, q, buf) && (end.Waiting? ==> end == Waiting(buf[off..]))
    ensures end.Oversized? ==> out == Replies(f, before, calls) + oversize
    ensures !end.Oversized? ==> out == Replies(f, before, calls)
  {
    calls, out, off, end := [], [], 0, Closing;
    ghost var all := Serve(p, q, buf);
    ghost var left := all;
    var rest := buf;
    NothingYet(all, buf);
    while true
      invariant off <= |buf| && rest == buf[off..] && all == Joined(calls, left) && left == Serve(p, q, rest)
      invariant out == Replies(f, before, calls)
      decreases |rest|
    {
      var t, after := NextRequest(p, q, rest);
      TurnTaken(calls, left, t, after);
      if t.Stop? {
        end := t.end;
        if end.Oversized? {
          out := out + oversize;
        }
        return;
      }
      RepliesNext(f, before, calls, t.call);
      DropDrop(buf, off, t.total);
      calls := calls + [t.call];
      out := out + f(before + calls);
      off, rest, left := off + t.total, rest[t.total..], after;
      if !t.alive {
        return;
      }
    }
  }

  lemma NothingYet(all: Served, buf: bytes)
    ensures all == Joined([], all) && buf[0..] == buf
  {
    assert [] + all.calls == all.calls;
  }

  lemma TurnTaken(calls: seq<Call>, left: Served, t: Turn, after: Served)
    requires TurnOf(left, t, after)
    ensures t.Stop? ==> Joined(calls, left) == Served(calls, t.end)
    ensures t.Request? && t.alive ==> Joined(calls, left) == Joined(calls + [t.call], after)
    ensures t.Request? && !t.alive ==> Joined(calls, left) == Served(calls + [t.call], Closing)
  {
    match t
    case Stop(end) => assert calls + [] == calls;
    case Request(call, total, alive) => JoinedTwice(calls, [call], after);
  }

  lemma RepliesNext(f: Handler, before: seq<Call>, calls: seq<Call>, call: Call)
    ensures Replies(f, before, calls + [call]) == Replies(f, before, calls) + f(before + (calls + [call]))
  {
    assert (calls + [call])[..|calls|] == calls;
  }

  /** One read of an open connection: the batch is served, its consumed part dropped, and its
      replies written unless a malformed request ended it. */
  method ReadOnce(p: Parser, f: Handler, oversize: bytes, c: Conn, chunk: bytes) returns (c': Conn)
    requires Stable(p) && c.open
    ensures c' == OnRead(p, AskOf, f, oversize, c, chunk)
  {
    var buf := c.buf + chunk;
    var more, out, off, end := ServeBuffer(p, AskOf, f, oversize, buf, c.calls);
    assert c.written + (Replies(f, c.calls, more) + oversize) == c.written + Replies(f, c.calls, more) + oversize;
    c' := Conn(if end.Waiting? then buf[off..] else [], c.calls + more,
               if end.Malformed? then c.written else c.written + out, end.Waiting?);
  }

  /** One connection, from its first read to its close or the end of the stream, where an
      unfinished request left in the buffer is looked at once more and dropped. */
  method HandleConn(p: Parser, f: Handler, oversize: bytes, chunks: seq<bytes>)
      returns (calls: seq<Call>, written: bytes)
    requires Stable(p) && forall k :: 0 <= k < |chunks| ==> chunks[k] != []
    ensures calls == Reads(p, AskOf, f, oversize, chunks).calls
    ensures written == Reads(p, AskOf, f, oversize, chunks).written
  {
    var c := FRESH;
    for i := 0 to |chunks|
      invariant c.open && c == Reads(p, AskOf, f, oversize, chunks[..i])
    {
      assert chunks[..i + 1][..i] == chunks[..i];
      c := ReadOnce(p, f, oversize, c, chunks[i]);
      if !c.open {
        ClosedStays(p, AskOf, f, oversize, chunks, i + 1);
        return c.calls, c.written;
      }
    }
    assert chunks[..|chunks|] == chunks;
    if c.buf != [] {
      LastLook(p, f, oversize, chunks);
      c := ReadOnce(p, f, oversize, c, []);
    }
    return c.calls, c.written;
  }

  lemma LastLook(p: Parser, f: Handler, oversize: bytes, chunks: seq<bytes>)
    requires Stable(p) && Reads(p, AskOf, f, oversize, chunks).open
    ensures var c := Reads(p, AskOf, f, oversize, chunks); OnRead(p, AskOf, f, oversize, c, []) == c
  {
    var c := Reads(p, AskOf, f, oversize, chunks);
    ReadsTrack(p, AskOf, f, oversize, chunks);
    WaitingIsIdle(p, AskOf, Stream(chunks));
    assert c.buf + [] == c.buf && c.calls + [] == c.calls && c.written + [] == c.written;
  }

  lemma {:induction false} ClosedStays(p: Parser, q: Rules, f: Handler, oversize: bytes, chunks: seq<bytes>, i: nat)
    requires Stable(p) && i <= |chunks| && !Reads(p, q, f, oversize, chunks[..i]).open
    ensures Reads(p, q, f, oversize, chunks) == Reads(p, q, f, oversize, chunks[..i])
  {
    if i == |chunks| {
      assert chunks[..i] == chunks;
    } else {
      var n := |chunks| - 1;
      assert chunks[..n][..i] == chunks[..i];
      ClosedStays(p, q, f, oversize, chunks[..n], i);
    }
  }
}
