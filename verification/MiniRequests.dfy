/** What the built-in server makes of a request's head: which body it takes, what it refuses, and whether
    it keeps the connection open. */
module MiniRequests {
  import opened Bytes
  import opened MiniServer

  // ---- headers ----

  /** The text `low`, whose letters are lower case, in any letter case. */
  predicate Spells(b: bytes, low: string) {
    |b| == |low| &&
    forall j :: 0 <= j < |b| ==> b[j] == low[j] as int || ('a' <= low[j] <= 'z' && b[j] == low[j] as int - 32)
  }

  predicate Absent(h: Head, name: string) {
    forall j :: 0 <= j < |h.headers| ==> !Spells(h.headers[j].0, name)
  }

  /** The first header of that name has value `v`. */
  ghost predicate Has(h: Head, name: string, v: bytes) {
    exists j :: FirstAt(h.headers, name, v, j)
  }

  predicate FirstAt(hs: seq<(bytes, bytes)>, name: string, v: bytes, j: nat) {
    j < |hs| && Spells(hs[j].0, name) && hs[j].1 == v && forall x :: 0 <= x < j ==> !Spells(hs[x].0, name)
  }

  /** `key` is the text `low` as it stands. */
  predicate Plainly(key: bytes, low: string) {
    |key| == |low| && forall j :: 0 <= j < |key| ==> key[j] == low[j] as int && !(65 <= key[j] <= 90)
  }

  lemma SpellsIff(b: bytes, key: bytes, low: string)
    requires Plainly(key, low)
    ensures SameIgnoringCase(b, key) <==> Spells(b, low)
  {
    if |b| == |key| {
      forall j | 0 <= j < |b|
        ensures Lower(b[j]) == Lower(key[j]) <==>
                b[j] == low[j] as int || ('a' <= low[j] <= 'z' && b[j] == low[j] as int - 32)
      {
      }
    }
  }

  lemma {:induction false} FirstFound(hs: seq<(bytes, bytes)>, key: bytes, low: string, v: bytes, j: nat)
    requires Plainly(key, low) && FirstAt(hs, low, v, j)
    ensures HeaderVal(hs, key) == Some(v)
  {
    SpellsIff(hs[0].0, key, low);
    if j > 0 {
      assert forall x :: 0 <= x < j - 1 ==> hs[1..][x] == hs[x + 1];
      FirstFound(hs[1..], key, low, v, j - 1);
    }
  }

  lemma {:induction false} NoneFound(hs: seq<(bytes, bytes)>, key: bytes, low: string)
    requires Plainly(key, low) && forall j :: 0 <= j < |hs| ==> !Spells(hs[j].0, low)
    ensures HeaderVal(hs, key) == None
  {
    if hs != [] {
      SpellsIff(hs[0].0, key, low);
      NoneFound(hs[1..], key, low);
    }
  }

  lemma Names()
    ensures Plainly(CONNECTION, "connection") && Plainly(CONTENT_LENGTH, "content-length") && Plainly(CLOSE, "close")
    ensures POST == Ascii("POST") && PATCH == Ascii("PATCH") && BULK_PATH == Ascii("/api/shorten/bulk")
  {
  }

  // ---- keeping the connection open ----

  /** The client says close in any letter case, or says nothing and speaks an older version than 1.1. */
  ghost predicate Closes(h: Head) {
    (exists v :: Has(h, "connection", v) && Spells(v, "close")) || (Absent(h, "connection") && h.version != 1)
  }

  lemma {:induction false} FoundOrAbsent(hs: seq<(bytes, bytes)>, name: string) returns (j: nat)
    ensures j <= |hs| && (forall x :: 0 <= x < j ==> !Spells(hs[x].0, name)) && (j < |hs| ==> Spells(hs[j].0, name))
  {
    j := 0;
    if hs != [] && !Spells(hs[0].0, name) {
      var i := FoundOrAbsent(hs[1..], name);
      j := i + 1;
    }
  }

  lemma ClosesIff(h: Head)
    ensures KeepAlive(h) <==> !Closes(h)
  {
    Names();
    var j := FoundOrAbsent(h.headers, "connection");
    if j < |h.headers| {
      var v := h.headers[j].1;
      assert FirstAt(h.headers, "connection", v, j);
      FirstFound(h.headers, CONNECTION, "connection", v, j);
      SpellsIff(v, CLOSE, "close");
      forall v' | Has(h, "connection", v') ensures v' == v {
        var j' :| FirstAt(h.headers, "connection", v', j');
      }
    } else {
      NoneFound(h.headers, CONNECTION, "connection");
      forall v ensures !Has(h, "connection", v) {
      }
    }
  }

  // ---- the body ----

  /** Only these two have a body. */
  predicate CarriesBody(h: Head) {
    h.verb == Ascii("POST") || h.verb == Ascii("PATCH")
  }

  /** The bulk endpoint, whatever the query. */
  predicate Bulk(path: bytes) {
    var bulk := Ascii("/api/shorten/bulk");
    path == bulk || (|path| > |bulk| && path[..|bulk|] == bulk && path[|bulk|] == '?' as int)
  }

  function Largest(h: Head): nat {
    if Bulk(h.path) then 1_048_576 else 4096
  }

  /** What stands where the query begins. */
  lemma {:induction false} QueryAt(path: bytes)
    ensures IndexOf(path, 63) < |path| ==> path[IndexOf(path, 63)] == 63
  {
    if path != [] {
      QueryAt(path[1..]);
    }
  }

  lemma BulkCut(path: bytes, bulk: bytes)
    requires 63 !in bulk && (path == bulk || (|path| > |bulk| && path[..|bulk|] == bulk && path[|bulk|] == 63))
    ensures path[..IndexOf(path, 63)] == bulk
  {
    if path == bulk {
      NoIndex(path, 63);
    } else {
      assert path == bulk + [63] + path[|bulk| + 1..];
      IndexOfAt(bulk, 63, path[|bulk| + 1..]);
    }
  }

  lemma CutBulk(path: bytes, bulk: bytes)
    requires path[..IndexOf(path, 63)] == bulk
    ensures path == bulk || (|path| > |bulk| && path[..|bulk|] == bulk && path[|bulk|] == 63)
  {
    QueryAt(path);
    assert IndexOf(path, 63) == |path| ==> path[..|path|] == path;
  }

  lemma NoQuery()
    ensures 63 !in BULK_PATH
  {
    forall j | 0 <= j < |BULK_PATH| ensures BULK_PATH[j] != 63 {
    }
  }

  lemma BulkIff(path: bytes)
    ensures path[..IndexOf(path, 63)] == BULK_PATH <==> Bulk(path)
  {
    Names();
    NoQuery();
    if Bulk(path) {
      BulkCut(path, BULK_PATH);
    } else if path[..IndexOf(path, 63)] == BULK_PATH {
      CutBulk(path, BULK_PATH);
    }
  }

  /** The content length as printed by the client. */
  lemma LengthIs(h: Head, n: nat)
    requires Has(h, "content-length", Decimal(n))
    ensures ContentLength(h) == if n < 0x1_0000_0000_0000_0000 then n else 0
  {
    Names();
    var j :| FirstAt(h.headers, "content-length", Decimal(n), j);
    FirstFound(h.headers, CONTENT_LENGTH, "content-length", Decimal(n), j);
    DecimalIsPlain(n);
    DigitsRoundTrip(n);
  }

  lemma NoLength(h: Head)
    requires Absent(h, "content-length")
    ensures ContentLength(h) == 0
  {
    Names();
    NoneFound(h.headers, CONTENT_LENGTH, "content-length");
  }

  /** The body a head announces: its content length, or none without that header, without a number that
      fits 64 bits, or with another verb. */
  ghost predicate Announces(h: Head, n: nat) {
    if !CarriesBody(h) then n == 0
    else (Absent(h, "content-length") && n == 0) ||
         (Has(h, "content-length", Decimal(n)) && n < 0x1_0000_0000_0000_0000) ||
         (n == 0 && exists m: nat :: m >= 0x1_0000_0000_0000_0000 && Has(h, "content-length", Decimal(m)))
  }

  lemma AskIs(h: Head, n: nat)
    requires Announces(h, n)
    ensures AskOf(h).body == n && AskOf(h).alive == !Closes(h) && AskOf(h).tooBig == (n > Largest(h))
  {
    Names();
    ClosesIff(h);
    BulkIff(h.path);
    if CarriesBody(h) {
      if Absent(h, "content-length") {
        NoLength(h);
      } else if Has(h, "content-length", Decimal(n)) && n < 0x1_0000_0000_0000_0000 {
        LengthIs(h, n);
      } else {
        var m: nat :| m >= 0x1_0000_0000_0000_0000 && Has(h, "content-length", Decimal(m));
        LengthIs(h, m);
      }
    }
  }

  // ---- requests ----

  lemma Pieces(head: bytes, body: bytes, rest: bytes)
    ensures var s := head + body + rest;
            s == head + (body + rest) && s[|head|..|head| + |body|] == body && s[|head| + |body|..] == rest
  {
  }

  lemma HeadParsed(p: Parser, head: bytes, more: bytes)
    requires Stable(p) && p(head).Complete?
    ensures p(head + more) == p(head)
  {
  }

  /** A request that arrived whole: the handler gets exactly the announced body, and serving goes on with
      what follows, or stops when the connection is to be closed. */
  lemma RequestServed(p: Parser, h: Head, head: bytes, body: bytes, rest: bytes)
    requires Stable(p) && p(head) == Complete(h, |head|) && Announces(h, |body|) && |body| <= Largest(h)
    ensures Serve(p, AskOf, head + body + rest) ==
            if Closes(h) then Served([Call(h, body)], Closing)
            else Joined([Call(h, body)], Serve(p, AskOf, rest))
  {
    AskIs(h, |body|);
    Pieces(head, body, rest);
    HeadParsed(p, head, body + rest);
    ServeOne(p, AskOf, head + body + rest, h, |head|);
  }

  /** A body that is announced too long is refused before any of it is looked at. */
  lemma TooLongRefused(p: Parser, h: Head, head: bytes, n: nat, rest: bytes)
    requires Stable(p) && p(head) == Complete(h, |head|) && Announces(h, n) && n > Largest(h)
    ensures Serve(p, AskOf, head + rest) == Served([], Oversized)
  {
    AskIs(h, n);
    assert p(head + rest) == p(head);
  }

  /** A body that has not fully arrived is waited for. */
  lemma PartWaits(p: Parser, h: Head, head: bytes, n: nat, part: bytes)
    requires Stable(p) && p(head) == Complete(h, |head|) && Announces(h, n) && |part| < n <= Largest(h)
    ensures Serve(p, AskOf, head + part) == Served([], Waiting(head + part))
  {
    AskIs(h, n);
    assert p(head + part) == p(head);
  }

  /** One request over a connection, however its bytes arrive: one call with the announced body, and its
      reply. */
  method OneRequest(p: Parser, f: Handler, oversize: bytes, ghost h: Head, ghost head: bytes, ghost body: bytes,
                    chunks: seq<bytes>)
      returns (calls: seq<Call>, written: bytes)
    requires Stable(p) && p(head) == Complete(h, |head|) && Announces(h, |body|) && |body| <= Largest(h)
    requires (forall k :: 0 <= k < |chunks| ==> chunks[k] != []) && Stream(chunks) == head + body
    ensures calls == [Call(h, body)] && written == f([Call(h, body)])
  {
    calls, written := HandleConn(p, f, oversize, chunks);
    RequestServed(p, h, head, body, []);
    assert head + body + [] == head + body;
    assert [Call(h, body)] + [] == [Call(h, body)];
    SameCalls(p, AskOf, f, oversize, chunks, chunks);
    SameReplies(p, AskOf, f, oversize, chunks);
    OneReply(f, Call(h, body));
    assert f([Call(h, body)]) + [] == f([Call(h, body)]);
  }

  /** A request refused for its length: no call, and the refusal is all that is written. */
  method OneRefused(p: Parser, f: Handler, oversize: bytes, ghost h: Head, ghost head: bytes, ghost n: nat,
                    ghost rest: bytes, chunks: seq<bytes>)
      returns (calls: seq<Call>, written: bytes)
    requires Stable(p) && p(head) == Complete(h, |head|) && Announces(h, n) && n > Largest(h)
    requires (forall k :: 0 <= k < |chunks| ==> chunks[k] != []) && Stream(chunks) == head + rest
    ensures calls == [] && written == oversize
  {
    calls, written := HandleConn(p, f, oversize, chunks);
    TooLongRefused(p, h, head, n, rest);
    SameCalls(p, AskOf, f, oversize, chunks, chunks);
    SameReplies(p, AskOf, f, oversize, chunks);
    assert [] + oversize == oversize;
  }
}
