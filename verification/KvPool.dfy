/** The connection pool: threads take a connection, write a pipeline of commands, read one reply
    per command and give the connection back. Replies are byte streams, so alignment rests on the
    parser stopping exactly where a reply ends. */
module KvPool {
  import opened Bytes
  import opened Resp

  type Command = seq<bytes>

  /** A connection in a thread's hands. `unread` is every byte the server has sent or will send for
      the commands written so far; `replies` is the server's own list of answers; `got` is what the
      thread has parsed. */
  datatype Job = Job(cmds: seq<Command>, replies: seq<Resp>, unread: bytes, got: seq<Resp>, written: bool)

  /** `pool` holds the unread bytes of each idle connection; `answered` pairs every reply handed to
      a caller with the reply the server meant for that command. */
  datatype Client = Client(pool: seq<bytes>, jobs: map<nat, Job>, answered: seq<(Resp, Resp)>)

  datatype Event =
    | Take(t: nat)
    | Write(t: nat, cmds: seq<Command>, replies: seq<Resp>)
    | ReadOne(t: nat)
    | Give(t: nat, buffered: nat)
    | Drop(t: nat)

  const START: Client := Client([[]], map[], [])

  /** The server answers every command, in order, with a reply the protocol can carry. The bytes a
      job's read buffer holds when the connection is given back, `buffered`, are thrown away. */
  predicate Enabled(c: Client, e: Event) {
    match e
    case Take(t) => t !in c.jobs
    case Write(t, cmds, replies) => t in c.jobs && !c.jobs[t].written && |replies| == |cmds| && AllCanonical(replies)
    case ReadOne(t) => t in c.jobs && c.jobs[t].written && |c.jobs[t].got| < |c.jobs[t].cmds|
    case Give(t, buffered) =>
      t in c.jobs && c.jobs[t].written && |c.jobs[t].got| == |c.jobs[t].cmds| && buffered <= |c.jobs[t].unread|
    case Drop(t) => t in c.jobs
  }

  function AfterTake(c: Client, t: nat): Client {
    if c.pool == [] then c.(jobs := c.jobs[t := Job([], [], [], [], false)])
    else
      var n := |c.pool| - 1;
      c.(pool := c.pool[..n], jobs := c.jobs[t := Job([], [], c.pool[n], [], false)])
  }

  function AfterWrite(j: Job, cmds: seq<Command>, replies: seq<Resp>): Job {
    Job(cmds, replies, j.unread + EncodeAll(replies), [], true)
  }

  /** An I/O or protocol error drops the connection. */
  function AfterRead(c: Client, t: nat): Client
    requires t in c.jobs
  {
    var j := c.jobs[t];
    match ReadResp(j.unread)
    case Failed => c.(jobs := c.jobs - {t})
    case Got(v, rest) =>
      c.(jobs := c.jobs[t := j.(unread := rest, got := j.got + [v])],
         answered := c.answered + [(v, if |j.got| < |j.replies| then j.replies[|j.got|] else v)])
  }

  function Do(c: Client, e: Event): Client
    requires Enabled(c, e)
  {
    match e
    case Take(t) => AfterTake(c, t)
    case Write(t, cmds, replies) => c.(jobs := c.jobs[t := AfterWrite(c.jobs[t], cmds, replies)])
    case ReadOne(t) => AfterRead(c, t)
    case Give(t, buffered) => c.(pool := c.pool + [c.jobs[t].unread[buffered..]], jobs := c.jobs - {t})
    case Drop(t) => c.(jobs := c.jobs - {t})
  }

  /** Events that are not possible when they come up do nothing. */
  function Run(es: seq<Event>): Client {
    if es == [] then START
    else
      var c := Run(es[..|es| - 1]);
      if Enabled(c, es[|es| - 1]) then Do(c, es[|es| - 1]) else c
  }

  // ---- alignment ----

  /** What is left to read are exactly the replies to the commands not yet answered. */
  predicate Aligned(j: Job) {
    if !j.written then j.unread == [] && j.got == []
    else
      |j.replies| == |j.cmds| && |j.got| <= |j.replies| && AllCanonical(j.replies[|j.got|..]) &&
      j.got == j.replies[..|j.got|] && j.unread == EncodeAll(j.replies[|j.got|..])
  }

  predicate Inv(c: Client) {
    (forall k :: 0 <= k < |c.pool| ==> c.pool[k] == []) &&
    (forall t :: t in c.jobs ==> Aligned(c.jobs[t])) &&
    (forall k :: 0 <= k < |c.answered| ==> c.answered[k].0 == c.answered[k].1)
  }

  /** Reading the next reply of an aligned pipeline gives the next answer and keeps it aligned. */
  lemma NextReply(replies: seq<Resp>, k: nat)
    requires k < |replies| && AllCanonical(replies[k..])
    ensures ReadResp(EncodeAll(replies[k..])) == Got(replies[k], EncodeAll(replies[k + 1..]))
    ensures AllCanonical(replies[k + 1..])
  {
    var rest := replies[k..];
    assert rest[0] == replies[k] && rest[1..] == replies[k + 1..];
    EncodeAllCons(rest, []);
    RoundTrip(rest[0], EncodeAll(rest[1..]));
    assert EncodeAll(rest) + [] == EncodeAll(rest);
    assert EncodeAll(rest[1..]) + [] == EncodeAll(rest[1..]);
  }

  lemma ReadAligned(j: Job)
    requires Aligned(j) && j.written && |j.got| < |j.cmds|
    ensures var v := j.replies[|j.got|];
            var rest := EncodeAll(j.replies[|j.got| + 1..]);
            ReadResp(j.unread) == Got(v, rest) && Aligned(j.(unread := rest, got := j.got + [v]))
  {
    var k := |j.got|;
    NextReply(j.replies, k);
    assert j.replies[..k + 1] == j.replies[..k] + [j.replies[k]];
  }

  lemma ReadKeepsInv(c: Client, t: nat)
    requires Inv(c) && Enabled(c, ReadOne(t))
    ensures Inv(AfterRead(c, t)) && t in AfterRead(c, t).jobs
  {
    ReadAligned(c.jobs[t]);
  }

  lemma WriteAligned(j: Job, cmds: seq<Command>, replies: seq<Resp>)
    requires Aligned(j) && !j.written && |replies| == |cmds| && AllCanonical(replies)
    ensures Aligned(AfterWrite(j, cmds, replies))
  {
    assert replies[0..] == replies && replies[..0] == [];
    assert [] + EncodeAll(replies) == EncodeAll(replies);
  }

  lemma StepInv(c: Client, e: Event)
    requires Inv(c) && Enabled(c, e)
    ensures Inv(Do(c, e))
  {
    match e
    case Take(t) =>
    case Write(t, cmds, replies) => WriteAligned(c.jobs[t], cmds, replies);
    case ReadOne(t) => ReadKeepsInv(c, t);
    case Give(t, buffered) => NothingLeft(c.jobs[t]);
    case Drop(t) =>
  }

  lemma NothingLeft(j: Job)
    requires Aligned(j) && j.written && |j.got| == |j.cmds|
    ensures j.unread == [] && j.got == j.replies
  {
    assert j.replies[|j.got|..] == [];
  }

  /** In every interleaving of any number of threads, with connections dropped at any point: idle
      connections have no unread bytes, and every reply handed out is the one the server gave to
      that very command. */
  lemma {:induction false} RepliesStayAligned(es: seq<Event>)
    ensures Inv(Run(es))
  {
    if es != [] {
      RepliesStayAligned(es[..|es| - 1]);
      var c := Run(es[..|es| - 1]);
      if Enabled(c, es[|es| - 1]) {
        StepInv(c, es[|es| - 1]);
      }
    }
  }

  /** When a pipeline's connection goes back to the pool, its caller holds exactly the server's
      answers, and the read buffer thrown away with it was empty. */
  lemma GivenBackComplete(es: seq<Event>, t: nat, buffered: nat)
    requires Enabled(Run(es), Give(t, buffered))
    ensures Run(es).jobs[t].got == Run(es).jobs[t].replies
    ensures buffered == 0 && Run(es).jobs[t].unread == []
  {
    RepliesStayAligned(es);
    NothingLeft(Run(es).jobs[t]);
  }
}
