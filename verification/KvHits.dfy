/** Hit counting over several nodes and one KV server: where counters live in each key layout, and
    why every counted resolve is somewhere between a node's memory and the server. */
module KvHits {
  import opened Bytes
  import opened Codec
  import opened Sums

  type Code = bytes

  // ---- key layouts ----

  datatype Layout = KeyLayout | HashLayout(buckets: nat)

  /** A place on the server: a top-level key, or a field of a hash. */
  datatype Slot = Key(k: bytes) | Field(k: bytes, f: bytes)

  const LINK: bytes := [108, COLON]
  const HITS: bytes := [104, COLON]

  /** FNV-1a over the code's bytes. */
  function Fnv(c: Code): bv32 {
    if c == [] then 2166136261 else (Fnv(c[..|c| - 1]) ^ (c[|c| - 1] as bv32)) * 16777619
  }

  function ShardOf(c: Code): nat {
    (Fnv(c) & 255) as int
  }

  function Bucket(c: Code, buckets: nat): bytes
    requires buckets > 0
  {
    LINK + Decimal(ShardOf(c) % buckets)
  }

  predicate LayoutOk(l: Layout) {
    l.HashLayout? ==> l.buckets > 0
  }

  function LinkSlot(l: Layout, c: Code): Slot
    requires LayoutOk(l)
  {
    match l
    case KeyLayout => Key(LINK + c)
    case HashLayout(n) => Field(Bucket(c, n), c)
  }

  function HitSlot(l: Layout, c: Code): Slot
    requires LayoutOk(l)
  {
    match l
    case KeyLayout => Key(HITS + c)
    case HashLayout(n) => Field(Bucket(c, n), HITS + c)
  }

  /** Where a code's row and its counter are: under keys of their own, or side by side in its bucket. */
  lemma SlotNames(c: Code, n: nat)
    requires n > 0
    ensures LinkSlot(KeyLayout, c) == Key(Ascii("l:") + c) && HitSlot(KeyLayout, c) == Key(Ascii("h:") + c)
    ensures LinkSlot(HashLayout(n), c) == Field(Ascii("l:") + Decimal(ShardOf(c) % n), c)
    ensures HitSlot(HashLayout(n), c) == Field(Ascii("l:") + Decimal(ShardOf(c) % n), Ascii("h:") + c)
  {
    assert Ascii("l:") == LINK && Ascii("h:") == HITS;
  }

  /** Two codes never share a counter. */
  lemma HitSlotsApart(l: Layout, c: Code, c': Code)
    requires LayoutOk(l) && HitSlot(l, c) == HitSlot(l, c')
    ensures c == c'
  {
    var a, b := HITS + c, HITS + c';
    assert a == b;
    assert c == a[2..] && c' == b[2..];
  }

  /** A row and a counter share a place only in the hash layout, and only for a code that itself
      starts with the counter prefix, which no acceptable code does. */
  lemma RowAndCounterCollideIff(l: Layout, c: Code, c': Code)
    requires LayoutOk(l)
    ensures LinkSlot(l, c) == HitSlot(l, c') <==>
            l.HashLayout? && c == HITS + c' && Bucket(c, l.buckets) == Bucket(c', l.buckets)
    ensures CodeOk(c) ==> LinkSlot(l, c) != HitSlot(l, c')
  {
    if l.KeyLayout? {
      assert (LINK + c)[0] != (HITS + c')[0];
    } else if c == HITS + c' {
      assert c[1] == COLON;
    }
  }

  // ---- the run ----

  datatype Cell = Text(v: bytes) | Count(n: int)

  /** A node's unflushed counts, and the increments it has taken out of them and not yet had
      executed. */
  datatype Node = Node(dirty: map<Code, int>, flight: seq<(Slot, int)>)

  /** `served` counts the tracked successful resolves of the watched code on all nodes; `removed`
      says it was ever deleted. */
  datatype World = World(nodes: seq<Node>, cells: map<Slot, Cell>, served: int, removed: bool)

  datatype Event =
    | Served(node: nat, c: Code)
    | Drain(node: nat, c: Code)
    | Increment(node: nat)
    | PutRow(c: Code, v: bytes)
    | DropRow(c: Code)
    | Remove(c: Code)

  /** Codes are those the API accepts. */
  predicate Enabled(w: World, e: Event) {
    match e
    case Served(p, c) => p < |w.nodes| && CodeOk(c)
    case Drain(p, c) => p < |w.nodes| && c in w.nodes[p].dirty
    case Increment(p) => p < |w.nodes| && w.nodes[p].flight != []
    case PutRow(c, _) => CodeOk(c)
    case DropRow(c) => CodeOk(c)
    case Remove(c) => CodeOk(c)
  }

  function Counter(cells: map<Slot, Cell>, s: Slot): int {
    if s in cells && cells[s].Count? then cells[s].n else 0
  }

  /** INCRBY: a missing counter starts at zero, a non-number is an error that changes nothing. */
  function Incremented(cells: map<Slot, Cell>, s: Slot, d: int): map<Slot, Cell> {
    if s in cells && cells[s].Text? then cells else cells[s := Count(Counter(cells, s) + d)]
  }

  function Bumped(n: Node, c: Code): Node {
    n.(dirty := Dirtied(n.dirty, c))
  }

  function Drained(n: Node, l: Layout, c: Code): Node
    requires LayoutOk(l) && c in n.dirty
  {
    Node(n.dirty - {c}, n.flight + [(HitSlot(l, c), n.dirty[c])])
  }

  function Do(w: World, e: Event, l: Layout, k: Code): World
    requires LayoutOk(l) && Enabled(w, e)
  {
    match e
    case Served(p, c) =>
      w.(nodes := w.nodes[p := Bumped(w.nodes[p], c)], served := if c == k then w.served + 1 else w.served)
    case Drain(p, c) => w.(nodes := w.nodes[p := Drained(w.nodes[p], l, c)])
    case Increment(p) =>
      var n := w.nodes[p];
      w.(nodes := w.nodes[p := n.(flight := n.flight[1..])],
         cells := Incremented(w.cells, n.flight[0].0, n.flight[0].1))
    case PutRow(c, v) => w.(cells := w.cells[LinkSlot(l, c) := Text(v)])
    case DropRow(c) => w.(cells := w.cells - {LinkSlot(l, c)})
    case Remove(c) => w.(cells := w.cells - {LinkSlot(l, c), HitSlot(l, c)}, removed := w.removed || c == k)
  }

  function Start(nodes: nat): World {
    World(seq(nodes, _ => Node(map[], [])), map[], 0, false)
  }

  /** Events that are not possible when they come up do nothing. */
  function Run(nodes: nat, es: seq<Event>, l: Layout, k: Code): World
    requires LayoutOk(l)
  {
    if es == [] then Start(nodes)
    else
      var w := Run(nodes, es[..|es| - 1], l, k);
      if Enabled(w, es[|es| - 1]) then Do(w, es[|es| - 1], l, k) else w
  }

  // ---- conservation ----

  /** Increments on their way to one place. */
  function FlightTo(flight: seq<(Slot, int)>, s: Slot): int {
    if flight == [] then 0
    else FlightTo(flight[1..], s) + if flight[0].0 == s then flight[0].1 else 0
  }

  lemma {:induction false} FlightAppend(flight: seq<(Slot, int)>, x: (Slot, int), s: Slot)
    ensures FlightTo(flight + [x], s) == FlightTo(flight, s) + if x.0 == s then x.1 else 0
  {
    if flight == [] {
      assert flight + [x] == [x];
    } else {
      assert (flight + [x])[1..] == flight[1..] + [x];
      FlightAppend(flight[1..], x, s);
    }
  }

  /** What one node still owes the server for the code whose counter is at `s`. */
  function Owed(n: Node, k: Code, s: Slot): int {
    DirtyOf(n.dirty, k) + FlightTo(n.flight, s)
  }

  function OwedAll(nodes: seq<Node>, k: Code, s: Slot): seq<int> {
    seq(|nodes|, p requires 0 <= p < |nodes| => Owed(nodes[p], k, s))
  }

  predicate NoText(cells: map<Slot, Cell>, s: Slot) {
    s in cells ==> cells[s].Count?
  }

  /** Stored counter + unflushed counts + increments under way = successful resolves. */
  predicate Conserved(w: World, k: Code, s: Slot) {
    NoText(w.cells, s) && (!w.removed ==> Counter(w.cells, s) + Sum(OwedAll(w.nodes, k, s)) == w.served)
  }

  lemma OneNode(nodes: seq<Node>, p: nat, n: Node, k: Code, s: Slot)
    requires p < |nodes|
    ensures Sum(OwedAll(nodes[p := n], k, s)) == Sum(OwedAll(nodes, k, s)) + Owed(n, k, s) - Owed(nodes[p], k, s)
  {
    SumOne(OwedAll(nodes, k, s), OwedAll(nodes[p := n], k, s), p, Owed(n, k, s) - Owed(nodes[p], k, s));
  }

  lemma DrainOwes(n: Node, l: Layout, c: Code, k: Code)
    requires LayoutOk(l) && c in n.dirty
    ensures Owed(Drained(n, l, c), k, HitSlot(l, k)) == Owed(n, k, HitSlot(l, k))
  {
    FlightAppend(n.flight, (HitSlot(l, c), n.dirty[c]), HitSlot(l, k));
    if HitSlot(l, c) == HitSlot(l, k) {
      HitSlotsApart(l, c, k);
    }
  }

  /** A change of one node that moves as much to the server as it stops owing. */
  lemma NodeStep(w: World, w': World, p: nat, n: Node, k: Code, s: Slot)
    requires Conserved(w, k, s) && p < |w.nodes| && w'.nodes == w.nodes[p := n] && w'.removed == w.removed
    requires NoText(w'.cells, s)
    requires Counter(w'.cells, s) + Owed(n, k, s) - w'.served == Counter(w.cells, s) + Owed(w.nodes[p], k, s) - w.served
    ensures Conserved(w', k, s)
  {
    OneNode(w.nodes, p, n, k, s);
  }

  lemma IncrementStep(w: World, p: nat, l: Layout, k: Code, s: Slot)
    requires LayoutOk(l) && Enabled(w, Increment(p)) && Conserved(w, k, s)
    ensures Conserved(Do(w, Increment(p), l, k), k, s)
  {
    var n := w.nodes[p];
    NodeStep(w, Do(w, Increment(p), l, k), p, n.(flight := n.flight[1..]), k, s);
  }

  /** A change of cells that leaves the counter alone. */
  lemma CellStep(w: World, cells: map<Slot, Cell>, removed: bool, k: Code, s: Slot)
    requires Conserved(w, k, s) && (w.removed ==> removed)
    requires s in cells <==> s in w.cells
    requires s in cells ==> cells[s] == w.cells[s]
    ensures Conserved(w.(cells := cells, removed := removed), k, s)
  {
  }

  lemma RowStep(w: World, e: Event, l: Layout, k: Code)
    requires LayoutOk(l) && CodeOk(k) && Enabled(w, e) && Conserved(w, k, HitSlot(l, k))
    requires e.PutRow? || e.DropRow? || (e.Remove? && e.c != k)
    ensures Conserved(Do(w, e, l, k), k, HitSlot(l, k))
  {
    var s := HitSlot(l, k);
    RowAndCounterCollideIff(l, e.c, k);
    if e.Remove? && HitSlot(l, e.c) == s {
      HitSlotsApart(l, e.c, k);
    }
    CellStep(w, Do(w, e, l, k).cells, w.removed, k, s);
  }

  lemma StepConserves(w: World, e: Event, l: Layout, k: Code)
    requires LayoutOk(l) && CodeOk(k) && Enabled(w, e) && Conserved(w, k, HitSlot(l, k))
    ensures Conserved(Do(w, e, l, k), k, HitSlot(l, k))
  {
    var s := HitSlot(l, k);
    match e
    case Served(p, c) => NodeStep(w, Do(w, e, l, k), p, Bumped(w.nodes[p], c), k, s);
    case Drain(p, c) =>
      DrainOwes(w.nodes[p], l, c, k);
      NodeStep(w, Do(w, e, l, k), p, Drained(w.nodes[p], l, c), k, s);
    case Increment(p) => IncrementStep(w, p, l, k, s);
    case PutRow(c, v) => RowStep(w, e, l, k);
    case DropRow(c) => RowStep(w, e, l, k);
    case Remove(c) =>
      if c != k {
        RowStep(w, e, l, k);
      }
  }

  lemma StartConserves(nodes: nat, k: Code, s: Slot)
    ensures Conserved(Start(nodes), k, s)
  {
    SumZero(OwedAll(Start(nodes).nodes, k, s));
  }

  /** In both layouts, over every run of any number of nodes, for a code never removed: the stored
      counter, plus what every node has not flushed, plus the increments under way, is exactly the
      number of successful tracked resolves. */
  lemma {:induction false} HitsConserved(nodes: nat, es: seq<Event>, l: Layout, k: Code)
    requires LayoutOk(l) && CodeOk(k)
    ensures Conserved(Run(nodes, es, l, k), k, HitSlot(l, k))
  {
    if es == [] {
      StartConserves(nodes, k, HitSlot(l, k));
    } else {
      var w := Run(nodes, es[..|es| - 1], l, k);
      HitsConserved(nodes, es[..|es| - 1], l, k);
      if Enabled(w, es[|es| - 1]) {
        StepConserves(w, es[|es| - 1], l, k);
      }
    }
  }

  /** What a node reports for a code: the server's counter and its own unflushed count. */
  function Reported(w: World, p: nat, k: Code, s: Slot): int
    requires p < |w.nodes|
  {
    Counter(w.cells, s) + DirtyOf(w.nodes[p].dirty, k)
  }

  /** Once every other node has flushed, and no increments are under way, any node reports the
      exact count. */
  lemma ReportIsExact(nodes: nat, es: seq<Event>, l: Layout, k: Code, p: nat)
    requires LayoutOk(l) && CodeOk(k)
    requires var w := Run(nodes, es, l, k);
             p < |w.nodes| && !w.removed && FlightTo(w.nodes[p].flight, HitSlot(l, k)) == 0 &&
             forall q :: 0 <= q < |w.nodes| && q != p ==> Owed(w.nodes[q], k, HitSlot(l, k)) == 0
    ensures Reported(Run(nodes, es, l, k), p, k, HitSlot(l, k)) == Run(nodes, es, l, k).served
  {
    HitsConserved(nodes, es, l, k);
    SumAt(OwedAll(Run(nodes, es, l, k).nodes, k, HitSlot(l, k)), p);
  }

  lemma SumAt(s: seq<int>, p: nat)
    requires p < |s| && forall q :: 0 <= q < |s| && q != p ==> s[q] == 0
    ensures Sum(s) == s[p]
  {
    SumUpdate(s, p, 0);
    SumZero(s[p := 0]);
  }

  // ---- the flush loop ----

  class HitBuffer {
    const layout: Layout
    var dirty: map<Code, int>

    constructor (layout: Layout)
      ensures this.layout == layout && dirty == map[]
    {
      this.layout := layout;
      dirty := map[];
    }

    method Bump(c: Code, track: bool)
      modifies this
      ensures dirty == if track then Dirtied(old(dirty), c) else old(dirty)
    {
      if track {
        var count := if c in dirty then dirty[c] else 0;
        dirty := dirty[c := count + 1];
      }
    }

    /** Takes every unflushed count out and turns it into one increment, in no particular order:
        each code's increments add up to exactly what it had. */
    method DrainAll() returns (deltas: seq<(Slot, int)>)
      requires LayoutOk(layout)
      modifies this
      ensures dirty == map[] && |deltas| == |old(dirty)|
      ensures forall c :: FlightTo(deltas, HitSlot(layout, c)) == if c in old(dirty) then old(dirty)[c] else 0
    {
      deltas := [];
      ghost var was := dirty;
      while dirty != map[]
        invariant dirty.Keys <= was.Keys && |deltas| + |dirty| == |was|
        invariant forall c :: c in dirty ==> dirty[c] == was[c]
        invariant forall c :: FlightTo(deltas, HitSlot(layout, c)) == if c in was && c !in dirty then was[c] else 0
        decreases |dirty|
      {
        var c := AnyKey(dirty);
        var d := (HitSlot(layout, c), dirty[c]);
        forall b
          ensures FlightTo(deltas + [d], HitSlot(layout, b)) ==
                  FlightTo(deltas, HitSlot(layout, b)) + if b == c then dirty[c] else 0
        {
          FlightAppend(deltas, d, HitSlot(layout, b));
          if HitSlot(layout, b) == HitSlot(layout, c) {
            HitSlotsApart(layout, b, c);
          }
        }
        deltas := deltas + [d];
        dirty := dirty - {c};
      }
    }
  }

  method AnyKey(m: map<Code, int>) returns (c: Code)
    requires m != map[]
    ensures c in m && |m - {c}| == |m| - 1
  {
    assert m.Keys != {};
    c :| c in m.Keys;
    assert (m - {c}).Keys == m.Keys - {c};
  }
}
