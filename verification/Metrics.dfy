/** The per-second ring of request counts against the full history it stands for. */
module Metrics {
  const N: int := 60
  const WINDOW: int := 31

  /** `slots[t % 60]` counts second `t`, for the sixty seconds up to `cur`. */
  datatype Ring = Ring(slots: seq<int>, cur: int)

  predicate Shaped(r: Ring) {
    |r.slots| == N && r.cur >= 0
  }

  /** Slots of the seconds `low` to `high` set to zero, one by one. */
  function Cleared(slots: seq<int>, low: int, high: int): (r: seq<int>)
    requires |slots| == N && 0 <= low
    ensures |r| == N
    decreases high - low
  {
    if high < low then slots else Cleared(slots, low, high - 1)[high % N := 0]
  }

  /** A request in second `s`. */
  function Ticked(r: Ring, s: int): (r': Ring)
    requires Shaped(r) && r.cur <= s
    ensures Shaped(r') && r'.cur == s
  {
    var slots := Cleared(r.slots, r.cur + 1, s);
    Ring(slots[s % N := slots[s % N] + 1], s)
  }

  function Opened(s: int): Ring {
    Ring(seq(N, _ => 0), s)
  }

  /** Requests in second `t`. */
  function Count(ticks: seq<int>, t: int): nat {
    if ticks == [] then 0 else Count(ticks[..|ticks| - 1], t) + if ticks[|ticks| - 1] == t then 1 else 0
  }

  /** A clock that never goes back, from `start` on. */
  predicate Forward(start: int, ticks: seq<int>) {
    start >= 0 &&
    (ticks != [] ==> Forward(start, ticks[..|ticks| - 1]) && Last(start, ticks[..|ticks| - 1]) <= ticks[|ticks| - 1])
  }

  function Last(start: int, ticks: seq<int>): int {
    if ticks == [] then start else ticks[|ticks| - 1]
  }

  function Run(start: int, ticks: seq<int>): (r: Ring)
    requires Forward(start, ticks)
    ensures Shaped(r) && r.cur == Last(start, ticks)
  {
    if ticks == [] then Opened(start) else Ticked(Run(start, ticks[..|ticks| - 1]), ticks[|ticks| - 1])
  }

  /** Every second of the last sixty has its own slot, and the slot holds its count. */
  predicate Faithful(slots: seq<int>, cur: int, ticks: seq<int>)
    requires |slots| == N
  {
    forall t :: 0 <= t && cur - N < t <= cur ==> slots[t % N] == Count(ticks, t)
  }

  lemma SlotsApart(t: int, u: int)
    requires 0 <= t < u < t + N
    ensures t % N != u % N
  {
  }

  lemma {:induction false} NoneLater(start: int, ticks: seq<int>, t: int)
    requires Forward(start, ticks) && t > Last(start, ticks)
    ensures Count(ticks, t) == 0
  {
    if ticks != [] {
      NoneLater(start, ticks[..|ticks| - 1], t);
    }
  }

  /** Moving the ring forward over quiet seconds, however many, keeps it faithful. */
  lemma {:induction false} ClearedFaithful(slots: seq<int>, start: int, ticks: seq<int>, high: int)
    requires |slots| == N && Forward(start, ticks)
    requires Last(start, ticks) >= 0 && Last(start, ticks) <= high && Faithful(slots, Last(start, ticks), ticks)
    ensures Faithful(Cleared(slots, Last(start, ticks) + 1, high), high, ticks)
    decreases high - Last(start, ticks)
  {
    var c := Last(start, ticks);
    if high > c {
      ClearedFaithful(slots, start, ticks, high - 1);
      var before := Cleared(slots, c + 1, high - 1);
      var after := before[high % N := 0];
      NoneLater(start, ticks, high);
      forall t | 0 <= t && high - N < t <= high
        ensures after[t % N] == Count(ticks, t)
      {
        if t < high {
          SlotsApart(t, high);
        }
      }
    }
  }

  lemma CountOne(ticks: seq<int>, s: int, t: int)
    ensures Count(ticks + [s], t) == Count(ticks, t) + if t == s then 1 else 0
  {
    assert (ticks + [s])[..|ticks|] == ticks;
  }

  lemma TickFaithful(slots: seq<int>, ticks: seq<int>, s: int)
    requires |slots| == N && s >= 0 && Faithful(slots, s, ticks)
    ensures Faithful(slots[s % N := slots[s % N] + 1], s, ticks + [s])
  {
    forall t | 0 <= t && s - N < t <= s
      ensures slots[s % N := slots[s % N] + 1][t % N] == Count(ticks + [s], t)
    {
      CountOne(ticks, s, t);
      if t < s {
        SlotsApart(t, s);
      }
    }
  }

  lemma NextFaithful(r: Ring, start: int, ticks: seq<int>, s: int)
    requires Shaped(r) && Forward(start, ticks) && r.cur == Last(start, ticks) <= s && Faithful(r.slots, r.cur, ticks)
    ensures Faithful(Ticked(r, s).slots, s, ticks + [s])
  {
    ClearedFaithful(r.slots, start, ticks, s);
    TickFaithful(Cleared(r.slots, r.cur + 1, s), ticks, s);
  }

  /** For every run on a clock that never goes back, gaps of any length included, the ring holds
      the exact count of each of the last sixty seconds. */
  lemma {:induction false} RingIsHistory(start: int, ticks: seq<int>)
    requires Forward(start, ticks)
    ensures Last(start, ticks) >= 0
    ensures Faithful(Run(start, ticks).slots, Last(start, ticks), ticks)
  {
    if ticks != [] {
      var before, s := ticks[..|ticks| - 1], ticks[|ticks| - 1];
      RingIsHistory(start, before);
      NextFaithful(Run(start, before), start, before, s);
      assert before + [s] == ticks;
    }
  }

  // ---- the reported window ----

  /** The last thirty complete seconds and the current one, seen at second `s`. */
  function Window(r: Ring, s: int): (w: seq<int>)
    requires Shaped(r) && s >= 30
    ensures |w| == WINDOW
  {
    seq(WINDOW, i requires 0 <= i < WINDOW => SlotAt(r, s - 30 + i))
  }

  function SlotAt(r: Ring, t: int): int
    requires Shaped(r) && t >= 0
  {
    if t <= r.cur && r.cur - t < N then r.slots[t % N] else 0
  }

  /** Each of the 31 reported numbers is the exact number of requests in its second. */
  lemma WindowIsHistory(start: int, ticks: seq<int>, s: int, i: int)
    requires Forward(start, ticks) && Last(start, ticks) <= s && 30 <= s && 0 <= i < WINDOW
    ensures Window(Run(start, ticks), s)[i] == Count(ticks, s - 30 + i)
  {
    RingIsHistory(start, ticks);
    var t := s - 30 + i;
    assert Window(Run(start, ticks), s)[i] == SlotAt(Run(start, ticks), t);
    if t > Last(start, ticks) {
      NoneLater(start, ticks, t);
    }
  }

  // ---- the counters in place ----

  class Counters {
    const buckets: array<int>
    var cur: int
    var total: int
    /** The second each request came in, and when counting started. */
    ghost var ticks: seq<int>
    ghost const start: int

    ghost predicate Valid()
      reads this, buckets
    {
      buckets.Length == N && Forward(start, ticks) && cur == Last(start, ticks) &&
      Run(start, ticks) == Ring(buckets[..], cur) && total == |ticks|
    }

    constructor (nowMs: int)
      requires nowMs >= 0
      ensures Valid() && fresh(buckets) && ticks == [] && start == nowMs / 1000
    {
      buckets := new int[N](_ => 0);
      cur, total := nowMs / 1000, 0;
      ticks, start := [], nowMs / 1000;
      new;
      assert buckets[..] == seq(N, _ => 0);
    }

    /** Zeroes the slots of the seconds skipped since the last request. */
    method Advance(s: int)
      requires buckets.Length == N && 0 <= cur <= s
      modifies this`cur, buckets
      ensures cur == s && buckets[..] == Cleared(old(buckets[..]), old(cur) + 1, s)
    {
      ghost var slots, low := buckets[..], cur + 1;
      var t := cur + 1;
      cur := s;
      while t <= s
        invariant low <= t <= s + 1 && buckets[..] == Cleared(slots, low, t - 1)
        modifies buckets
      {
        buckets[t % N] := 0;
        t := t + 1;
      }
    }

    method Tick(nowMs: int)
      requires Valid() && cur <= nowMs / 1000
      modifies this, buckets
      ensures Valid() && ticks == old(ticks) + [nowMs / 1000]
    {
      total := total + 1;
      var s := nowMs / 1000;
      ghost var r := Ring(buckets[..], cur);
      if s != cur {
        Advance(s);
      }
      buckets[s % N] := buckets[s % N] + 1;
      ticks := ticks + [s];
      assert Ticked(r, s) == Ring(buckets[..], cur);
      assert ticks[..|ticks| - 1] == old(ticks);
    }

    method Snapshot(nowMs: int) returns (window: array<int>)
      requires Valid() && cur <= nowMs / 1000 && 30 <= nowMs / 1000
      ensures fresh(window) && window.Length == WINDOW
      ensures forall i :: 0 <= i < WINDOW ==> window[i] == Count(ticks, nowMs / 1000 - 30 + i)
    {
      var s := nowMs / 1000;
      window := new int[WINDOW](_ => 0);
      for i := 0 to WINDOW
        invariant forall j :: 0 <= j < i ==> window[j] == Count(ticks, s - 30 + j)
        invariant forall j :: i <= j < WINDOW ==> window[j] == 0
      {
        WindowIsHistory(start, ticks, s, i);
        var t := s - 30 + i;
        if t <= cur && cur - t < N {
          window[i] := buckets[t % N];
        }
        assert window[i] == SlotAt(Run(start, ticks), t);
      }
    }
  }
}
