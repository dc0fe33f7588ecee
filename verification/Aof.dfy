/** The append-only log file: queued writes, replay of complete lines, and tailing a sibling's log. */
module Aof {
  import opened Bytes
  import opened Codec
  import opened RoundTrip

  // ---- splitting bytes into lines ----

  /** Complete nonempty lines seen so far, and the bytes after the last newline. */
  datatype Split = Split(lines: seq<bytes>, rest: bytes)

  const NO_LINES: Split := Split([], [])

  function FeedByte(st: Split, b: byte): Split {
    if b != NL then st.(rest := st.rest + [b])
    else Split(if st.rest == [] then st.lines else st.lines + [st.rest], [])
  }

  function Feed(st: Split, s: bytes): Split {
    if s == [] then st else FeedByte(Feed(st, s[..|s| - 1]), s[|s| - 1])
  }

  lemma {:induction false} FeedAppend(st: Split, a: bytes, b: bytes)
    ensures Feed(st, a + b) == Feed(Feed(st, a), b)
  {
    if b == [] {
      assert a + b == a;
    } else {
      FeedAppend(st, a, b[..|b| - 1]);
      assert (a + b)[..|a + b| - 1] == a + b[..|b| - 1];
    }
  }

  /** Lines delivered earlier do not influence what is delivered later. */
  lemma {:induction false} FeedShift(ls: seq<bytes>, rest: bytes, s: bytes)
    ensures var r := Feed(Split([], rest), s);
      Feed(Split(ls, rest), s) == Split(ls + r.lines, r.rest)
  {
    if s == [] {
      assert ls + [] == ls;
    } else {
      FeedShift(ls, rest, s[..|s| - 1]);
      var r := Feed(Split([], rest), s[..|s| - 1]);
      assert ls + (r.lines + [r.rest]) == (ls + r.lines) + [r.rest];
    }
  }

  lemma {:induction false} FeedPlain(st: Split, t: bytes)
    requires NL !in t
    ensures Feed(st, t) == st.(rest := st.rest + t)
  {
    if t == [] {
      assert st.rest + t == st.rest;
    } else {
      FeedPlain(st, t[..|t| - 1]);
      assert st.rest + t[..|t| - 1] + [t[|t| - 1]] == st.rest + t;
    }
  }

  lemma FeedLine(ls: seq<bytes>, line: bytes)
    requires NL !in line && line != []
    ensures Feed(Split(ls, []), line + [NL]) == Split(ls + [line], [])
  {
    FeedAppend(Split(ls, []), line, [NL]);
    FeedPlain(Split(ls, []), line);
    assert [] + line == line;
    var mid := Split(ls, line);
    assert [NL][..0] == [] && Feed(mid, []) == mid;
  }

  lemma {:induction false} FeedKeepsRestPlain(st: Split, s: bytes)
    requires NL !in st.rest
    ensures NL !in Feed(st, s).rest
  {
    if s != [] {
      FeedKeepsRestPlain(st, s[..|s| - 1]);
    }
  }

  /** Held-back bytes can be re-scanned together with the new ones. */
  lemma FeedHeld(held: bytes, s: bytes)
    requires NL !in held
    ensures Feed(NO_LINES, held + s) == Feed(Split([], held), s)
  {
    FeedAppend(NO_LINES, held, s);
    FeedPlain(NO_LINES, held);
    assert [] + held == held;
  }

  predicate AllLines(lines: seq<bytes>) {
    forall k :: 0 <= k < |lines| ==> lines[k] != [] && NL !in lines[k]
  }

  function Unlines(lines: seq<bytes>): bytes {
    if lines == [] then [] else Unlines(lines[..|lines| - 1]) + (lines[|lines| - 1] + [NL])
  }

  lemma {:induction false} SplitOfUnlines(lines: seq<bytes>)
    requires AllLines(lines)
    ensures Feed(NO_LINES, Unlines(lines)) == Split(lines, [])
  {
    if lines != [] {
      var front, last := lines[..|lines| - 1], lines[|lines| - 1];
      SplitOfUnlines(front);
      FeedAppend(NO_LINES, Unlines(front), last + [NL]);
      FeedLine(front, last);
      assert front + [last] == lines;
    }
  }

  /** Splitting inverts writing lines: nothing is lost, merged, reordered or repeated, and an
      unfinished line is held back. */
  lemma SplitInvertsUnlines(lines: seq<bytes>, tail: bytes)
    requires AllLines(lines) && NL !in tail
    ensures Feed(NO_LINES, Unlines(lines) + tail) == Split(lines, tail)
  {
    SplitOfUnlines(lines);
    FeedAppend(NO_LINES, Unlines(lines), tail);
    FeedPlain(Split(lines, []), tail);
    assert [] + tail == tail;
  }

  function NonEmpty(lines: seq<bytes>): seq<bytes> {
    if lines == [] then []
    else
      var front, last := NonEmpty(lines[..|lines| - 1]), lines[|lines| - 1];
      if last == [] then front else front + [last]
  }

  lemma FeedAnyLine(ls: seq<bytes>, line: bytes)
    requires NL !in line
    ensures Feed(Split(ls, []), line + [NL]) == Split(if line == [] then ls else ls + [line], [])
  {
    if line == [] {
      assert line + [NL] == [NL] && [NL][..0] == [];
      assert Feed(Split(ls, []), [NL][..0]) == Split(ls, []);
    } else {
      FeedLine(ls, line);
    }
  }

  /** Empty lines are dropped, all others delivered as they are. */
  lemma {:induction false} SplitDropsEmpty(lines: seq<bytes>)
    requires forall k :: 0 <= k < |lines| ==> NL !in lines[k]
    ensures Feed(NO_LINES, Unlines(lines)) == Split(NonEmpty(lines), [])
  {
    if lines != [] {
      var front, last := lines[..|lines| - 1], lines[|lines| - 1];
      SplitDropsEmpty(front);
      FeedAppend(NO_LINES, Unlines(front), last + [NL]);
      FeedAnyLine(NonEmpty(front), last);
    }
  }

  /** The index loop both readers run over a byte buffer: complete nonempty lines, and where the
      unfinished tail starts. */
  method ScanLines(buf: bytes) returns (lines: seq<bytes>, start: nat)
    ensures start <= |buf|
    ensures Feed(NO_LINES, buf) == Split(lines, buf[start..])
  {
    lines, start := [], 0;
    for i := 0 to |buf|
      invariant start <= i
      invariant Feed(NO_LINES, buf[..i]) == Split(lines, buf[start..i])
    {
      ScanStep(buf, i, lines, start);
      if buf[i] == NL {
        if i > start {
          lines := lines + [buf[start..i]];
        }
        start := i + 1;
      }
    }
    assert buf[..|buf|] == buf;
  }

  lemma ScanStep(buf: bytes, i: nat, lines: seq<bytes>, start: nat)
    requires start <= i < |buf| && Feed(NO_LINES, buf[..i]) == Split(lines, buf[start..i])
    ensures Feed(NO_LINES, buf[..i + 1]) ==
            if buf[i] != NL then Split(lines, buf[start..i + 1])
            else if i > start then Split(lines + [buf[start..i]], buf[i + 1..i + 1])
            else Split(lines, buf[i + 1..i + 1])
  {
    assert buf[..i + 1][..i] == buf[..i];
    assert buf[start..i + 1] == buf[start..i] + [buf[i]];
    assert buf[i + 1..i + 1] == [];
  }

  /** Replay a file: every complete line, torn tail ignored. */
  method ReplayFile(buf: bytes) returns (lines: seq<bytes>)
    ensures lines == Feed(NO_LINES, buf).lines
  {
    var start;
    lines, start := ScanLines(buf);
  }

  // ---- the writer ----

  class Log {
    var buf: bytes   // queued, not yet written
    var file: bytes  // what the operating system holds

    constructor (existing: bytes)
      ensures buf == [] && file == existing
    {
      buf, file := [], existing;
    }

    method Push(line: bytes)
      modifies this
      ensures buf == old(buf) + line + [NL] && file == old(file)
    {
      buf := buf + line;
      buf := buf + [NL];
    }

    method PushRaw(raw: bytes)
      modifies this
      ensures buf == old(buf) + raw && file == old(file)
    {
      buf := buf + raw;
    }

    method PendingBytes() returns (n: nat)
      ensures n == |buf|
    {
      n := |buf|;
    }

    method Flush()
      modifies this
      ensures buf == [] && file == old(file) + old(buf)
    {
      if buf == [] {
        return;
      }
      file := file + buf;
      buf := [];
    }

    /** Discards the whole log, queued lines included. */
    method Truncate()
      modifies this
      ensures buf == [] && file == []
    {
      Flush();
      file := [];
    }
  }

  // ---- the tail reader ----

  datatype Reader = Reader(offset: nat, leftover: bytes)

  /** One read of a log holding `file`, of which `got` new bytes were obtained. */
  function ReadStep(r: Reader, file: bytes, got: nat): (Reader, seq<bytes>)
    requires got <= |file| - ResumeAt(r, file).offset
  {
    var r0 := ResumeAt(r, file);
    var s := Feed(Split([], r0.leftover), file[r0.offset..r0.offset + got]);
    (Reader(r0.offset + got, s.rest), s.lines)
  }

  lemma ReadStepIs(r: Reader, file: bytes, got: nat, s: Split)
    requires got <= |file| - ResumeAt(r, file).offset
    requires var r0 := ResumeAt(r, file); s == Feed(Split([], r0.leftover), file[r0.offset..r0.offset + got])
    ensures ReadStep(r, file, got) == (Reader(ResumeAt(r, file).offset + got, s.rest), s.lines)
  {
  }

  lemma NothingNew(r: Reader, file: bytes)
    requires |file| == ResumeAt(r, file).offset
    ensures ReadStep(r, file, 0) == (ResumeAt(r, file), [])
  {
    var r0 := ResumeAt(r, file);
    assert file[r0.offset..r0.offset + 0] == [];
  }

  /** A file shorter than the offset was compacted or replaced: start over. */
  function ResumeAt(r: Reader, file: bytes): (r0: Reader)
    ensures r0.offset <= |file|
  {
    if |file| < r.offset then Reader(0, []) else r
  }

  class TailReader {
    var offset: nat
    var leftover: bytes

    function State(): Reader
      reads this
    {
      Reader(offset, leftover)
    }

    /** The bytes held back never contain a newline. */
    predicate Valid()
      reads this
    {
      NL !in leftover
    }

    constructor ()
      ensures Valid() && State() == Reader(0, [])
    {
      offset, leftover := 0, [];
    }

    /** `got` is how many of the available bytes the read obtained. */
    method ReadNew(file: bytes, got: nat) returns (lines: seq<bytes>)
      requires Valid() && got <= |file| - ResumeAt(State(), file).offset
      modifies this
      ensures Valid() && (State(), lines) == ReadStep(old(State()), file, got)
    {
      Resume(file);
      if |file| <= offset {
        NothingNew(old(State()), file);
        return [];
      }
      lines := Absorb(file[offset..offset + got]);
      offset := offset + got;
      ReadStepIs(old(State()), file, got, Split(lines, leftover));
    }

    method Resume(file: bytes)
      requires Valid()
      modifies this
      ensures Valid() && State() == ResumeAt(old(State()), file)
    {
      if |file| < offset {
        offset := 0;
        leftover := [];
      }
    }

    /** Splits newly read bytes into lines, behind whatever was held back before. */
    method Absorb(buf: bytes) returns (lines: seq<bytes>)
      requires Valid()
      modifies this`leftover
      ensures Valid() && Feed(Split([], old(leftover)), buf) == Split(lines, leftover)
    {
      FeedKeepsRestPlain(Split([], leftover), buf);
      var start;
      if leftover == [] {
        lines, start := ScanLines(buf);
        leftover := leftover + buf[start..];
        assert leftover == buf[start..];
      } else {
        FeedHeld(leftover, buf);
        leftover := leftover + buf;
        lines, start := ScanLines(leftover);
        leftover := leftover[start..];
      }
    }
  }

  // ---- a tail reader over a growing file ----

  /** A tail reader's whole life: its state, the lines delivered since the last observed shrink,
      and the bytes those lines came from. */
  datatype Tailing = Tailing(r: Reader, delivered: seq<bytes>, consumed: bytes)

  const FRESH_TAIL: Tailing := Tailing(Reader(0, []), [], [])

  /** One sighting of the file: its contents, and how many new bytes the read obtained. */
  datatype Sighting = Sighting(file: bytes, got: nat)

  /** The file was only appended to since the last read, or is visibly shorter than what was read. */
  predicate Plausible(t: Tailing, e: Sighting) {
    e.got <= |e.file| - ResumeAt(t.r, e.file).offset &&
    (|e.file| >= t.r.offset ==> t.consumed <= e.file)
  }

  function TailOnce(t: Tailing, e: Sighting): Tailing
    requires Plausible(t, e)
  {
    var (r, lines) := ReadStep(t.r, e.file, e.got);
    Tailing(r, if |e.file| < t.r.offset then lines else t.delivered + lines, e.file[..r.offset])
  }

  predicate PlausibleRun(es: seq<Sighting>)
    decreases |es|, 0
  {
    es == [] || (PlausibleRun(es[..|es| - 1]) && Plausible(TailRun(es[..|es| - 1]), es[|es| - 1]))
  }

  function TailRun(es: seq<Sighting>): Tailing
    requires PlausibleRun(es)
    decreases |es|, 1
  {
    if es == [] then FRESH_TAIL else TailOnce(TailRun(es[..|es| - 1]), es[|es| - 1])
  }

  /** The lines delivered are the complete ones of the bytes consumed, the rest is held back. */
  predicate Exact(t: Tailing) {
    t.r.offset == |t.consumed| && Feed(NO_LINES, t.consumed) == Split(t.delivered, t.r.leftover)
  }

  /** Splitting more bytes goes on from where the split of the bytes before them stopped. */
  lemma FeedMore(consumed: bytes, added: bytes, delivered: seq<bytes>, left: bytes)
    requires Feed(NO_LINES, consumed) == Split(delivered, left)
    ensures var r := Feed(Split([], left), added);
      Feed(NO_LINES, consumed + added) == Split(delivered + r.lines, r.rest)
  {
    FeedAppend(NO_LINES, consumed, added);
    FeedShift(delivered, left, added);
  }

  lemma TailGrows(t: Tailing, e: Sighting)
    requires Plausible(t, e) && Exact(t) && |e.file| >= t.r.offset
    ensures Exact(TailOnce(t, e))
  {
    var n := t.r.offset;
    FeedMore(t.consumed, e.file[n..n + e.got], t.delivered, t.r.leftover);
    PrefixGrows(t.consumed, e.file, n, e.got);
    ReadStepIs(t.r, e.file, e.got, Feed(Split([], t.r.leftover), e.file[n..n + e.got]));
  }

  lemma PrefixGrows(p: bytes, file: bytes, n: nat, got: nat)
    requires p <= file && |p| == n && n + got <= |file|
    ensures p + file[n..n + got] == file[..n + got]
  {
  }

  lemma TailShrinks(t: Tailing, e: Sighting)
    requires Plausible(t, e) && |e.file| < t.r.offset
    ensures Exact(TailOnce(t, e))
  {
    assert e.file[0..0 + e.got] == e.file[..e.got];
  }

  lemma TailStep(t: Tailing, e: Sighting)
    requires Plausible(t, e) && Exact(t)
    ensures Exact(TailOnce(t, e)) && TailOnce(t, e).consumed <= e.file
  {
    if |e.file| < t.r.offset {
      TailShrinks(t, e);
    } else {
      TailGrows(t, e);
    }
  }

  /** However a growing file is cut into reads, the reader has delivered exactly the complete
      nonempty lines of the bytes it has read, once each and in order, and holds back the rest;
      an observed shrink starts this over on the new contents. */
  lemma {:induction false} TailEqualsSplit(es: seq<Sighting>)
    requires PlausibleRun(es)
    ensures var t := TailRun(es);
      t.r.offset == |t.consumed| &&
      Feed(NO_LINES, t.consumed) == Split(t.delivered, t.r.leftover)
    ensures es != [] ==> TailRun(es).consumed <= es[|es| - 1].file
  {
    if es != [] {
      TailEqualsSplit(es[..|es| - 1]);
      TailStep(TailRun(es[..|es| - 1]), es[|es| - 1]);
    }
  }

  // ---- cutting a file of lines at any byte ----

  lemma {:induction false} UnlinesAppend(a: seq<bytes>, b: seq<bytes>)
    ensures Unlines(a + b) == Unlines(a) + Unlines(b)
  {
    if b == [] {
      assert a + b == a;
    } else {
      UnlinesAppend(a, b[..|b| - 1]);
      assert (a + b)[..|a + b| - 1] == a + b[..|b| - 1];
    }
  }

  lemma UnlinesOne(line: bytes)
    ensures Unlines([line]) == line + [NL]
  {
    var front: seq<bytes> := [line][..0];
    assert front == [];
  }

  lemma UnlinesSplitAt(lines: seq<bytes>, j: nat, k: nat)
    requires j <= k <= |lines|
    ensures Unlines(lines[..k]) == Unlines(lines[..j]) + Unlines(lines[j..k])
  {
    assert lines[..j] + lines[j..k] == lines[..k];
    UnlinesAppend(lines[..j], lines[j..k]);
  }

  /** How many whole lines lie within the first `cut` bytes. */
  function WholeLines(lines: seq<bytes>, cut: nat): (m: nat)
    ensures m <= |lines|
  {
    if |Unlines(lines)| <= cut then |lines| else WholeLines(lines[..|lines| - 1], cut)
  }

  lemma {:induction false} WholeLinesFit(lines: seq<bytes>, cut: nat)
    ensures var m := WholeLines(lines, cut);
      |Unlines(lines[..m])| <= cut &&
      (m < |lines| ==> cut < |Unlines(lines[..m + 1])|)
  {
    var m := WholeLines(lines, cut);
    assert lines[..|lines|] == lines;
    if |Unlines(lines)| > cut {
      var front := lines[..|lines| - 1];
      WholeLinesFit(front, cut);
      assert front[..m] == lines[..m];
      assert m < |front| ==> front[..m + 1] == lines[..m + 1];
    }
  }

  lemma WholeLinesUnique(lines: seq<bytes>, cut: nat, m: nat)
    requires m <= |lines| && |Unlines(lines[..m])| <= cut
    requires m < |lines| ==> cut < |Unlines(lines[..m + 1])|
    ensures WholeLines(lines, cut) == m
  {
    WholeLinesFit(lines, cut);
    var m' := WholeLines(lines, cut);
    if m < m' {
      UnlinesSplitAt(lines, m + 1, m');
    } else if m' < m {
      UnlinesSplitAt(lines, m' + 1, m);
    }
  }

  /** Appending lines never changes which lines an old cut completes. */
  lemma WholeLinesStable(lines: seq<bytes>, more: seq<bytes>, cut: nat)
    requires cut <= |Unlines(lines)|
    ensures WholeLines(lines + more, cut) == WholeLines(lines, cut)
  {
    WholeLinesFit(lines, cut);
    var all, m := lines + more, WholeLines(lines, cut);
    assert all[..m] == lines[..m];
    if m < |lines| {
      assert all[..m + 1] == lines[..m + 1];
    } else {
      assert lines[..m] == lines;
      if more != [] {
        UnlinesSplitAt(all, m, m + 1);
        UnlinesOne(all[m]);
        assert all[m..m + 1] == [all[m]];
      }
    }
    WholeLinesUnique(all, cut, m);
  }

  /** A prefix of a file of lines splits into its whole lines and an unfinished piece. */
  lemma SplitOfTornFile(lines: seq<bytes>, cut: nat)
    requires AllLines(lines) && cut <= |Unlines(lines)|
    ensures Feed(NO_LINES, Unlines(lines)[..cut]).lines == lines[..WholeLines(lines, cut)]
  {
    var m := WholeLines(lines, cut);
    var torn := TornPart(lines, cut);
    SplitInvertsUnlines(lines[..m], torn);
  }

  /** Reopening a log for append keeps whatever torn bytes a crash left at its end. The lines
      appended afterwards all come back as they were written exactly when the cut fell between two
      lines; otherwise the first of them is glued to the torn bytes. What the glued line still
      means to the parser is decided in module TornAppend. */
  lemma AppendAfterCut(lines: seq<bytes>, cut: nat, more: seq<bytes>)
    requires AllLines(lines) && AllLines(more) && more != [] && cut <= |Unlines(lines)|
    ensures var m := WholeLines(lines, cut);
      Feed(NO_LINES, Unlines(lines)[..cut] + Unlines(more)).lines == lines[..m] + more
      <==> cut == |Unlines(lines[..m])|
  {
    var m := WholeLines(lines, cut);
    var torn := TornPart(lines, cut);
    var kept, glued := lines[..m], [torn + more[0]] + more[1..];
    GlueFirst(torn, more);
    UnlinesAppend(kept, glued);
    Regroup(Unlines(kept), torn, Unlines(more));
    SplitOfUnlines(kept + glued);
    GluedDiffers(kept, torn, more);
    BoundaryIffNoTorn(lines, cut, torn);
  }

  lemma GluedDiffers(kept: seq<bytes>, torn: bytes, more: seq<bytes>)
    requires more != []
    ensures kept + ([torn + more[0]] + more[1..]) == kept + more <==> torn == []
  {
    var glued := [torn + more[0]] + more[1..];
    assert (kept + glued)[|kept|] == torn + more[0] && (kept + more)[|kept|] == more[0];
    if torn == [] {
      assert torn + more[0] == more[0];
      assert glued == more;
    }
  }

  lemma BoundaryIffNoTorn(lines: seq<bytes>, cut: nat, torn: bytes)
    requires cut <= |Unlines(lines)|
    requires Unlines(lines)[..cut] == Unlines(lines[..WholeLines(lines, cut)]) + torn
    ensures torn == [] <==> cut == |Unlines(lines[..WholeLines(lines, cut)])|
  {
    assert |Unlines(lines)[..cut]| == cut;
  }

  lemma UnlinesCons(line: bytes, rest: seq<bytes>)
    ensures Unlines([line] + rest) == line + ([NL] + Unlines(rest))
  {
    UnlinesOne(line);
    UnlinesAppend([line], rest);
  }

  lemma GlueFirst(torn: bytes, more: seq<bytes>)
    requires more != []
    ensures torn + Unlines(more) == Unlines([torn + more[0]] + more[1..])
  {
    var tail := [NL] + Unlines(more[1..]);
    assert Unlines(more) == more[0] + tail by {
      UnlinesCons(more[0], more[1..]);
      assert [more[0]] + more[1..] == more;
    }
    UnlinesCons(torn + more[0], more[1..]);
    Regroup(torn, more[0], tail);
  }

  /** The unfinished piece of a line that a cut leaves behind. */
  lemma TornPart(lines: seq<bytes>, cut: nat) returns (torn: bytes)
    requires AllLines(lines) && cut <= |Unlines(lines)|
    ensures var m := WholeLines(lines, cut);
      Unlines(lines)[..cut] == Unlines(lines[..m]) + torn && NL !in torn &&
      (if m < |lines| then torn <= lines[m] else torn == [])
  {
    WholeLinesFit(lines, cut);
    var m := WholeLines(lines, cut);
    torn := Unlines(lines)[|Unlines(lines[..m])|..cut];
    if m == |lines| {
      assert lines[..m] == lines;
      assert torn == [];
      assert Unlines(lines)[..cut] + [] == Unlines(lines)[..cut];
    } else {
      PartsOf(lines, m);
      UnlinesAround(lines[..m], lines[m], lines[m + 1..]);
      TakeTorn(Unlines(lines), Unlines(lines[..m]), lines[m], Unlines(lines[m + 1..]), cut);
      assert |Unlines(lines[..m + 1])| == |Unlines(lines[..m])| + |lines[m]| + 1;
    }
  }

  lemma PartsOf<T>(s: seq<T>, m: nat)
    requires m < |s|
    ensures s == s[..m] + ([s[m]] + s[m + 1..]) && s[..m + 1] == s[..m] + [s[m]]
  {
  }

  lemma UnlinesAround(a: seq<bytes>, l: bytes, b: seq<bytes>)
    ensures Unlines(a + ([l] + b)) == Unlines(a) + (l + ([NL] + Unlines(b)))
    ensures Unlines(a + [l]) == Unlines(a) + (l + [NL])
  {
    UnlinesAppend(a, [l] + b);
    UnlinesCons(l, b);
    UnlinesAppend(a, [l]);
    UnlinesOne(l);
  }

  /** A cut inside the line after `whole`, before its newline. */
  lemma TakeTorn(all: bytes, whole: bytes, line: bytes, rest: bytes, cut: nat)
    requires all == whole + (line + ([NL] + rest)) && NL !in line && |whole| <= cut <= |whole| + |line|
    ensures all[..cut] == whole + all[|whole|..cut] && NL !in all[|whole|..cut] && all[|whole|..cut] <= line
  {
    assert all[|whole|..cut] == line[..cut - |whole|];
    assert all[..|whole|] == whole;
  }

  // ---- logs of operations ----

  function MapSeq<T, U>(f: T -> U, s: seq<T>): (r: seq<U>)
    ensures |r| == |s|
  {
    seq(|s|, k requires 0 <= k < |s| => f(s[k]))
  }

  function LinesOf(ops: seq<LogOp>): (ls: seq<bytes>)
    ensures |ls| == |ops|
  {
    MapSeq(Line, ops)
  }

  /** The bytes of a log that holds `ops`. */
  function EncodeLog(ops: seq<LogOp>): bytes {
    Unlines(LinesOf(ops))
  }

  predicate AllLoggable(ops: seq<LogOp>) {
    forall k :: 0 <= k < |ops| ==> Loggable(ops[k])
  }

  /** How many whole records lie within the first `cut` bytes of the log. */
  function Completed(ops: seq<LogOp>, cut: nat): (m: nat)
    ensures m <= |ops|
  {
    WholeLines(LinesOf(ops), cut)
  }

  function FilterMap<T, U>(f: T -> Option<U>, s: seq<T>): seq<U> {
    if s == [] then []
    else
      FilterMap(f, s[..|s| - 1]) +
      match f(s[|s| - 1]) { case Some(v) => [v] case None => [] }
  }

  lemma {:induction false} FilterMapAppend<T, U>(f: T -> Option<U>, a: seq<T>, b: seq<T>)
    ensures FilterMap(f, a + b) == FilterMap(f, a) + FilterMap(f, b)
  {
    if b == [] {
      assert a + b == a;
    } else {
      FilterMapAppend(f, a, b[..|b| - 1]);
      assert (a + b)[..|a + b| - 1] == a + b[..|b| - 1];
    }
  }

  lemma {:induction false} FilterMapAll<T, U>(f: T -> Option<U>, s: seq<T>, r: seq<U>)
    requires |s| == |r| && forall k :: 0 <= k < |s| ==> f(s[k]) == Some(r[k])
    ensures FilterMap(f, s) == r
  {
    if s != [] {
      FilterMapAll(f, s[..|s| - 1], r[..|r| - 1]);
      assert r[..|r| - 1] + [r[|r| - 1]] == r;
    }
  }

  /** The operations in a list of lines; lines that do not parse are skipped, as the fold skips them. */
  function DecodeAll(lines: seq<bytes>): seq<LogOp> {
    FilterMap(Decode, lines)
  }

  /** The operations a whole file replays to. */
  function FileOps(file: bytes): seq<LogOp> {
    DecodeAll(Feed(NO_LINES, file).lines)
  }

  lemma LinesOfLog(ops: seq<LogOp>)
    requires AllLoggable(ops)
    ensures AllLines(LinesOf(ops)) && DecodeAll(LinesOf(ops)) == ops
  {
    forall k | 0 <= k < |ops|
      ensures LinesOf(ops)[k] != [] && NL !in LinesOf(ops)[k] && Decode(LinesOf(ops)[k]) == Some(ops[k])
    {
      LineIsOneLine(ops[k]);
      LineRoundTrip(ops[k]);
    }
    FilterMapAll(Decode, LinesOf(ops), ops);
  }

  /** Cut the log of any operations at any byte: replaying and parsing what is left gives exactly
      the operations whose lines were completed before the cut. */
  lemma TornLogRecovery(ops: seq<LogOp>, cut: nat)
    requires AllLoggable(ops) && cut <= |EncodeLog(ops)|
    ensures FileOps(EncodeLog(ops)[..cut]) == ops[..Completed(ops, cut)]
  {
    var m := Completed(ops, cut);
    LinesOfLog(ops);
    SplitOfTornFile(LinesOf(ops), cut);
    LinesOfLog(ops[..m]);
    assert LinesOf(ops)[..m] == LinesOf(ops[..m]);
  }

  /** A log cut at no byte at all replays to its operations. */
  lemma LogRoundTrip(ops: seq<LogOp>)
    requires AllLoggable(ops)
    ensures FileOps(EncodeLog(ops)) == ops
  {
    LinesOfLog(ops);
    SplitInvertsUnlines(LinesOf(ops), []);
    assert EncodeLog(ops) + [] == EncodeLog(ops);
  }

  lemma EncodeAppend(a: seq<LogOp>, b: seq<LogOp>)
    ensures EncodeLog(a + b) == EncodeLog(a) + EncodeLog(b)
  {
    LinesOfAppend(a, b);
    UnlinesAppend(LinesOf(a), LinesOf(b));
  }

  lemma EncodeOne(op: LogOp)
    ensures EncodeLog([op]) == Line(op) + [NL]
  {
    UnlinesOne(Line(op));
    assert LinesOf([op]) == [Line(op)];
  }

  /** A reader standing somewhere inside a log. */
  predicate StandsIn(r: Reader, log: bytes) {
    r.offset <= |log| && r.leftover == Feed(NO_LINES, log[..r.offset]).rest
  }

  /** Reading on from inside a log delivers what splitting the longer prefix adds. */
  lemma ReadOn(r: Reader, log: bytes, file: bytes, got: nat)
    requires StandsIn(r, log) && log <= file && got <= |file| - r.offset
    ensures var (r', lines) := ReadStep(r, file, got);
      r'.offset == r.offset + got && StandsIn(r', file) &&
      Feed(NO_LINES, file[..r.offset]).lines + lines == Feed(NO_LINES, file[..r'.offset]).lines
  {
    var cut, cut' := r.offset, r.offset + got;
    assert file[..cut] == log[..cut];
    var added := file[cut..cut'];
    assert file[..cut] + added == file[..cut'];
    FeedAppend(NO_LINES, file[..cut], added);
    var before := Feed(NO_LINES, file[..cut]);
    FeedShift(before.lines, before.rest, added);
  }

  lemma TailDeliversLines(r: Reader, lines: seq<bytes>, more: seq<bytes>, got: nat)
    requires AllLines(lines + more) && StandsIn(r, Unlines(lines))
    requires got <= |Unlines(lines + more)| - r.offset
    ensures var all := lines + more;
      var (r', added) := ReadStep(r, Unlines(all), got);
      StandsIn(r', Unlines(all)) &&
      WholeLines(lines, r.offset) <= WholeLines(all, r'.offset) &&
      added == all[WholeLines(lines, r.offset)..WholeLines(all, r'.offset)]
  {
    var log, file := Unlines(lines), Unlines(lines + more);
    assert log <= file by {
      UnlinesAppend(lines, more);
    }
    WholeLinesStable(lines, more, r.offset);
    TailDeliversFile(r, log, lines + more, file, got, WholeLines(lines, r.offset));
  }

  lemma TailDeliversFile(r: Reader, log: bytes, all: seq<bytes>, file: bytes, got: nat, m: nat)
    requires AllLines(all) && file == Unlines(all) && StandsIn(r, log) && log <= file && got <= |file| - r.offset
    requires m == WholeLines(all, r.offset)
    ensures var (r', added) := ReadStep(r, file, got);
      StandsIn(r', file) && m <= WholeLines(all, r'.offset) && added == all[m..WholeLines(all, r'.offset)]
  {
    ReadOn(r, log, file, got);
    Deliveries(all, r.offset, r.offset + got, ReadStep(r, file, got).1);
  }

  lemma Deliveries(all: seq<bytes>, cut: nat, cut': nat, added: seq<bytes>)
    requires AllLines(all) && cut <= |Unlines(all)| && cut' <= |Unlines(all)|
    requires Feed(NO_LINES, Unlines(all)[..cut]).lines + added == Feed(NO_LINES, Unlines(all)[..cut']).lines
    ensures WholeLines(all, cut) <= WholeLines(all, cut') && added == all[WholeLines(all, cut)..WholeLines(all, cut')]
  {
    SplitOfTornFile(all, cut);
    SplitOfTornFile(all, cut');
    TakeSuffix(all, WholeLines(all, cut), WholeLines(all, cut'), added);
  }

  lemma TakeSuffix<T>(s: seq<T>, m: nat, m': nat, t: seq<T>)
    requires m <= |s| && m' <= |s| && s[..m] + t == s[..m']
    ensures m <= m' && t == s[m..m']
  {
    assert |s[..m] + t| == m + |t|;
    assert s[..m'][m..] == t;
  }

  /** The whole log completes every record. */
  lemma AllCompleted(ops: seq<LogOp>)
    ensures Completed(ops, |EncodeLog(ops)|) == |ops|
  {
  }

  /** Tailing a log that grew from `ops` to `ops + more`, however many bytes the read obtains,
      delivers exactly the operations completed by the new bytes and leaves the reader inside
      the log. */
  lemma TailDeliversOps(r: Reader, ops: seq<LogOp>, more: seq<LogOp>, got: nat)
    requires AllLoggable(ops + more) && StandsIn(r, EncodeLog(ops))
    requires got <= |EncodeLog(ops + more)| - r.offset
    ensures var all := ops + more;
      var (r', lines) := ReadStep(r, EncodeLog(all), got);
      StandsIn(r', EncodeLog(all)) &&
      Completed(ops, r.offset) <= Completed(all, r'.offset) &&
      DecodeAll(lines) == all[Completed(ops, r.offset)..Completed(all, r'.offset)]
  {
    var all := ops + more;
    LinesOfLog(all);
    LinesOfAppend(ops, more);
    TailDeliversLines(r, LinesOf(ops), LinesOf(more), got);
    var (r', lines) := ReadStep(r, EncodeLog(all), got);
    var m, m' := Completed(ops, r.offset), Completed(all, r'.offset);
    LinesOfSlice(all, m, m');
    LinesOfLog(all[m..m']);
  }

  lemma LinesOfAppend(a: seq<LogOp>, b: seq<LogOp>)
    ensures LinesOf(a + b) == LinesOf(a) + LinesOf(b)
  {
    MapAppend(Line, a, b);
  }

  lemma MapAppend<T, U>(f: T -> U, a: seq<T>, b: seq<T>)
    ensures MapSeq(f, a + b) == MapSeq(f, a) + MapSeq(f, b)
  {
  }

  lemma LinesOfSlice(ops: seq<LogOp>, j: nat, k: nat)
    requires j <= k <= |ops|
    ensures LinesOf(ops[j..k]) == LinesOf(ops)[j..k]
  {
  }
}
