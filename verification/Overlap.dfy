/** Where speakers truly overlap, and the clean spans that back a speaker's embedding. */
module Overlap {
  import opened Common
  import opened Intervals
  import opened Speakers

  // ----- Ranges with two or more speakers -----

  /** The speakers of the turns that touch a range. */
  function Touching(turns: seq<Turn>, start: int, end: int): set<string> {
    set k | 0 <= k < |turns| && Touches(turns[k], start, end) :: turns[k].speaker
  }

  predicate Touches(turn: Turn, start: int, end: int) { turn.start < end && start < turn.end }

  /** Between two neighbouring boundaries, touching the range is speaking at each of its samples. */
  lemma TouchingIsActive(turns: seq<Turn>, points: seq<int>, i: nat, t: int)
    requires Increasing(points) && Bounded(turns, points) && InCell(points, i, t)
    ensures Touching(turns, points[i], points[i + 1]) == Active(turns, t)
  {
    forall k | 0 <= k < |turns| ensures Touches(turns[k], points[i], points[i + 1]) <==> turns[k].At(t) {
      NoPointBetween(points, i, turns[k].start);
      NoPointBetween(points, i, turns[k].end);
    }
  }

  ghost predicate Overlapped(turns: seq<Turn>, t: int) { |Active(turns, t)| >= 2 }

  /** Non-empty ranges, in order. */
  predicate Ranges(spans: seq<Span>) {
    && (forall k :: 0 <= k < |spans| ==> spans[k].start < spans[k].end)
    && (forall i, j :: 0 <= i < j < |spans| ==> spans[i].end <= spans[j].start)
  }

  /** The samples of [from, to) with two or more speakers. */
  ghost predicate Collected(turns: seq<Turn>, from: int, to: int, overlaps: seq<Span>) {
    forall t :: t in Covered(overlaps) <==> from <= t < to && Overlapped(turns, t)
  }

  predicate EndBy(spans: seq<Span>, bound: int) {
    forall k :: 0 <= k < |spans| ==> spans[k].end <= bound
  }

  /** What the scan knows after the first i cells. */
  ghost predicate Scanned(turns: seq<Turn>, points: seq<int>, i: nat, overlaps: seq<Span>) {
    && Ranges(overlaps)
    && (if points == [] then i == 0 && overlaps == []
        else i < |points| && EndBy(overlaps, points[i]) && Collected(turns, points[0], points[i], overlaps))
  }

  lemma CellAllOrNone(turns: seq<Turn>, points: seq<int>, i: nat)
    requires Increasing(points) && Bounded(turns, points) && i + 1 < |points|
    ensures forall t :: points[i] <= t < points[i + 1] ==>
      (Overlapped(turns, t) <==> |Touching(turns, points[i], points[i + 1])| >= 2)
  {
    forall t | points[i] <= t < points[i + 1]
      ensures Overlapped(turns, t) <==> |Touching(turns, points[i], points[i + 1])| >= 2
    {
      TouchingIsActive(turns, points, i, t);
    }
  }

  lemma CollectCell(turns: seq<Turn>, from: int, start: int, end: int, overlaps: seq<Span>, shared: bool)
    requires Collected(turns, from, start, overlaps) && from <= start < end
    requires forall t :: start <= t < end ==> (Overlapped(turns, t) <==> shared)
    ensures Collected(turns, from, end, if shared then overlaps + [Span(start, end)] else overlaps)
  {
    CoveredAppend(overlaps, Span(start, end));
  }

  lemma RangesAppend(overlaps: seq<Span>, start: int, end: int)
    requires Ranges(overlaps) && EndBy(overlaps, start) && start < end
    ensures Ranges(overlaps + [Span(start, end)]) && EndBy(overlaps + [Span(start, end)], end) && EndBy(overlaps, end)
  {
  }

  lemma ScanStep(turns: seq<Turn>, points: seq<int>, i: nat, overlaps: seq<Span>, after: seq<Span>)
    requires Increasing(points) && Bounded(turns, points) && i + 1 < |points| && Scanned(turns, points, i, overlaps)
    requires after == if |Touching(turns, points[i], points[i + 1])| >= 2
        then overlaps + [Span(points[i], points[i + 1])] else overlaps
    ensures Scanned(turns, points, i + 1, after)
  {
    CellAllOrNone(turns, points, i);
    CollectCell(turns, points[0], points[i], points[i + 1], overlaps, |Touching(turns, points[i], points[i + 1])| >= 2);
    RangesAppend(overlaps, points[i], points[i + 1]);
  }

  lemma OwnBoundaries(turns: seq<Turn>)
    ensures Increasing(Boundaries(turns)) && Bounded(turns, Boundaries(turns))
  {
    BoundariesIncreasing(turns);
    BoundariesMembers(turns);
  }

  /** Exactly the samples at which at least two distinct speakers are active. */
  method TrueOverlapRanges(regular: seq<Turn>) returns (overlaps: seq<Span>)
    ensures Ranges(overlaps)
    ensures forall t :: t in Covered(overlaps) <==> Overlapped(regular, t)
  {
    var boundaries := Boundaries(regular);
    OwnBoundaries(regular);
    ghost var i;
    overlaps, i := ScanCells(regular, boundaries);
    ScanEnd(regular, boundaries, i, overlaps);
  }

  method ScanCells(regular: seq<Turn>, boundaries: seq<int>) returns (overlaps: seq<Span>, ghost last: nat)
    requires Increasing(boundaries) && Bounded(regular, boundaries)
    ensures last + 1 >= |boundaries| && Scanned(regular, boundaries, last, overlaps)
  {
    overlaps := [];
    var i: nat := 0;
    while i + 1 < |boundaries|
      invariant Scanned(regular, boundaries, i, overlaps)
    {
      var start, end := boundaries[i], boundaries[i + 1];
      ghost var before := overlaps;
      var speakers := Touching(regular, start, end);
      if |speakers| >= 2 {
        overlaps := overlaps + [Span(start, end)];
      }
      ScanStep(regular, boundaries, i, before, overlaps);
      i := i + 1;
    }
    last := i;
  }

  /** Nobody speaks outside the boundaries. */
  lemma ScanEnd(regular: seq<Turn>, boundaries: seq<int>, i: nat, overlaps: seq<Span>)
    requires Increasing(boundaries) && Bounded(regular, boundaries) && i + 1 >= |boundaries|
    requires Scanned(regular, boundaries, i, overlaps)
    ensures Ranges(overlaps) && forall t :: t in Covered(overlaps) <==> Overlapped(regular, t)
  {
    forall t | Outside(boundaries, t) ensures !Overlapped(regular, t) {
      ActiveOutside(regular, boundaries, t);
    }
    forall t ensures t in Covered(overlaps) <==> Overlapped(regular, t) {
      if !Outside(boundaries, t) { assert boundaries[0] <= t < boundaries[i]; }
    }
  }

  // ----- Subtracting ranges -----

  /** What is left of a span outside one excluded range. */
  function Cut(span: Span, out: Span): seq<Span> {
    if out.end <= span.start || out.start >= span.end then [span]
    else (if span.start < out.start then [Span(span.start, out.start)] else [])
         + (if out.end < span.end then [Span(out.end, span.end)] else [])
  }

  function CutAll(spans: seq<Span>, out: Span): seq<Span> {
    if spans == [] then [] else CutAll(spans[..|spans| - 1], out) + Cut(spans[|spans| - 1], out)
  }

  function CutEach(spans: seq<Span>, exclusions: seq<Span>): seq<Span> {
    if exclusions == [] then spans
    else CutAll(CutEach(spans, exclusions[..|exclusions| - 1]), exclusions[|exclusions| - 1])
  }

  function NonEmpty(spans: seq<Span>): seq<Span> {
    if spans == [] then []
    else NonEmpty(spans[..|spans| - 1]) + if spans[|spans| - 1].end > spans[|spans| - 1].start
        then [spans[|spans| - 1]] else []
  }

  function Subtract(start: int, end: int, exclusions: seq<Span>): seq<Span> {
    NonEmpty(CutEach([Span(start, end)], exclusions))
  }

  lemma CoveredOne(s: Span)
    ensures Covered([s]) == Range(s.start, s.end)
  {
    assert [s][..0] == [];
  }

  lemma CutCovers(span: Span, out: Span)
    ensures Covered(Cut(span, out)) == Range(span.start, span.end) - Range(out.start, out.end)
  {
    CoveredOne(span);
    if !(out.end <= span.start || out.start >= span.end) {
      var left := if span.start < out.start then [Span(span.start, out.start)] else [];
      var right := if out.end < span.end then [Span(out.end, span.end)] else [];
      CoveredConcat(left, right);
      CoveredOne(Span(span.start, out.start));
      CoveredOne(Span(out.end, span.end));
      assert Cut(span, out) == left + right;
    }
  }

  lemma {:induction false} CutAllCovers(spans: seq<Span>, out: Span)
    ensures Covered(CutAll(spans, out)) == Covered(spans) - Range(out.start, out.end)
  {
    if spans != [] {
      CutAllCovers(spans[..|spans| - 1], out);
      CutCovers(spans[|spans| - 1], out);
      CoveredConcat(CutAll(spans[..|spans| - 1], out), Cut(spans[|spans| - 1], out));
    }
  }

  lemma {:induction false} CutEachCovers(spans: seq<Span>, exclusions: seq<Span>)
    ensures Covered(CutEach(spans, exclusions)) == Covered(spans) - Covered(exclusions)
  {
    if exclusions != [] {
      CutEachCovers(spans, exclusions[..|exclusions| - 1]);
      CutAllCovers(CutEach(spans, exclusions[..|exclusions| - 1]), exclusions[|exclusions| - 1]);
    }
  }

  lemma {:induction false} NonEmptyCovers(spans: seq<Span>)
    ensures Covered(NonEmpty(spans)) == Covered(spans)
    ensures forall k :: 0 <= k < |NonEmpty(spans)| ==> NonEmpty(spans)[k].start < NonEmpty(spans)[k].end
  {
    if spans != [] {
      var last := spans[|spans| - 1];
      NonEmptyCovers(spans[..|spans| - 1]);
      if last.end > last.start {
        CoveredAppend(NonEmpty(spans[..|spans| - 1]), last);
      } else {
        assert Range(last.start, last.end) == {};
        assert NonEmpty(spans) == NonEmpty(spans[..|spans| - 1]);
      }
    }
  }

  /** Subtraction is set difference, whatever the excluded ranges. */
  lemma SubtractIsDifference(start: int, end: int, exclusions: seq<Span>)
    ensures Covered(Subtract(start, end, exclusions)) == Range(start, end) - Covered(exclusions)
    ensures forall k :: 0 <= k < |Subtract(start, end, exclusions)| ==>
      Subtract(start, end, exclusions)[k].start < Subtract(start, end, exclusions)[k].end
  {
    CutEachCovers([Span(start, end)], exclusions);
    NonEmptyCovers(CutEach([Span(start, end)], exclusions));
  }

  // ----- The pieces are whole -----

  predicate StartAfter(spans: seq<Span>, bound: int) {
    forall k :: 0 <= k < |spans| ==> bound < spans[k].start
  }

  predicate NonEmptyRange(s: Span) { s.start < s.end }

  lemma CutSeparated(span: Span, out: Span, before: int, bound: int)
    requires span.Proper() && NonEmptyRange(out) && before < span.start && span.end <= bound
    ensures Separated(Cut(span, out)) && StartAfter(Cut(span, out), before) && EndBy(Cut(span, out), bound)
  {
  }

  lemma {:induction false} CutAllSeparated(spans: seq<Span>, out: Span, bound: int)
    requires Separated(spans) && NonEmptyRange(out) && EndBy(spans, bound)
    ensures Separated(CutAll(spans, out)) && EndBy(CutAll(spans, out), bound)
  {
    if spans != [] {
      var front, last := spans[..|spans| - 1], spans[|spans| - 1];
      if front == [] {
        CutSeparated(last, out, last.start - 1, bound);
        assert CutAll(front, out) == [];
      } else {
        var middle := front[|front| - 1].end;
        forall k | 0 <= k < |front| ensures front[k].end <= middle {
          if k < |front| - 1 { assert front[k].end < front[|front| - 1].start; }
        }
        CutAllSeparated(front, out, middle);
        CutSeparated(last, out, middle, bound);
      }
    }
  }

  ghost predicate AllNonEmpty(spans: seq<Span>) {
    forall k :: 0 <= k < |spans| ==> NonEmptyRange(spans[k])
  }

  lemma {:induction false} CutEachSeparated(spans: seq<Span>, exclusions: seq<Span>, bound: int)
    requires Separated(spans) && EndBy(spans, bound) && AllNonEmpty(exclusions)
    ensures Separated(CutEach(spans, exclusions)) && EndBy(CutEach(spans, exclusions), bound)
  {
    if exclusions != [] {
      CutEachSeparated(spans, exclusions[..|exclusions| - 1], bound);
      CutAllSeparated(CutEach(spans, exclusions[..|exclusions| - 1]), exclusions[|exclusions| - 1], bound);
    }
  }

  lemma {:induction false} NonEmptySeparated(spans: seq<Span>, bound: int)
    requires Separated(spans) && EndBy(spans, bound)
    ensures Separated(NonEmpty(spans)) && EndBy(NonEmpty(spans), bound)
  {
    if spans != [] {
      var front, last := spans[..|spans| - 1], spans[|spans| - 1];
      if front == [] {
        NonEmptySeparated(front, bound);
      } else {
        var middle := front[|front| - 1].end;
        forall k | 0 <= k < |front| ensures front[k].end <= middle {
          if k < |front| - 1 { assert front[k].end < front[|front| - 1].start; }
        }
        NonEmptySeparated(front, middle);
      }
    }
  }

  /** A run of samples that separated spans cover lies inside one of them. */
  lemma {:induction false} RunInOneSpan(spans: seq<Span>, a: int, b: int) returns (k: nat)
    requires Separated(spans) && a < b && forall t :: a <= t < b ==> t in Covered(spans)
    ensures k < |spans| && spans[k].start <= a && b <= spans[k].end
  {
    CoveredMembers(spans);
    assert a in Covered(spans);
    k :| 0 <= k < |spans| && spans[k].Has(a);
    EndIsFree(spans, k);
  }

  /** Nothing covers the end of a separated span. */
  lemma EndIsFree(spans: seq<Span>, k: nat)
    requires Separated(spans) && k < |spans|
    ensures spans[k].end !in Covered(spans)
  {
    CoveredMembers(spans);
    forall j | 0 <= j < |spans| ensures !spans[j].Has(spans[k].end) {
      if j < k { assert spans[j].end < spans[k].start; }
    }
  }

  /** Every run of samples in the span that avoids the excluded ranges lies inside one piece. */
  lemma SubtractKeepsRuns(start: int, end: int, exclusions: seq<Span>, a: int, b: int) returns (k: nat)
    requires AllNonEmpty(exclusions) && start <= a < b <= end && forall t :: a <= t < b ==> t !in Covered(exclusions)
    ensures k < |Subtract(start, end, exclusions)|
    ensures Subtract(start, end, exclusions)[k].start <= a && b <= Subtract(start, end, exclusions)[k].end
  {
    SubtractIsDifference(start, end, exclusions);
    CutEachSeparated([Span(start, end)], exclusions, end);
    NonEmptySeparated(CutEach([Span(start, end)], exclusions), end);
    k := RunInOneSpan(Subtract(start, end, exclusions), a, b);
  }

  method SubtractRanges(start: int, end: int, exclusions: seq<Span>) returns (parts: seq<Span>)
    ensures parts == Subtract(start, end, exclusions)
  {
    var remaining := [Span(start, end)];
    for i := 0 to |exclusions|
      invariant remaining == CutEach([Span(start, end)], exclusions[..i])
    {
      assert exclusions[..i + 1][..i] == exclusions[..i];
      remaining := CutRemaining(remaining, exclusions[i]);
    }
    assert exclusions[..|exclusions|] == exclusions;
    parts := NonEmptyOf(remaining);
  }

  method NonEmptyOf(remaining: seq<Span>) returns (parts: seq<Span>)
    ensures parts == NonEmpty(remaining)
  {
    parts := [];
    for k := 0 to |remaining|
      invariant parts == NonEmpty(remaining[..k])
    {
      assert remaining[..k + 1][..k] == remaining[..k];
      if remaining[k].end > remaining[k].start {
        parts := parts + [remaining[k]];
      }
    }
    assert remaining[..|remaining|] == remaining;
  }

  method CutRemaining(remaining: seq<Span>, out: Span) returns (nextRemaining: seq<Span>)
    ensures nextRemaining == CutAll(remaining, out)
  {
    nextRemaining := [];
    for k := 0 to |remaining|
      invariant nextRemaining == CutAll(remaining[..k], out)
    {
      assert remaining[..k + 1][..k] == remaining[..k];
      var current := remaining[k];
      if out.end <= current.start || out.start >= current.end {
        nextRemaining := nextRemaining + [current];
        continue;
      }
      if current.start < out.start {
        nextRemaining := nextRemaining + [Span(current.start, out.start)];
      }
      if out.end < current.end {
        nextRemaining := nextRemaining + [Span(out.end, current.end)];
      }
    }
    assert remaining[..|remaining|] == remaining;
  }

  // ----- Choosing support spans -----

  function Length(s: Span): int { s.end - s.start }

  /** Longest first; equally long ones keep their order. */
  function InsertLongest(spans: seq<Span>, s: Span): seq<Span> {
    if spans == [] || Length(spans[|spans| - 1]) >= Length(s) then spans + [s]
    else InsertLongest(spans[..|spans| - 1], s) + [spans[|spans| - 1]]
  }

  function LongestFirst(spans: seq<Span>): seq<Span> {
    if spans == [] then [] else InsertLongest(LongestFirst(spans[..|spans| - 1]), spans[|spans| - 1])
  }

  /** Four-second spans from a candidate while a second is left and fewer than three are taken. */
  function Take(supports: seq<Span>, cursor: int, end: int): seq<Span>
    decreases end - cursor
  {
    if end - cursor >= SAMPLE_RATE && |supports| < 3
    then Take(supports + [Span(cursor, Min(end, cursor + 4 * SAMPLE_RATE))], Min(end, cursor + 4 * SAMPLE_RATE), end)
    else supports
  }

  function TakeAll(ordered: seq<Span>): seq<Span> {
    if ordered == [] then []
    else Take(TakeAll(ordered[..|ordered| - 1]), ordered[|ordered| - 1].start, ordered[|ordered| - 1].end)
  }

  predicate Inside(s: Span, t: Span) { t.start <= s.start && s.end <= t.end }

  /** One to four seconds, inside one of the candidates. */
  ghost predicate Supported(s: Span, candidates: seq<Span>) {
    SAMPLE_RATE <= Length(s) <= 4 * SAMPLE_RATE && exists k :: 0 <= k < |candidates| && Inside(s, candidates[k])
  }

  ghost predicate AllSupported(supports: seq<Span>, candidates: seq<Span>) {
    |supports| <= 3 && forall i :: 0 <= i < |supports| ==> Supported(supports[i], candidates)
  }

  lemma {:induction false} TakeKeeps(supports: seq<Span>, cursor: int, end: int, candidates: seq<Span>, k: nat)
    requires k < |candidates| && candidates[k].start <= cursor && end <= candidates[k].end
    requires AllSupported(supports, candidates)
    ensures AllSupported(Take(supports, cursor, end), candidates)
    ensures supports <= Take(supports, cursor, end)
    ensures |Take(supports, cursor, end)| == 0 <==> |supports| == 0 && end - cursor < SAMPLE_RATE
    decreases end - cursor
  {
    if end - cursor >= SAMPLE_RATE && |supports| < 3 {
      var next := Min(end, cursor + 4 * SAMPLE_RATE);
      assert Inside(Span(cursor, next), candidates[k]);
      TakeKeeps(supports + [Span(cursor, next)], next, end, candidates, k);
    }
  }

  lemma {:induction false} SupportedMore(supports: seq<Span>, candidates: seq<Span>, more: Span)
    requires AllSupported(supports, candidates)
    ensures AllSupported(supports, candidates + [more])
  {
    forall i | 0 <= i < |supports| ensures Supported(supports[i], candidates + [more]) {
      var k :| 0 <= k < |candidates| && Inside(supports[i], candidates[k]);
      assert Inside(supports[i], (candidates + [more])[k]);
    }
  }

  /** Some candidate is a second long. */
  ghost predicate HasSecond(candidates: seq<Span>) {
    exists k :: 0 <= k < |candidates| && Length(candidates[k]) >= SAMPLE_RATE
  }

  lemma {:induction false} TakeAllKeeps(ordered: seq<Span>)
    ensures AllSupported(TakeAll(ordered), ordered)
    ensures TakeAll(ordered) != [] <==> HasSecond(ordered)
  {
    if ordered != [] {
      var front, last := ordered[..|ordered| - 1], ordered[|ordered| - 1];
      TakeAllKeeps(front);
      assert ordered == front + [last];
      SupportedMore(TakeAll(front), front, last);
      TakeKeeps(TakeAll(front), last.start, last.end, ordered, |ordered| - 1);
      if HasSecond(front) {
        var k :| 0 <= k < |front| && Length(front[k]) >= SAMPLE_RATE;
        assert Length(ordered[k]) >= SAMPLE_RATE;
      }
      if Length(last) >= SAMPLE_RATE { assert Length(ordered[|ordered| - 1]) >= SAMPLE_RATE; }
    }
  }

  lemma {:induction false} InsertLongestMembers(spans: seq<Span>, s: Span)
    ensures multiset(InsertLongest(spans, s)) == multiset(spans) + multiset{s}
  {
    if spans == [] || Length(spans[|spans| - 1]) >= Length(s) {
    } else {
      InsertLongestMembers(spans[..|spans| - 1], s);
      assert spans == spans[..|spans| - 1] + [spans[|spans| - 1]];
    }
  }

  lemma {:induction false} LongestFirstMembers(spans: seq<Span>)
    ensures multiset(LongestFirst(spans)) == multiset(spans)
  {
    if spans != [] {
      LongestFirstMembers(spans[..|spans| - 1]);
      InsertLongestMembers(LongestFirst(spans[..|spans| - 1]), spans[|spans| - 1]);
      assert spans == spans[..|spans| - 1] + [spans[|spans| - 1]];
    }
  }

  lemma Reordered(a: seq<Span>, b: seq<Span>, k: nat) returns (j: nat)
    requires multiset(a) == multiset(b) && k < |a|
    ensures j < |b| && b[j] == a[k]
  {
    assert a[k] in multiset(b);
    j :| 0 <= j < |b| && b[j] == a[k];
  }

  /** The chosen supports, whatever order the candidates are visited in, are legal and exist whenever one can. */
  lemma SupportsAreLegal(segments: seq<Span>)
    ensures AllSupported(TakeAll(LongestFirst(segments)), segments)
    ensures TakeAll(LongestFirst(segments)) != [] <==> HasSecond(segments)
  {
    var ordered := LongestFirst(segments);
    var supports := TakeAll(ordered);
    TakeAllKeeps(ordered);
    LongestFirstMembers(segments);
    forall i | 0 <= i < |supports| ensures Supported(supports[i], segments) {
      assert Supported(supports[i], ordered);
      var k :| 0 <= k < |ordered| && Inside(supports[i], ordered[k]);
      var j := Reordered(ordered, segments, k);
      assert Inside(supports[i], segments[j]);
    }
    if HasSecond(ordered) {
      var k :| 0 <= k < |ordered| && Length(ordered[k]) >= SAMPLE_RATE;
      var j := Reordered(ordered, segments, k);
      assert Length(segments[j]) >= SAMPLE_RATE;
    }
    if HasSecond(segments) {
      var k :| 0 <= k < |segments| && Length(segments[k]) >= SAMPLE_RATE;
      var j := Reordered(segments, ordered, k);
      assert Length(ordered[j]) >= SAMPLE_RATE;
    }
  }

  lemma {:induction false} TakeAllSettled(ordered: seq<Span>, n: nat)
    requires n <= |ordered| && |TakeAll(ordered[..n])| >= 3
    ensures TakeAll(ordered) == TakeAll(ordered[..n])
  {
    if n < |ordered| {
      var front := ordered[..|ordered| - 1];
      assert front[..n] == ordered[..n];
      TakeAllSettled(front, n);
    } else {
      assert ordered[..n] == ordered;
    }
  }

  // ----- Which supports -----

  /** The spans of one length, in their order. */
  function OfLength(spans: seq<Span>, length: int): seq<Span> {
    if spans == [] then []
    else
      var last := spans[|spans| - 1];
      OfLength(spans[..|spans| - 1], length) + if last.end - last.start == length then [last] else []
  }

  /** The same spans, longer ones first and equally long ones in their order. */
  ghost predicate LongerFirst(spans: seq<Span>, ordered: seq<Span>) {
    && multiset(ordered) == multiset(spans)
    && (forall i, j :: 0 <= i < j < |ordered| ==>
        ordered[i].end - ordered[i].start >= ordered[j].end - ordered[j].start)
    && (forall length :: OfLength(ordered, length) == OfLength(spans, length))
  }

  predicate Falling(spans: seq<Span>) { forall i, j :: 0 <= i < j < |spans| ==> Length(spans[i]) >= Length(spans[j]) }

  lemma {:induction false} InsertLongestFalls(spans: seq<Span>, s: Span, bound: int)
    requires Falling(spans) && Length(s) <= bound && forall k :: 0 <= k < |spans| ==> Length(spans[k]) <= bound
    ensures Falling(InsertLongest(spans, s))
    ensures forall k :: 0 <= k < |InsertLongest(spans, s)| ==> Length(InsertLongest(spans, s)[k]) <= bound
    ensures forall k :: 0 <= k < |InsertLongest(spans, s)| ==>
      Length(InsertLongest(spans, s)[k]) >= Length(s)
      || (spans != [] && Length(InsertLongest(spans, s)[k]) >= Length(spans[|spans| - 1]))
  {
    if spans == [] || Length(spans[|spans| - 1]) >= Length(s) {
    } else {
      InsertLongestFalls(spans[..|spans| - 1], s, bound);
    }
  }

  lemma {:induction false} InsertLongestOf(spans: seq<Span>, s: Span, length: int)
    ensures OfLength(InsertLongest(spans, s), length)
         == OfLength(spans, length) + if Length(s) == length then [s] else []
  {
    if spans == [] || Length(spans[|spans| - 1]) >= Length(s) {
      assert (spans + [s])[..|spans|] == spans;
    } else {
      var front, last := spans[..|spans| - 1], spans[|spans| - 1];
      InsertLongestOf(front, s, length);
      assert (InsertLongest(front, s) + [last])[..|InsertLongest(front, s)|] == InsertLongest(front, s);
    }
  }

  lemma {:induction false} LongestFirstOf(spans: seq<Span>, length: int)
    ensures OfLength(LongestFirst(spans), length) == OfLength(spans, length)
  {
    if spans != [] {
      LongestFirstOf(spans[..|spans| - 1], length);
      InsertLongestOf(LongestFirst(spans[..|spans| - 1]), spans[|spans| - 1], length);
    }
  }

  lemma {:induction false} LongestFirstFalls(spans: seq<Span>) returns (bound: int)
    ensures Falling(LongestFirst(spans))
    ensures forall k :: 0 <= k < |LongestFirst(spans)| ==> Length(LongestFirst(spans)[k]) <= bound
  {
    bound := 0;
    if spans != [] {
      var front := LongestFirst(spans[..|spans| - 1]);
      bound := LongestFirstFalls(spans[..|spans| - 1]);
      bound := Max(bound, Length(spans[|spans| - 1]));
      InsertLongestFalls(front, spans[|spans| - 1], bound);
    }
  }

  lemma LongestFirstSorts(spans: seq<Span>)
    ensures LongerFirst(spans, LongestFirst(spans))
  {
    LongestFirstMembers(spans);
    var bound := LongestFirstFalls(spans);
    forall length ensures OfLength(LongestFirst(spans), length) == OfLength(spans, length) {
      LongestFirstOf(spans, length);
    }
  }

  /** Piece number n of a candidate. */
  datatype Piece = Piece(from: nat, n: nat)

  /** Four seconds further on per piece, there is still a second. */
  predicate IsPiece(candidates: seq<Span>, p: Piece) {
    p.from < |candidates| && candidates[p.from].end - (candidates[p.from].start + p.n * 64000) >= 16000
  }

  function PieceSpan(candidates: seq<Span>, p: Piece): Span
    requires p.from < |candidates|
  {
    var start := candidates[p.from].start + p.n * 64000;
    Span(start, if candidates[p.from].end <= start + 64000 then candidates[p.from].end else start + 64000)
  }

  predicate Sooner(a: Piece, b: Piece) { a.from < b.from || (a.from == b.from && a.n < b.n) }

  /** The supports are the first three pieces, candidate by candidate, of those that come sooner than a limit. */
  ghost predicate FirstPieces(candidates: seq<Span>, supports: seq<Span>, pieces: seq<Piece>, limit: Piece) {
    && |pieces| == |supports| <= 3
    && (forall i :: 0 <= i < |pieces| ==>
          IsPiece(candidates, pieces[i]) && Sooner(pieces[i], limit) && supports[i] == PieceSpan(candidates, pieces[i]))
    && (forall i, j :: 0 <= i < j < |pieces| ==> Sooner(pieces[i], pieces[j]))
    && (forall p :: IsPiece(candidates, p) && Sooner(p, limit) ==>
        p in pieces || (|pieces| == 3 && Sooner(pieces[2], p)))
  }

  lemma FirstPiecesMore(candidates: seq<Span>, supports: seq<Span>, pieces: seq<Piece>, p: Piece, next: Piece)
    requires FirstPieces(candidates, supports, pieces, p) && |supports| < 3 && IsPiece(candidates, p)
        && next == Piece(p.from, p.n + 1)
    ensures FirstPieces(candidates, supports + [PieceSpan(candidates, p)], pieces + [p], next)
  {
    var more := pieces + [p];
    forall q | IsPiece(candidates, q) && Sooner(q, next) ensures q in more || (|more| == 3 && Sooner(more[2], q)) {
      if q == p { assert more[|pieces|] == p; } else {
        assert Sooner(q, p);
        if q in pieces { assert q in more; }
      }
    }
  }

  /** Nothing more of a candidate is taken when three are taken or less than a second is left. */
  lemma FirstPiecesDone(candidates: seq<Span>, supports: seq<Span>, pieces: seq<Piece>, p: Piece, next: Piece)
    requires FirstPieces(candidates, supports, pieces, p) && (|supports| == 3 || !IsPiece(candidates, p))
        && next == Piece(p.from + 1, 0)
    ensures FirstPieces(candidates, supports, pieces, next)
  {
    forall q | IsPiece(candidates, q) && Sooner(q, next)
      ensures q in pieces || (|pieces| == 3 && Sooner(pieces[2], q)) {
      if !Sooner(q, p) {
        assert q.from == p.from && q.n >= p.n;
        assert q.n * 64000 >= p.n * 64000;
      }
    }
  }

  lemma {:induction false} TakeFirst(candidates: seq<Span>, supports: seq<Span>, pieces: seq<Piece>, p: Piece,
                                     cursor: int, end: int, next: Piece)
    returns (after: seq<Piece>)
    requires p.from < |candidates| && end == candidates[p.from].end && next == Piece(p.from + 1, 0)
    requires FirstPieces(candidates, supports, pieces, p)
    requires cursor == candidates[p.from].start + p.n * 64000
          || cursor == end < candidates[p.from].start + p.n * 64000
    ensures FirstPieces(candidates, Take(supports, cursor, end), after, next)
    decreases end - cursor
  {
    if end - cursor >= SAMPLE_RATE && |supports| < 3 {
      var further := Piece(p.from, p.n + 1);
      FirstPiecesMore(candidates, supports, pieces, p, further);
      assert PieceSpan(candidates, p) == Span(cursor, Min(end, cursor + 4 * SAMPLE_RATE));
      after := TakeFirst(candidates, supports + [PieceSpan(candidates, p)], pieces + [p], further,
                         Min(end, cursor + 4 * SAMPLE_RATE), end, next);
    } else {
      FirstPiecesDone(candidates, supports, pieces, p, next);
      after := pieces;
    }
  }

  lemma {:induction false} TakeAllFirst(candidates: seq<Span>, n: nat, limit: Piece) returns (pieces: seq<Piece>)
    requires n <= |candidates| && limit == Piece(n, 0)
    ensures FirstPieces(candidates, TakeAll(candidates[..n]), pieces, limit)
  {
    if n == 0 {
      pieces := [];
    } else {
      var before := Piece(n - 1, 0);
      pieces := TakeAllFirst(candidates, n - 1, before);
      assert candidates[..n][..n - 1] == candidates[..n - 1];
      pieces := TakeFirst(candidates, TakeAll(candidates[..n - 1]), pieces, before, candidates[n - 1].start,
                          candidates[n - 1].end, limit);
    }
  }

  /** The supports are the first three pieces of four seconds, or of what is left, of the candidates from the longest
      to the shortest. */
  ghost predicate LongestPieces(segments: seq<Span>, supports: seq<Span>) {
    exists candidates, pieces :: LongerFirst(segments, candidates)
        && FirstPieces(candidates, supports, pieces, Piece(|candidates|, 0))
  }

  lemma SupportsAreLongestPieces(segments: seq<Span>)
    ensures LongestPieces(segments, TakeAll(LongestFirst(segments)))
  {
    var candidates := LongestFirst(segments);
    LongestFirstSorts(segments);
    var pieces := TakeAllFirst(candidates, |candidates|, Piece(|candidates|, 0));
    assert candidates[..|candidates|] == candidates;
  }

  method ChooseSupportSpans(segments: seq<Span>) returns (supports: seq<Span>)
    ensures supports == TakeAll(LongestFirst(segments))
    ensures AllSupported(supports, segments)
    ensures supports != [] <==> HasSecond(segments)
    ensures LongestPieces(segments, supports)
  {
    var ordered := LongestFirst(segments);
    SupportsAreLegal(segments);
    SupportsAreLongestPieces(segments);
    supports := [];
    for k := 0 to |ordered|
      invariant supports == TakeAll(ordered[..k])
    {
      assert ordered[..k + 1][..k] == ordered[..k];
      var cursor, end := ordered[k].start, ordered[k].end;
      while end - cursor >= SAMPLE_RATE && |supports| < 3
        invariant Take(supports, cursor, end) == TakeAll(ordered[..k + 1])
        decreases end - cursor
      {
        var supportEnd := Min(end, cursor + 4 * SAMPLE_RATE);
        supports := supports + [Span(cursor, supportEnd)];
        cursor := supportEnd;
      }
      if |supports| >= 3 {
        TakeAllSettled(ordered, k + 1);
        return;
      }
    }
    assert ordered[..|ordered|] == ordered;
  }

  // ----- A speaker's supports -----

  /** A run of one speaker's exclusive time in which nobody else talks. */
  ghost predicate CleanRun(regular: seq<Turn>, exclusive: seq<Turn>, name: string, a: int, b: int) {
    && (exists k :: 0 <= k < |exclusive| && OwnRun(exclusive[k], name, a, b))
    && (forall t :: a <= t < b ==> !Overlapped(regular, t))
  }

  predicate OwnRun(item: Turn, name: string, a: int, b: int) {
    item.speaker == name && item.start <= a && b <= item.end
  }

  /** The candidate pieces of one speaker. */
  function Candidates(exclusive: seq<Turn>, name: string, overlaps: seq<Span>): seq<Span> {
    if exclusive == [] then []
    else
      var last := exclusive[|exclusive| - 1];
      Candidates(exclusive[..|exclusive| - 1], name, overlaps)
      + if last.speaker == name then Subtract(last.start, last.end, overlaps) else []
  }

  ghost predicate ExactOverlaps(regular: seq<Turn>, overlaps: seq<Span>) {
    AllNonEmpty(overlaps) && forall t :: t in Covered(overlaps) <==> Overlapped(regular, t)
  }

  lemma {:induction false} CandidatesAreClean(regular: seq<Turn>, exclusive: seq<Turn>, name: string,
                                              overlaps: seq<Span>, k: nat)
    requires ExactOverlaps(regular, overlaps) && k < |Candidates(exclusive, name, overlaps)|
    ensures var c := Candidates(exclusive, name, overlaps)[k]; CleanRun(regular, exclusive, name, c.start, c.end)
  {
    var front, last := exclusive[..|exclusive| - 1], exclusive[|exclusive| - 1];
    var before := Candidates(front, name, overlaps);
    var c := Candidates(exclusive, name, overlaps)[k];
    if k < |before| {
      CandidatesAreClean(regular, front, name, overlaps, k);
      var j :| 0 <= j < |front| && OwnRun(front[j], name, c.start, c.end);
      assert OwnRun(exclusive[j], name, c.start, c.end);
    } else {
      var parts := Subtract(last.start, last.end, overlaps);
      assert parts[k - |before|] == c;
      PartIsClean(regular, last, overlaps, k - |before|);
      assert OwnRun(exclusive[|exclusive| - 1], name, c.start, c.end);
    }
  }

  lemma PartIsClean(regular: seq<Turn>, item: Turn, overlaps: seq<Span>, k: nat)
    requires ExactOverlaps(regular, overlaps) && k < |Subtract(item.start, item.end, overlaps)|
    ensures var c := Subtract(item.start, item.end, overlaps)[k];
      item.start <= c.start && c.end <= item.end && forall t :: c.Has(t) ==> !Overlapped(regular, t)
  {
    var parts := Subtract(item.start, item.end, overlaps);
    var c := parts[k];
    SubtractIsDifference(item.start, item.end, overlaps);
    CoveredMembers(parts);
    forall t | c.Has(t) ensures t in Covered(parts) { assert parts[k].Has(t); }
    assert c.Has(c.start) && c.Has(c.end - 1);
  }

  lemma {:induction false} CleanRunIsCandidate(regular: seq<Turn>, exclusive: seq<Turn>, name: string,
                                               overlaps: seq<Span>, a: int, b: int)
    returns (k: nat)
    requires ExactOverlaps(regular, overlaps) && a < b && CleanRun(regular, exclusive, name, a, b)
    ensures k < |Candidates(exclusive, name, overlaps)| && Inside(Span(a, b), Candidates(exclusive, name, overlaps)[k])
  {
    var j :| 0 <= j < |exclusive| && OwnRun(exclusive[j], name, a, b);
    var front, last := exclusive[..|exclusive| - 1], exclusive[|exclusive| - 1];
    if j < |front| {
      assert OwnRun(front[j], name, a, b);
      k := CleanRunIsCandidate(regular, front, name, overlaps, a, b);
    } else {
      k := SubtractKeepsRuns(last.start, last.end, overlaps, a, b);
      k := k + |Candidates(front, name, overlaps)|;
    }
  }

  /** Clean, one to four seconds, at most three; and there is one exactly when the speaker has a clean second. */
  ghost predicate GoodSupports(regular: seq<Turn>, exclusive: seq<Turn>, name: string, supports: seq<Span>) {
    && |supports| <= 3
    && (forall i :: 0 <= i < |supports| ==> SAMPLE_RATE <= Length(supports[i]) <= 4 * SAMPLE_RATE
                                            && CleanRun(regular, exclusive, name, supports[i].start, supports[i].end))
    && (supports != [] <==> exists a, b :: CleanRun(regular, exclusive, name, a, b) && b - a >= SAMPLE_RATE)
  }

  lemma SupportsAreGood(regular: seq<Turn>, exclusive: seq<Turn>, name: string, overlaps: seq<Span>,
                        supports: seq<Span>)
    requires ExactOverlaps(regular, overlaps)
    requires AllSupported(supports, Candidates(exclusive, name, overlaps))
    requires supports != [] <==> HasSecond(Candidates(exclusive, name, overlaps))
    ensures GoodSupports(regular, exclusive, name, supports)
  {
    var candidates := Candidates(exclusive, name, overlaps);
    forall i | 0 <= i < |supports| ensures CleanRun(regular, exclusive, name, supports[i].start, supports[i].end) {
      assert Supported(supports[i], candidates);
      var k :| 0 <= k < |candidates| && Inside(supports[i], candidates[k]);
      CandidatesAreClean(regular, exclusive, name, overlaps, k);
      CleanPart(regular, exclusive, name, candidates[k], supports[i]);
    }
    if HasSecond(candidates) {
      var k :| 0 <= k < |candidates| && Length(candidates[k]) >= SAMPLE_RATE;
      CandidatesAreClean(regular, exclusive, name, overlaps, k);
      assert CleanRun(regular, exclusive, name, candidates[k].start, candidates[k].end);
    }
    if a, b :| CleanRun(regular, exclusive, name, a, b) && b - a >= SAMPLE_RATE {
      var k := CleanRunIsCandidate(regular, exclusive, name, overlaps, a, b);
      assert Length(candidates[k]) >= SAMPLE_RATE;
    }
  }

  lemma CleanPart(regular: seq<Turn>, exclusive: seq<Turn>, name: string, whole: Span, part: Span)
    requires CleanRun(regular, exclusive, name, whole.start, whole.end) && Inside(part, whole)
    ensures CleanRun(regular, exclusive, name, part.start, part.end)
  {
    var j :| 0 <= j < |exclusive| && OwnRun(exclusive[j], name, whole.start, whole.end);
    assert OwnRun(exclusive[j], name, part.start, part.end);
  }

  method SpeakerSupports(regular: seq<Turn>, exclusive: seq<Turn>, name: string, overlapRanges: seq<Span>)
    returns (supports: seq<Span>)
    requires ExactOverlaps(regular, overlapRanges)
    ensures GoodSupports(regular, exclusive, name, supports)
  {
    var candidates: seq<Span> := [];
    for k := 0 to |exclusive|
      invariant candidates == Candidates(exclusive[..k], name, overlapRanges)
    {
      assert exclusive[..k + 1][..k] == exclusive[..k];
      var item := exclusive[k];
      if item.speaker != name { continue; }
      var parts := SubtractRanges(item.start, item.end, overlapRanges);
      candidates := candidates + parts;
    }
    assert exclusive[..|exclusive|] == exclusive;
    supports := ChooseSupportSpans(candidates);
    SupportsAreGood(regular, exclusive, name, overlapRanges, supports);
  }

  /** A component of an embedding: a number, or an infinity or no number. */
  datatype Component = Finite(value: real) | NotFinite

  predicate Usable(vector: seq<Component>) { vector != [] && forall i :: 0 <= i < |vector| ==> vector[i].Finite? }

  datatype Record = Record(span: Span, speaker: string, vector: seq<Component>, quality: real)

  /** The share of three seconds that a support lasts, at most one. */
  function Quality(s: Span): real {
    var share := (s.end - s.start) as real / (3 * SAMPLE_RATE) as real;
    if share <= 1.0 then share else 1.0
  }

  function Tagged(supports: seq<Span>, name: string, vector: seq<Component>): seq<Record> {
    seq(|supports|, i requires 0 <= i < |supports| => Record(supports[i], name, vector, Quality(supports[i])))
  }

  function Concatenated(groups: seq<seq<Record>>): seq<Record> {
    if groups == [] then [] else Concatenated(groups[..|groups| - 1]) + groups[|groups| - 1]
  }

  /** The records of one label: none without a vector of finite numbers, else its supports, all of some quality. */
  ghost predicate LabelRecords(regular: seq<Turn>, exclusive: seq<Turn>, name: string, vector: seq<Component>,
                               group: seq<Record>) {
    if !Usable(vector) then group == []
    else Rated(group) && exists supports ::
        GoodSupports(regular, exclusive, name, supports) && group == Tagged(supports, name, vector)
  }

  /** Every record's quality is positive, and full exactly from three seconds on. */
  predicate Rated(group: seq<Record>) {
    forall k :: 0 <= k < |group| ==>
      0.0 < group[k].quality <= 1.0
          && (group[k].quality == 1.0 <==> group[k].span.end - group[k].span.start >= 3 * SAMPLE_RATE)
  }

  lemma TaggedRated(regular: seq<Turn>, exclusive: seq<Turn>, name: string, supports: seq<Span>, vector: seq<Component>)
    requires GoodSupports(regular, exclusive, name, supports)
    ensures Rated(Tagged(supports, name, vector))
  {
  }

  /** The records of all labels, label by label. */
  ghost predicate RecordsOf(labels: seq<string>, vectors: seq<seq<Component>>, regular: seq<Turn>, exclusive: seq<Turn>,
                            result: seq<Record>, groups: seq<seq<Record>>) {
    && |labels| == |vectors| == |groups| && result == Concatenated(groups)
    && forall i :: 0 <= i < |labels| ==> LabelRecords(regular, exclusive, labels[i], vectors[i], groups[i])
  }

  method EmbeddingRecords(labels: seq<string>, embeddings: Option<seq<seq<Component>>>, regular: seq<Turn>,
                          exclusive: seq<Turn>)
    returns (result: seq<Record>)
    requires embeddings.Some? ==> |labels| == |embeddings.value|
    ensures embeddings.None? ==> result == []
    ensures embeddings.Some? ==> exists groups ::
        RecordsOf(labels, embeddings.value, regular, exclusive, result, groups)
  {
    result := [];
    if embeddings.None? { return; }
    var vectors := embeddings.value;
    var overlapRanges := TrueOverlapRanges(regular);
    ghost var groups: seq<seq<Record>> := [];
    for i := 0 to |labels|
      invariant |groups| == i && result == Concatenated(groups)
      invariant forall j :: 0 <= j < i ==> LabelRecords(regular, exclusive, labels[j], vectors[j], groups[j])
    {
      ghost var before := groups;
      if !Usable(vectors[i]) {
        groups := groups + [[]];
        assert groups[..i] == before;
        continue;
      }
      var supports := SpeakerSupports(regular, exclusive, labels[i], overlapRanges);
      TaggedRated(regular, exclusive, labels[i], supports, vectors[i]);
      result := result + Tagged(supports, labels[i], vectors[i]);
      groups := groups + [Tagged(supports, labels[i], vectors[i])];
      assert groups[..i] == before;
    }
    assert RecordsOf(labels, vectors, regular, exclusive, result, groups);
  }
}
