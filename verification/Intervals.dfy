/** Half-open sample intervals: what a list of them covers, and the backend's three ways of measuring it. */
module Intervals {
  import opened Common

  datatype Span = Span(start: int, end: int) {
    predicate Has(t: int) { start <= t < end }
    predicate Proper() { start <= end }
  }

  // ----- Sample sets -----

  predicate Between(a: int, t: int, b: int) { a <= t < b }

  function Range(a: int, b: int): set<int> {
    set t | a <= t < b && Between(a, t, b)
  }

  lemma {:induction false} RangeSize(a: int, b: int)
    ensures |Range(a, b)| == Max(0, b - a)
    decreases b - a
  {
    if a < b {
      RangeSize(a, b - 1);
      assert Range(a, b) == Range(a, b - 1) + {b - 1};
    } else {
      assert Range(a, b) == {};
    }
  }

  /** The samples covered by at least one span. */
  function Covered(spans: seq<Span>): set<int> {
    if spans == [] then {} else Covered(spans[..|spans| - 1]) + Range(spans[|spans| - 1].start, spans[|spans| - 1].end)
  }

  lemma {:induction false} CoveredMembers(spans: seq<Span>)
    ensures forall t :: t in Covered(spans) <==> exists k :: 0 <= k < |spans| && spans[k].Has(t)
  {
    if spans != [] {
      var front, last := spans[..|spans| - 1], spans[|spans| - 1];
      CoveredMembers(front);
      forall t ensures t in Covered(spans) <==> exists k :: 0 <= k < |spans| && spans[k].Has(t) {
        if t in Covered(front) {
          var k :| 0 <= k < |front| && front[k].Has(t);
          assert spans[k].Has(t);
        }
        if last.Has(t) { assert spans[|spans| - 1].Has(t); }
        if k :| 0 <= k < |spans| && spans[k].Has(t) {
          if k < |front| { assert front[k].Has(t); }
        }
      }
    }
  }

  lemma CoveredAppend(spans: seq<Span>, s: Span)
    ensures Covered(spans + [s]) == Covered(spans) + Range(s.start, s.end)
  {
    assert (spans + [s])[..|spans|] == spans;
  }

  lemma {:induction false} CoveredConcat(a: seq<Span>, b: seq<Span>)
    ensures Covered(a + b) == Covered(a) + Covered(b)
  {
    if b == [] {
      assert a + b == a;
    } else {
      CoveredConcat(a, b[..|b| - 1]);
      assert (a + b)[..|a + b| - 1] == a + b[..|b| - 1];
    }
  }

  // ----- Sorting by start, then end -----

  predicate Before(a: Span, b: Span) { a.start < b.start || (a.start == b.start && a.end <= b.end) }

  predicate Sorted(spans: seq<Span>) {
    forall i, j :: 0 <= i < j < |spans| ==> spans[i].start <= spans[j].start
  }

  function Insert(spans: seq<Span>, s: Span): (r: seq<Span>)
    ensures |r| == |spans| + 1
  {
    if spans == [] || Before(spans[|spans| - 1], s) then spans + [s]
    else Insert(spans[..|spans| - 1], s) + [spans[|spans| - 1]]
  }

  function SortSpans(spans: seq<Span>): (r: seq<Span>)
    ensures |r| == |spans|
  {
    if spans == [] then [] else Insert(SortSpans(spans[..|spans| - 1]), spans[|spans| - 1])
  }

  lemma {:induction false} InsertMembers(spans: seq<Span>, s: Span)
    ensures multiset(Insert(spans, s)) == multiset(spans) + multiset{s}
  {
    if spans == [] || Before(spans[|spans| - 1], s) {
    } else {
      InsertMembers(spans[..|spans| - 1], s);
      assert spans == spans[..|spans| - 1] + [spans[|spans| - 1]];
    }
  }

  lemma {:induction false} InsertCovers(spans: seq<Span>, s: Span)
    ensures Covered(Insert(spans, s)) == Covered(spans) + Range(s.start, s.end)
  {
    if spans == [] || Before(spans[|spans| - 1], s) {
      CoveredAppend(spans, s);
    } else {
      InsertCovers(spans[..|spans| - 1], s);
      CoveredAppend(Insert(spans[..|spans| - 1], s), spans[|spans| - 1]);
    }
  }

  lemma {:induction false} InsertSorted(spans: seq<Span>, s: Span, bound: int)
    requires Sorted(spans) && s.start <= bound && forall k :: 0 <= k < |spans| ==> spans[k].start <= bound
    ensures Sorted(Insert(spans, s)) && forall k :: 0 <= k < |spans| + 1 ==> Insert(spans, s)[k].start <= bound
  {
    if spans == [] || Before(spans[|spans| - 1], s) {
    } else {
      InsertSorted(spans[..|spans| - 1], s, spans[|spans| - 1].start);
    }
  }

  lemma {:induction false} SortSorted(spans: seq<Span>)
    ensures Sorted(SortSpans(spans))
  {
    if spans != [] {
      var front, last := SortSpans(spans[..|spans| - 1]), spans[|spans| - 1];
      SortSorted(spans[..|spans| - 1]);
      var bound := if front == [] then last.start else Max(last.start, front[|front| - 1].start);
      forall k | 0 <= k < |front| ensures front[k].start <= bound {
        if k < |front| - 1 { assert front[k].start <= front[|front| - 1].start; }
      }
      InsertSorted(front, last, bound);
    }
  }

  lemma {:induction false} SortMembers(spans: seq<Span>)
    ensures multiset(SortSpans(spans)) == multiset(spans)
  {
    if spans != [] {
      SortMembers(spans[..|spans| - 1]);
      InsertMembers(SortSpans(spans[..|spans| - 1]), spans[|spans| - 1]);
      assert spans == spans[..|spans| - 1] + [spans[|spans| - 1]];
    }
  }

  lemma {:induction false} SortCovers(spans: seq<Span>)
    ensures Covered(SortSpans(spans)) == Covered(spans)
  {
    if spans != [] {
      SortCovers(spans[..|spans| - 1]);
      InsertCovers(SortSpans(spans[..|spans| - 1]), spans[|spans| - 1]);
    }
  }

  lemma SortSpansKeeps(spans: seq<Span>)
    ensures Sorted(SortSpans(spans))
    ensures multiset(SortSpans(spans)) == multiset(spans)
    ensures Covered(SortSpans(spans)) == Covered(spans)
  {
    SortSorted(spans);
    SortMembers(spans);
    SortCovers(spans);
  }

  predicate AllProper(spans: seq<Span>) {
    forall k :: 0 <= k < |spans| ==> spans[k].Proper()
  }

  predicate AllFrom(spans: seq<Span>, first: int) {
    forall k :: 0 <= k < |spans| ==> spans[k].start >= first
  }

  lemma SortKeepsEach(spans: seq<Span>)
    ensures AllProper(spans) ==> AllProper(SortSpans(spans))
    ensures forall first :: AllFrom(spans, first) ==> AllFrom(SortSpans(spans), first)
  {
    SortSpansKeeps(spans);
    forall k | 0 <= k < |spans| ensures SortSpans(spans)[k] in spans {
      assert SortSpans(spans)[k] in multiset(spans);
    }
  }

  // ----- One sweep step, shared by the three measures -----

  /** What a sweep over sorted spans knows: the samples of the closed runs, all before the open run. */
  ghost predicate Swept(spans: seq<Span>, n: nat, closed: set<int>, start: int, end: int) {
    && n <= |spans|
    && Covered(spans[..n]) == closed + Range(start, end)
    && (forall t :: t in closed ==> t < start)
    && (forall k :: n <= k < |spans| ==> start <= spans[k].start)
  }

  lemma SweptStart(spans: seq<Span>, at: int)
    requires at <= 0 && AllFrom(spans, 0)
    ensures Swept(spans, 0, {}, at, at)
  {
  }

  lemma SweptTotal(spans: seq<Span>, n: nat, closed: set<int>, start: int, end: int)
    requires Swept(spans, n, closed, start, end)
    ensures |Covered(spans[..n])| == |closed| + Max(0, end - start)
  {
    RangeSize(start, end);
    assert closed * Range(start, end) == {};
    assert |closed + Range(start, end)| == |closed| + |Range(start, end)|;
  }

  /** The next span begins past the open run: the run is closed and a new one opened. */
  lemma SweepOpen(spans: seq<Span>, n: nat, closed: set<int>, start: int, end: int)
    requires Sorted(spans) && n < |spans| && Swept(spans, n, closed, start, end) && spans[n].start > end
    ensures Swept(spans, n + 1, closed + Range(start, end), spans[n].start, spans[n].end)
    ensures |closed + Range(start, end)| == |closed| + Max(0, end - start)
  {
    SweptTotal(spans, n, closed, start, end);
    assert spans[..n + 1] == spans[..n] + [spans[n]];
    CoveredAppend(spans[..n], spans[n]);
  }

  /** The next span begins inside the open run, or where it ends: the run is extended. */
  lemma SweepExtend(spans: seq<Span>, n: nat, closed: set<int>, start: int, end: int)
    requires n < |spans| && Swept(spans, n, closed, start, end) && spans[n].start <= end
    ensures Swept(spans, n + 1, closed, start, Max(end, spans[n].end))
  {
    assert spans[..n + 1] == spans[..n] + [spans[n]];
    CoveredAppend(spans[..n], spans[n]);
    assert Range(start, end) + Range(spans[n].start, spans[n].end) == Range(start, Max(end, spans[n].end));
  }

  // ----- The three measures -----

  /** The metrics' union: an inverted span counts as empty. */
  method UnionDuration(spans: seq<Span>) returns (total: int)
    requires AllFrom(spans, 0)
    ensures total == |Covered(spans)|
  {
    var ordered := SortSpans(spans);
    SortSpansKeeps(spans);
    SortKeepsEach(spans);
    total := 0;
    var currentStart, currentEnd := -1, -1;
    ghost var closed: set<int> := {};
    SweptStart(ordered, -1);
    for n := 0 to |ordered|
      invariant Swept(ordered, n, closed, currentStart, currentEnd) && total == |closed|
    {
      if ordered[n].start > currentEnd {
        SweepOpen(ordered, n, closed, currentStart, currentEnd);
        closed := closed + Range(currentStart, currentEnd);
        total := total + Max(0, currentEnd - currentStart);
        currentStart, currentEnd := ordered[n].start, ordered[n].end;
      } else {
        SweepExtend(ordered, n, closed, currentStart, currentEnd);
        currentEnd := Max(currentEnd, ordered[n].end);
      }
    }
    SweptTotal(ordered, |ordered|, closed, currentStart, currentEnd);
    assert ordered[..|ordered|] == ordered;
    total := total + Max(0, currentEnd - currentStart);
  }

  /** The gold manifest's coverage: it has no guard against inverted spans, which its records exclude. */
  method CoveredSamples(spans: seq<Span>) returns (total: int)
    requires AllFrom(spans, 0) && AllProper(spans)
    ensures total == |Covered(spans)|
  {
    var ordered := SortSpans(spans);
    SortSpansKeeps(spans);
    SortKeepsEach(spans);
    total := 0;
    var currentStart, currentEnd := 0, 0;
    ghost var closed: set<int> := {};
    SweptStart(ordered, 0);
    for n := 0 to |ordered|
      invariant Swept(ordered, n, closed, currentStart, currentEnd) && total == |closed| && currentStart <= currentEnd
    {
      if ordered[n].start > currentEnd {
        SweepOpen(ordered, n, closed, currentStart, currentEnd);
        closed := closed + Range(currentStart, currentEnd);
        total := total + currentEnd - currentStart;
        currentStart, currentEnd := ordered[n].start, ordered[n].end;
      } else {
        SweepExtend(ordered, n, closed, currentStart, currentEnd);
        currentEnd := Max(currentEnd, ordered[n].end);
      }
    }
    SweptTotal(ordered, |ordered|, closed, currentStart, currentEnd);
    assert ordered[..|ordered|] == ordered;
    total := total + currentEnd - currentStart;
  }

  // ----- Merging -----

  function Durations(spans: seq<Span>): int {
    if spans == [] then 0 else Durations(spans[..|spans| - 1]) + (spans[|spans| - 1].end - spans[|spans| - 1].start)
  }

  /** Proper spans, each beginning after the end of the one before. */
  predicate Separated(spans: seq<Span>) {
    AllProper(spans) && forall i, j :: 0 <= i < j < |spans| ==> spans[i].end < spans[j].start
  }

  lemma {:induction false} CoveredBelow(spans: seq<Span>, bound: int)
    requires forall k :: 0 <= k < |spans| ==> spans[k].end <= bound
    ensures forall t :: t in Covered(spans) ==> t < bound
  {
    if spans != [] {
      CoveredBelow(spans[..|spans| - 1], bound);
    }
  }

  lemma {:induction false} SeparatedDurations(spans: seq<Span>)
    requires Separated(spans)
    ensures Durations(spans) == |Covered(spans)|
  {
    if spans != [] {
      var front, last := spans[..|spans| - 1], spans[|spans| - 1];
      SeparatedDurations(front);
      CoveredBelow(front, last.start);
      RangeSize(last.start, last.end);
      assert Covered(front) * Range(last.start, last.end) == {};
      assert |Covered(front) + Range(last.start, last.end)| == |Covered(front)| + |Range(last.start, last.end)|;
    }
  }

  /** What merging knows after the first n sorted spans. */
  ghost predicate Merged(ordered: seq<Span>, n: nat, merged: seq<Span>) {
    && n <= |ordered| && merged != [] && Separated(merged)
    && Covered(merged) == Covered(ordered[..n])
    && forall k :: n <= k < |ordered| ==> merged[|merged| - 1].start <= ordered[k].start
  }

  lemma MergeFirst(ordered: seq<Span>)
    requires Sorted(ordered) && AllProper(ordered) && ordered != []
    ensures Merged(ordered, 1, [ordered[0]])
  {
    assert ordered[..1] == [ordered[0]];
  }

  lemma MergeStep(ordered: seq<Span>, n: nat, merged: seq<Span>)
    requires Sorted(ordered) && AllProper(ordered) && n < |ordered| && Merged(ordered, n, merged)
    ensures var span, previous := ordered[n], merged[|merged| - 1];
      Merged(ordered, n + 1, if span.start <= previous.end
                             then merged[..|merged| - 1] + [Span(previous.start, Max(previous.end, span.end))]
                             else merged + [span])
  {
    var span, previous := ordered[n], merged[|merged| - 1];
    assert ordered[..n + 1] == ordered[..n] + [span];
    CoveredAppend(ordered[..n], span);
    if span.start <= previous.end {
      MergeLast(merged, span);
    } else {
      CoveredAppend(merged, span);
      AppendSeparated(merged, span);
    }
  }

  lemma AppendSeparated(merged: seq<Span>, span: Span)
    requires merged != [] && Separated(merged) && span.Proper() && merged[|merged| - 1].end < span.start
    ensures Separated(merged + [span])
  {
    forall i | 0 <= i < |merged| ensures merged[i].end < span.start {
      if i < |merged| - 1 { assert merged[i].end < merged[|merged| - 1].start; }
    }
  }

  method Merge(spans: seq<Span>) returns (merged: seq<Span>)
    requires AllProper(spans)
    ensures Separated(merged) && Covered(merged) == Covered(spans)
    ensures Durations(merged) == |Covered(spans)|
  {
    merged := [];
    if spans == [] { return; }
    var ordered := SortSpans(spans);
    SortSpansKeeps(spans);
    SortKeepsEach(spans);
    merged := [ordered[0]];
    MergeFirst(ordered);
    for n := 1 to |ordered|
      invariant Merged(ordered, n, merged)
    {
      var span, previous := ordered[n], merged[|merged| - 1];
      MergeStep(ordered, n, merged);
      if span.start <= previous.end {
        merged := merged[..|merged| - 1] + [Span(previous.start, Max(previous.end, span.end))];
      } else {
        merged := merged + [span];
      }
    }
    assert ordered[..|ordered|] == ordered;
    SeparatedDurations(merged);
  }

  lemma MergeLast(merged: seq<Span>, span: Span)
    requires merged != [] && Separated(merged)
    requires span.Proper() && merged[|merged| - 1].start <= span.start <= merged[|merged| - 1].end
    ensures var previous := merged[|merged| - 1];
            var after := merged[..|merged| - 1] + [Span(previous.start, Max(previous.end, span.end))];
            Separated(after) && Covered(after) == Covered(merged) + Range(span.start, span.end)
  {
    var front, previous := merged[..|merged| - 1], merged[|merged| - 1];
    CoveredAppend(front, Span(previous.start, Max(previous.end, span.end)));
    assert Range(previous.start, previous.end) + Range(span.start, span.end)
        == Range(previous.start, Max(previous.end, span.end));
  }

  // ----- Intersections -----

  function Overlapping(a: Span, b: Span): Span { Span(Max(a.start, b.start), Min(a.end, b.end)) }

  lemma RangeMeet(a: Span, b: Span)
    ensures Range(Overlapping(a, b).start, Overlapping(a, b).end) == Range(a.start, a.end) * Range(b.start, b.end)
  {
  }

  /** Appends the parts of the right spans inside one left span. */
  method AddMeets(before: seq<Span>, span: Span, right: seq<Span>) returns (intersections: seq<Span>)
    requires AllFrom(before, 0) && span.start >= 0
    ensures AllFrom(intersections, 0)
    ensures Covered(intersections) == Covered(before) + Range(span.start, span.end) * Covered(right)
  {
    intersections := before;
    for j := 0 to |right|
      invariant AllFrom(intersections, 0)
      invariant Covered(intersections) == Covered(before) + Range(span.start, span.end) * Covered(right[..j])
    {
      assert right[..j + 1] == right[..j] + [right[j]];
      CoveredAppend(right[..j], right[j]);
      RangeMeet(span, right[j]);
      var both := Overlapping(span, right[j]);
      if both.end > both.start {
        CoveredAppend(intersections, both);
        intersections := intersections + [both];
      } else {
        assert Range(both.start, both.end) == {};
      }
    }
    assert right[..|right|] == right;
  }

  /** The samples both lists cover. */
  method IntersectionDuration(left: seq<Span>, right: seq<Span>) returns (total: int)
    requires AllFrom(left, 0) && AllFrom(right, 0)
    ensures total == |Covered(left) * Covered(right)|
  {
    var intersections: seq<Span> := [];
    for i := 0 to |left|
      invariant AllFrom(intersections, 0)
      invariant Covered(intersections) == Covered(left[..i]) * Covered(right)
    {
      assert left[..i + 1] == left[..i] + [left[i]];
      CoveredAppend(left[..i], left[i]);
      intersections := AddMeets(intersections, left[i], right);
    }
    assert left[..|left|] == left;
    total := UnionDuration(intersections);
  }

  lemma SubsetSize<T>(a: set<T>, b: set<T>)
    requires a <= b
    ensures |a| <= |b|
    ensures |a| == |b| ==> a == b
  {
    assert b == a + (b - a);
    assert |b| == |a| + |b - a|;
  }

  /** The share of voiced samples that some token covers: never above one, so the source's cap is idle. */
  method SpeechCoverage(tokens: seq<Span>, voiced: seq<Span>) returns (coverage: real)
    requires AllProper(tokens) && AllProper(voiced)
    ensures Covered(voiced) == {} ==> coverage == if tokens != [] then 1.0 else 0.0
    ensures Covered(voiced) != {} ==> IsShare(coverage, |Covered(tokens) * Covered(voiced)|, |Covered(voiced)|)
  {
    var speech := Merge(voiced);
    var voicedTotal := Durations(speech);
    if voicedTotal <= 0 {
      return if tokens != [] then 1.0 else 0.0;
    }
    var covered := CoveredSpeech(tokens, speech);
    SubsetSize(Covered(tokens) * Covered(voiced), Covered(voiced));
    coverage := covered as real / voicedTotal as real;
    Quotient(covered, voicedTotal, coverage);
    coverage := if coverage < 1.0 then coverage else 1.0;
  }

  /** The exact quotient, and at most one. */
  predicate IsShare(q: real, part: int, whole: int) {
    q * whole as real == part as real && 0.0 <= q <= 1.0
  }

  lemma Quotient(a: int, b: int, q: real)
    requires 0 <= a <= b && b > 0 && q == a as real / b as real
    ensures IsShare(q, a, b)
  {
  }

  method CoveredSpeech(tokens: seq<Span>, speech: seq<Span>) returns (covered: int)
    requires AllProper(tokens) && Separated(speech)
    ensures covered == |Covered(tokens) * Covered(speech)|
  {
    covered := 0;
    assert Covered(tokens) * Covered(speech[..0]) == {};
    for n := 0 to |speech|
      invariant covered == |Covered(tokens) * Covered(speech[..n])|
    {
      var intersections := MeetsOf(tokens, speech[n]);
      var merged := Merge(intersections);
      CoverageStep(tokens, speech, n);
      covered := covered + Durations(merged);
    }
    assert speech[..|speech|] == speech;
  }

  lemma NoMeet(a: Span, b: Span)
    requires a.Proper() && b.Proper() && !(a.start < b.end && b.start < a.end)
    ensures Range(Overlapping(a, b).start, Overlapping(a, b).end) == {}
  {
  }

  lemma MeetStep(tokens: seq<Span>, k: nat, speech: Span)
    requires k < |tokens|
    ensures var both := Overlapping(tokens[k], speech);
            Covered(tokens[..k + 1]) * Range(speech.start, speech.end)
            == Covered(tokens[..k]) * Range(speech.start, speech.end) + Range(both.start, both.end)
  {
    assert tokens[..k + 1] == tokens[..k] + [tokens[k]];
    CoveredAppend(tokens[..k], tokens[k]);
    RangeMeet(tokens[k], speech);
  }

  lemma MeetAdds(tokens: seq<Span>, k: nat, speech: Span, meets: seq<Span>)
    requires k < |tokens| && tokens[k].Proper() && speech.Proper() && AllProper(meets)
    requires Covered(meets) == Covered(tokens[..k]) * Range(speech.start, speech.end)
    ensures var both := Overlapping(tokens[k], speech);
      var next := if tokens[k].start < speech.end && speech.start < tokens[k].end then meets + [both] else meets;
      AllProper(next) && Covered(next) == Covered(tokens[..k + 1]) * Range(speech.start, speech.end)
  {
    var both, here := Overlapping(tokens[k], speech), Range(speech.start, speech.end);
    MeetStep(tokens, k, speech);
    assert Covered(tokens[..k + 1]) * here == Covered(meets) + Range(both.start, both.end);
    if tokens[k].start < speech.end && speech.start < tokens[k].end {
      assert both.Proper();
      CoveredAppend(meets, both);
    } else {
      NoMeet(tokens[k], speech);
      assert Covered(meets) + {} == Covered(meets);
    }
  }

  /** The parts of the tokens inside one span. */
  method MeetsOf(tokens: seq<Span>, speech: Span) returns (meets: seq<Span>)
    requires AllProper(tokens) && speech.Proper()
    ensures AllProper(meets) && Covered(meets) == Covered(tokens) * Range(speech.start, speech.end)
  {
    meets := [];
    for k := 0 to |tokens|
      invariant AllProper(meets) && Covered(meets) == Covered(tokens[..k]) * Range(speech.start, speech.end)
    {
      MeetAdds(tokens, k, speech, meets);
      if tokens[k].start < speech.end && speech.start < tokens[k].end {
        meets := meets + [Overlapping(tokens[k], speech)];
      }
    }
    assert tokens[..|tokens|] == tokens;
  }

  lemma CoverageStep(tokens: seq<Span>, speech: seq<Span>, n: nat)
    requires Separated(speech) && n < |speech|
    ensures |Covered(tokens) * Covered(speech[..n + 1])|
         == |Covered(tokens) * Covered(speech[..n])| + |Covered(tokens) * Range(speech[n].start, speech[n].end)|
  {
    var front, here := Covered(speech[..n]), Range(speech[n].start, speech[n].end);
    assert speech[..n + 1] == speech[..n] + [speech[n]];
    CoveredAppend(speech[..n], speech[n]);
    CoveredBelow(speech[..n], speech[n].start);
    var a, b := Covered(tokens) * front, Covered(tokens) * here;
    assert a * b == {};
    assert Covered(tokens) * (front + here) == a + b;
    assert |a + b| == |a| + |b|;
  }
}
