/** Speaker scores and overlaps swept over elementary intervals, against their sample-by-sample meaning. */
module Speakers {
  import opened Common
  import opened Intervals

  datatype Turn = Turn(start: int, end: int, speaker: string) {
    predicate At(t: int) { start <= t < end }
  }

  /** Who speaks at a sample. */
  function Active(turns: seq<Turn>, t: int): set<string> {
    set k | 0 <= k < |turns| && turns[k].At(t) :: turns[k].speaker
  }

  // ----- Sorted boundary points -----

  predicate Increasing(points: seq<int>) {
    forall i, j :: 0 <= i < j < |points| ==> points[i] < points[j]
  }

  function InsertPoint(points: seq<int>, p: int): seq<int> {
    if points == [] || points[|points| - 1] < p then points + [p]
    else if points[|points| - 1] == p then points
    else InsertPoint(points[..|points| - 1], p) + [points[|points| - 1]]
  }

  /** All starts and ends, sorted and without repetition. */
  function Boundaries(turns: seq<Turn>): seq<int> {
    if turns == [] then []
    else InsertPoint(InsertPoint(Boundaries(turns[..|turns| - 1]), turns[|turns| - 1].start), turns[|turns| - 1].end)
  }

  lemma {:induction false} InsertPointKeeps(points: seq<int>, p: int, bound: int)
    requires Increasing(points) && p < bound && forall k :: 0 <= k < |points| ==> points[k] < bound
    ensures Increasing(InsertPoint(points, p)) && forall k :: 0 <= k < |InsertPoint(points, p)| ==>
        InsertPoint(points, p)[k] < bound
  {
    if points == [] || points[|points| - 1] <= p {
      if points != [] && points[|points| - 1] < p {
        forall i | 0 <= i < |points| ensures points[i] < p {
          if i < |points| - 1 { assert points[i] < points[|points| - 1]; }
        }
      }
    } else {
      var front, last := points[..|points| - 1], points[|points| - 1];
      InsertPointKeeps(front, p, last);
    }
  }

  lemma {:induction false} InsertPointMembers(points: seq<int>, p: int)
    ensures forall q :: q in InsertPoint(points, p) <==> q in points || q == p
  {
    if points == [] || points[|points| - 1] <= p {
    } else {
      var front, last := points[..|points| - 1], points[|points| - 1];
      InsertPointMembers(front, p);
      assert points == front + [last];
    }
  }

  lemma Above(points: seq<int>) returns (bound: int)
    requires Increasing(points)
    ensures forall k :: 0 <= k < |points| ==> points[k] < bound
  {
    bound := if points == [] then 0 else points[|points| - 1] + 1;
  }

  lemma {:induction false} BoundariesIncreasing(turns: seq<Turn>)
    ensures Increasing(Boundaries(turns))
  {
    if turns != [] {
      var before, last := Boundaries(turns[..|turns| - 1]), turns[|turns| - 1];
      BoundariesIncreasing(turns[..|turns| - 1]);
      var a := Above(before);
      InsertPointKeeps(before, last.start, Max(a, last.start + 1));
      var one := InsertPoint(before, last.start);
      var b := Above(one);
      InsertPointKeeps(one, last.end, Max(b, last.end + 1));
    }
  }

  lemma {:induction false} BoundariesMembers(turns: seq<Turn>)
    ensures forall k :: 0 <= k < |turns| ==> turns[k].start in Boundaries(turns) && turns[k].end in Boundaries(turns)
  {
    if turns != [] {
      var front, last := turns[..|turns| - 1], turns[|turns| - 1];
      BoundariesMembers(front);
      InsertPointMembers(Boundaries(front), last.start);
      InsertPointMembers(InsertPoint(Boundaries(front), last.start), last.end);
      forall k | 0 <= k < |turns| ensures turns[k].start in Boundaries(turns) && turns[k].end in Boundaries(turns) {
        if k < |front| { assert front[k] == turns[k]; }
      }
    }
  }

  // ----- Between two neighbouring boundaries nothing changes -----

  /** Every start and end of the turns is one of the points. */
  predicate Bounded(turns: seq<Turn>, points: seq<int>) {
    forall k :: 0 <= k < |turns| ==> turns[k].start in points && turns[k].end in points
  }

  lemma NoPointBetween(points: seq<int>, i: nat, p: int)
    requires Increasing(points) && i + 1 < |points| && p in points
    ensures p <= points[i] || points[i + 1] <= p
  {
    var k :| 0 <= k < |points| && points[k] == p;
    if k < i {} else if k > i + 1 {}
  }

  lemma ActiveConstant(turns: seq<Turn>, points: seq<int>, i: nat, t: int, u: int)
    requires Increasing(points) && Bounded(turns, points) && i + 1 < |points|
    requires points[i] <= t < points[i + 1] && points[i] <= u < points[i + 1]
    ensures Active(turns, t) == Active(turns, u)
  {
    forall k | 0 <= k < |turns| ensures turns[k].At(t) == turns[k].At(u) {
      NoPointBetween(points, i, turns[k].start);
      NoPointBetween(points, i, turns[k].end);
    }
  }

  lemma ActiveOutside(turns: seq<Turn>, points: seq<int>, t: int)
    requires Increasing(points) && Bounded(turns, points)
    requires points == [] || t < points[0] || points[|points| - 1] <= t
    ensures Active(turns, t) == {}
  {
    forall k | 0 <= k < |turns| ensures !turns[k].At(t) {
      var i :| 0 <= i < |points| && points[i] == turns[k].start;
      var j :| 0 <= j < |points| && points[j] == turns[k].end;
      assert points[0] <= points[i] && points[j] <= points[|points| - 1];
    }
  }

  // ----- Sums over samples -----

  function Sum(at: int -> int, from: int, to: int): int
    decreases to - from
  {
    if from >= to then 0 else Sum(at, from, to - 1) + at(to - 1)
  }

  lemma {:induction false} SumSplit(at: int -> int, a: int, b: int, c: int)
    requires a <= b <= c
    ensures Sum(at, a, c) == Sum(at, a, b) + Sum(at, b, c)
    decreases c - b
  {
    if b < c { SumSplit(at, a, b, c - 1); }
  }

  lemma {:induction false} SumConstant(at: int -> int, a: int, b: int, v: int)
    requires a <= b && forall t :: a <= t < b ==> at(t) == v
    ensures Sum(at, a, b) == (b - a) * v
    decreases b - a
  {
    if a < b {
      SumConstant(at, a, b - 1, v);
      assert (b - a) * v == (b - 1 - a) * v + v;
    }
  }

  // ----- What is counted at one sample -----

  /** The hypothesis's speakers under their reference names; an unmapped one keeps its own. */
  function Renamed(mapping: map<string, string>, speakers: set<string>): set<string> {
    set s | s in speakers :: Rename(mapping, s)
  }

  function Rename(mapping: map<string, string>, s: string): string { if s in mapping then mapping[s] else s }

  function Positive(x: int): nat { if x > 0 then x else 0 }

  datatype Score = Missed | FalseAlarm | Confusion | Reference

  function Count(score: Score, expected: set<string>, predicted: set<string>): int {
    match score
    case Missed => Positive(|expected| - |predicted|)
    case FalseAlarm => Positive(|predicted| - |expected|)
    case Confusion => Min(|expected|, |predicted|) - |expected * predicted|
    case Reference => |expected|
  }

  /** What a score counts at each sample. */
  function Counter(score: Score, reference: seq<Turn>, hypothesis: seq<Turn>,
                   mapping: map<string, string>): int -> int {
    t => Count(score, Active(reference, t), Renamed(mapping, Active(hypothesis, t)))
  }

  // ----- The sweep -----

  /** The same at every sample between two neighbouring points, and nothing outside them. */
  ghost predicate Stepwise(at: int -> int, points: seq<int>) {
    && Increasing(points)
    && (forall i, t, u {:trigger InCell(points, i, t), InCell(points, i, u)} ::
          InCell(points, i, t) && InCell(points, i, u) ==> at(t) == at(u))
    && (forall t :: Outside(points, t) ==> at(t) == 0)
  }

  predicate InCell(points: seq<int>, i: int, t: int) {
    0 <= i && i + 1 < |points| && points[i] <= t < points[i + 1]
  }

  predicate Outside(points: seq<int>, t: int) {
    points == [] || t < points[0] || points[|points| - 1] <= t
  }

  lemma CounterStepwise(score: Score, reference: seq<Turn>, hypothesis: seq<Turn>, mapping: map<string, string>)
    ensures Stepwise(Counter(score, reference, hypothesis, mapping), Boundaries(reference + hypothesis))
  {
    var points, at := Boundaries(reference + hypothesis), Counter(score, reference, hypothesis, mapping);
    BothBounded(reference, hypothesis);
    forall i, t, u | InCell(points, i, t) && InCell(points, i, u) ensures at(t) == at(u) {
      ActiveConstant(reference, points, i, t, u);
      ActiveConstant(hypothesis, points, i, t, u);
    }
    forall t | Outside(points, t) ensures at(t) == 0 {
      ActiveOutside(reference, points, t);
      ActiveOutside(hypothesis, points, t);
    }
  }

  function Middle(a: int, b: int): int { (a + b) / 2 }

  /** The total over the whole timeline: widening the range adds nothing. */
  ghost predicate Total(at: int -> int, total: int, from: int, to: int) {
    from <= to && forall a, b :: a <= from && to <= b ==> total == Sum(at, a, b)
  }

  /** The sweep has counted the samples up to the i-th point. */
  ghost predicate Progress(at: int -> int, points: seq<int>, i: nat, total: int) {
    if points == [] then i == 0 && total == 0
    else i < |points| && points[0] <= points[i] && total == Sum(at, points[0], points[i])
  }

  lemma ProgressStep(at: int -> int, points: seq<int>, i: nat, total: int, value: int)
    requires Stepwise(at, points) && Progress(at, points, i, total) && i + 1 < |points|
    requires value == at(Middle(points[i], points[i + 1]))
    ensures Progress(at, points, i + 1, total + (points[i + 1] - points[i]) * value)
  {
    var mid := Middle(points[i], points[i + 1]);
    assert InCell(points, i, mid);
    forall t | points[i] <= t < points[i + 1] ensures at(t) == value {
      assert InCell(points, i, t);
    }
    SumConstant(at, points[i], points[i + 1], value);
    SumSplit(at, points[0], points[i], points[i + 1]);
  }

  function First(points: seq<int>): int { if points == [] then 0 else points[0] }

  function Last(points: seq<int>): int { if points == [] then 0 else points[|points| - 1] }

  lemma ProgressEnd(at: int -> int, points: seq<int>, i: nat, total: int)
    requires Stepwise(at, points) && Progress(at, points, i, total) && i + 1 >= |points|
    ensures Total(at, total, First(points), Last(points))
  {
    forall a, b | a <= First(points) && Last(points) <= b ensures total == Sum(at, a, b) {
      SumSplit(at, a, First(points), b);
      SumSplit(at, First(points), Last(points), b);
      SumConstant(at, a, First(points), 0);
      SumConstant(at, Last(points), b, 0);
    }
  }

  /** The scores are those of the two lists of turns. */
  ghost predicate Counts(at: Score -> (int -> int), reference: seq<Turn>, hypothesis: seq<Turn>,
                         mapping: map<string, string>) {
    forall t :: CountsAt(at, reference, hypothesis, mapping, t)
  }

  ghost predicate CountsAt(at: Score -> (int -> int), reference: seq<Turn>, hypothesis: seq<Turn>,
                           mapping: map<string, string>, t: int) {
    forall score :: at(score)(t) == Counter(score, reference, hypothesis, mapping)(t)
  }

  ghost predicate AllStepwise(at: Score -> (int -> int), points: seq<int>) {
    forall score :: Stepwise(at(score), points)
  }

  /** Four scores counted up to the i-th point. */
  ghost predicate Swept(at: Score -> (int -> int), points: seq<int>, i: nat, total: Tally) {
    && Progress(at(Missed), points, i, total.missed)
    && Progress(at(FalseAlarm), points, i, total.falseAlarm)
    && Progress(at(Confusion), points, i, total.confusion)
    && Progress(at(Reference), points, i, total.reference)
  }

  datatype Tally = Tally(missed: int, falseAlarm: int, confusion: int, reference: int)

  lemma SweepStep(at: Score -> (int -> int), points: seq<int>, i: nat, before: Tally, width: int, v: Tally,
                  after: Tally)
    requires AllStepwise(at, points) && i + 1 < |points| && width == points[i + 1] - points[i]
        && Swept(at, points, i, before)
    requires var mid := Middle(points[i], points[i + 1]);
      v == Tally(at(Missed)(mid), at(FalseAlarm)(mid), at(Confusion)(mid), at(Reference)(mid))
    requires after.missed == before.missed + width * v.missed
    requires after.falseAlarm == before.falseAlarm + width * v.falseAlarm
    requires after.confusion == before.confusion + width * v.confusion
    requires after.reference == before.reference + width * v.reference
    ensures Swept(at, points, i + 1, after)
  {
    ProgressStep(at(Missed), points, i, before.missed, v.missed);
    ProgressStep(at(FalseAlarm), points, i, before.falseAlarm, v.falseAlarm);
    ProgressStep(at(Confusion), points, i, before.confusion, v.confusion);
    ProgressStep(at(Reference), points, i, before.reference, v.reference);
  }

  function Counters(reference: seq<Turn>, hypothesis: seq<Turn>, mapping: map<string, string>): Score -> (int -> int) {
    score => Counter(score, reference, hypothesis, mapping)
  }

  /** The four totals over the whole timeline. */
  ghost predicate Totals(at: Score -> (int -> int), from: int, to: int, total: Tally) {
    && Total(at(Missed), total.missed, from, to)
    && Total(at(FalseAlarm), total.falseAlarm, from, to)
    && Total(at(Confusion), total.confusion, from, to)
    && Total(at(Reference), total.reference, from, to)
  }

  lemma SweepStart(reference: seq<Turn>, hypothesis: seq<Turn>, mapping: map<string, string>)
    ensures AllStepwise(Counters(reference, hypothesis, mapping), Boundaries(reference + hypothesis))
    ensures Counts(Counters(reference, hypothesis, mapping), reference, hypothesis, mapping)
  {
    forall score ensures Stepwise(Counters(reference, hypothesis, mapping)(score), Boundaries(reference + hypothesis)) {
      CounterStepwise(score, reference, hypothesis, mapping);
    }
  }

  lemma SweepEnd(at: Score -> (int -> int), points: seq<int>, i: nat, total: Tally)
    requires AllStepwise(at, points) && i + 1 >= |points| && Swept(at, points, i, total)
    ensures Totals(at, First(points), Last(points), total)
  {
    ProgressEnd(at(Missed), points, i, total.missed);
    ProgressEnd(at(FalseAlarm), points, i, total.falseAlarm);
    ProgressEnd(at(Confusion), points, i, total.confusion);
    ProgressEnd(at(Reference), points, i, total.reference);
  }

  /** One midpoint per elementary interval is enough to score every sample. */
  method Sweep(reference: seq<Turn>, hypothesis: seq<Turn>, mapping: map<string, string>) returns (total: Tally)
    ensures exists from, to :: Totals(Counters(reference, hypothesis, mapping), from, to, total)
  {
    var boundaries := Boundaries(reference + hypothesis);
    ghost var at := Counters(reference, hypothesis, mapping);
    SweepStart(reference, hypothesis, mapping);
    ghost var i;
    total, i := SweepPoints(boundaries, reference, hypothesis, mapping, at);
    SweepEnd(at, boundaries, i, total);
  }

  method SweepPoints(boundaries: seq<int>, reference: seq<Turn>, hypothesis: seq<Turn>, mapping: map<string, string>,
                     ghost at: Score -> (int -> int))
    returns (total: Tally, ghost last: nat)
    requires AllStepwise(at, boundaries) && Counts(at, reference, hypothesis, mapping)
    ensures last + 1 >= |boundaries| && Swept(at, boundaries, last, total)
  {
    var missed, falseAlarm, confusion, referenceTotal := 0, 0, 0, 0;
    var i: nat := 0;
    while i + 1 < |boundaries|
      invariant Swept(at, boundaries, i, Tally(missed, falseAlarm, confusion, referenceTotal))
    {
      ghost var before := Tally(missed, falseAlarm, confusion, referenceTotal);
      var start, end := boundaries[i], boundaries[i + 1];
      var width := end - start;
      var v := CountMidpoint(reference, hypothesis, mapping, Middle(start, end), at);
      referenceTotal := referenceTotal + width * v.reference;
      missed := missed + width * v.missed;
      falseAlarm := falseAlarm + width * v.falseAlarm;
      confusion := confusion + width * v.confusion;
      SweepStep(at, boundaries, i, before, width, v, Tally(missed, falseAlarm, confusion, referenceTotal));
      i := i + 1;
    }
    total, last := Tally(missed, falseAlarm, confusion, referenceTotal), i;
  }

  /** The four counts at one midpoint. */
  method CountMidpoint(reference: seq<Turn>, hypothesis: seq<Turn>, mapping: map<string, string>, midpoint: int,
                 ghost at: Score -> (int -> int))
    returns (v: Tally)
    requires Counts(at, reference, hypothesis, mapping)
    ensures v == Tally(at(Missed)(midpoint), at(FalseAlarm)(midpoint), at(Confusion)(midpoint), at(Reference)(midpoint))
  {
    var expected := Active(reference, midpoint);
    var predicted := Renamed(mapping, Active(hypothesis, midpoint));
    var correct := |expected * predicted|;
    v := Tally(Positive(|expected| - |predicted|), Positive(|predicted| - |expected|),
               Min(|expected|, |predicted|) - correct, |expected|);
    assert CountsAt(at, reference, hypothesis, mapping, midpoint);
  }

  lemma BothBounded(reference: seq<Turn>, hypothesis: seq<Turn>)
    ensures var points := Boundaries(reference + hypothesis);
            Increasing(points) && Bounded(reference, points) && Bounded(hypothesis, points)
  {
    var both := reference + hypothesis;
    BoundariesIncreasing(both);
    BoundariesMembers(both);
    forall k | 0 <= k < |reference| ensures reference[k] == both[k] {}
    forall k | 0 <= k < |hypothesis| ensures hypothesis[k] == both[|reference| + k] {}
  }

  // ----- The diarization error rate -----

  /** Speaker labels wrong at one sample: those missing, added or mistaken. */
  function Wrong(expected: set<string>, predicted: set<string>): int {
    Max(|expected|, |predicted|) - |expected * predicted|
  }

  function WrongAt(reference: seq<Turn>, hypothesis: seq<Turn>, mapping: map<string, string>): int -> int {
    t => Wrong(Active(reference, t), Renamed(mapping, Active(hypothesis, t)))
  }

  /** At one sample the speakers only one side has are paired off, each pair one confusion; those left over on the
      reference side are missed, those on the other side false alarms. */
  lemma CountsMean(expected: set<string>, predicted: set<string>)
    ensures var lost, extra := |expected - predicted|, |predicted - expected|;
      && Count(Confusion, expected, predicted) == (if lost <= extra then lost else extra)
      && Count(Missed, expected, predicted) == (if lost <= extra then 0 else lost - extra)
      && Count(FalseAlarm, expected, predicted) == (if lost <= extra then extra - lost else 0)
      && Wrong(expected, predicted) == (if lost <= extra then extra else lost)
    ensures Count(Reference, expected, predicted) == |expected|
  {
    assert expected == (expected * predicted) + (expected - predicted);
    assert predicted == (expected * predicted) + (predicted - expected);
    assert |expected| == |expected * predicted| + |expected - predicted|;
    assert |predicted| == |expected * predicted| + |predicted - expected|;
  }

  lemma WrongSplits(expected: set<string>, predicted: set<string>)
    ensures Count(Missed, expected, predicted) + Count(FalseAlarm, expected, predicted)
        + Count(Confusion, expected, predicted)
         == Wrong(expected, predicted)
    ensures Wrong(expected, predicted) >= 0
    ensures Wrong(expected, predicted) == 0 <==> expected == predicted
  {
    assert expected == (expected * predicted) + (expected - predicted);
    assert predicted == (expected * predicted) + (predicted - expected);
    assert |expected| == |expected * predicted| + |expected - predicted|;
    assert |predicted| == |expected * predicted| + |predicted - expected|;
    if Wrong(expected, predicted) == 0 {
      assert expected - predicted == {} && predicted - expected == {};
    }
  }

  lemma {:induction false} SumOfThree(m: int -> int, f: int -> int, c: int -> int, w: int -> int, a: int, b: int)
    requires forall t :: a <= t < b ==> m(t) + f(t) + c(t) == w(t)
    ensures Sum(m, a, b) + Sum(f, a, b) + Sum(c, a, b) == Sum(w, a, b)
    decreases b - a
  {
    if a < b { SumOfThree(m, f, c, w, a, b - 1); }
  }

  lemma {:induction false} SumZeroIff(at: int -> int, a: int, b: int)
    requires forall t :: a <= t < b ==> at(t) >= 0
    ensures Sum(at, a, b) >= 0
    ensures Sum(at, a, b) == 0 <==> (forall t :: a <= t < b ==> at(t) == 0)
    decreases b - a
  {
    if a < b {
      SumZeroIff(at, a, b - 1);
      if Sum(at, a, b) == 0 {
        assert at(b - 1) == 0;
        forall t | a <= t < b ensures at(t) == 0 { if t < b - 1 {} }
      }
    }
  }

  ghost predicate AgreeAt(reference: seq<Turn>, hypothesis: seq<Turn>, mapping: map<string, string>, t: int) {
    Active(reference, t) == Renamed(mapping, Active(hypothesis, t))
  }

  /** The renamed hypothesis has the reference's speakers at every sample. */
  ghost predicate Agree(reference: seq<Turn>, hypothesis: seq<Turn>, mapping: map<string, string>) {
    forall t :: AgreeAt(reference, hypothesis, mapping, t)
  }

  /** The swept errors are those of the samples, one by one, and vanish exactly when the speakers agree at every
      sample. */
  lemma ErrorsMeaning(reference: seq<Turn>, hypothesis: seq<Turn>, mapping: map<string, string>, from: int, to: int,
                      total: Tally)
    requires Totals(Counters(reference, hypothesis, mapping), from, to, total)
    ensures Total(WrongAt(reference, hypothesis, mapping), total.missed + total.falseAlarm + total.confusion, from, to)
    ensures total.missed + total.falseAlarm + total.confusion >= 0
    ensures total.missed + total.falseAlarm + total.confusion == 0 <==> Agree(reference, hypothesis, mapping)
  {
    var errors := total.missed + total.falseAlarm + total.confusion;
    var w := WrongAt(reference, hypothesis, mapping);
    forall a, b | a <= from && to <= b ensures errors == Sum(w, a, b) {
      ErrorsOver(reference, hypothesis, mapping, from, to, total, a, b);
    }
    forall t ensures w(t) >= 0 && (w(t) == 0 <==> AgreeAt(reference, hypothesis, mapping, t)) {
      WrongSplits(Active(reference, t), Renamed(mapping, Active(hypothesis, t)));
    }
    SumZeroIff(w, from, to);
    if errors == 0 {
      forall t ensures AgreeAt(reference, hypothesis, mapping, t) {
        SumZeroIff(w, Min(from, t), Max(to, t + 1));
        assert w(t) == 0;
      }
    } else {
      var t :| from <= t < to && w(t) != 0;
      assert !AgreeAt(reference, hypothesis, mapping, t);
    }
  }

  lemma ErrorsOver(reference: seq<Turn>, hypothesis: seq<Turn>, mapping: map<string, string>, from: int, to: int,
                   total: Tally, a: int, b: int)
    requires Totals(Counters(reference, hypothesis, mapping), from, to, total) && a <= from && to <= b
    ensures total.missed + total.falseAlarm + total.confusion == Sum(WrongAt(reference, hypothesis, mapping), a, b)
  {
    var at, w := Counters(reference, hypothesis, mapping), WrongAt(reference, hypothesis, mapping);
    forall t ensures at(Missed)(t) + at(FalseAlarm)(t) + at(Confusion)(t) == w(t) {
      WrongSplits(Active(reference, t), Renamed(mapping, Active(hypothesis, t)));
    }
    SumOfThree(at(Missed), at(FalseAlarm), at(Confusion), w, a, b);
  }

  method DiarizationErrorRate(reference: seq<Turn>, hypothesis: seq<Turn>, mapping: map<string, string>)
    returns (der: real)
    ensures exists errors, speech, from, to ::
              && RateOf(der, errors, speech)
              && Total(WrongAt(reference, hypothesis, mapping), errors, from, to)
              && Total(Counter(Reference, reference, hypothesis, mapping), speech, from, to)
    ensures der >= 0.0
    ensures der == 0.0 <==> Agree(reference, hypothesis, mapping)
  {
    var total := Sweep(reference, hypothesis, mapping);
    ghost var from, to :| Totals(Counters(reference, hypothesis, mapping), from, to, total);
    ErrorsMeaning(reference, hypothesis, mapping, from, to, total);
    var errors := total.missed + total.falseAlarm + total.confusion;
    der := errors as real / Max(1, total.reference) as real;
    assert RateOf(der, errors, total.reference);
  }

  /** Wrong labels over spoken labels, over one when nobody speaks. */
  predicate RateOf(der: real, errors: int, speech: int) { der * Max(1, speech) as real == errors as real }

  // ----- The Jaccard error of one speaker -----

  /** The spans in which a speaker, under the mapping, talks. */
  function Spoken(turns: seq<Turn>, mapping: map<string, string>, speaker: string): seq<Span> {
    if turns == [] then []
    else
      var last := turns[|turns| - 1];
      Spoken(turns[..|turns| - 1], mapping, speaker)
      + if Rename(mapping, last.speaker) == speaker then [Span(last.start, last.end)] else []
  }

  predicate Started(turns: seq<Turn>) {
    forall k :: 0 <= k < |turns| ==> 0 <= turns[k].start
  }

  lemma {:induction false} SpokenMeans(turns: seq<Turn>, mapping: map<string, string>, speaker: string)
    ensures forall t :: t in Covered(Spoken(turns, mapping, speaker)) <==> speaker in Renamed(mapping, Active(turns, t))
    ensures Started(turns) ==> AllFrom(Spoken(turns, mapping, speaker), 0)
  {
    if turns != [] {
      var front, last := turns[..|turns| - 1], turns[|turns| - 1];
      SpokenMeans(front, mapping, speaker);
      CoveredAppend(Spoken(front, mapping, speaker), Span(last.start, last.end));
      assert Spoken(front, mapping, speaker) + [] == Spoken(front, mapping, speaker);
      forall t ensures t in Covered(Spoken(turns, mapping, speaker)) <==>
          speaker in Renamed(mapping, Active(turns, t)) {
        ActiveAppend(turns, t);
        RenamedAppend(mapping, Active(front, t), if last.At(t) then {last.speaker} else {});
      }
    }
  }

  lemma ActiveAppend(turns: seq<Turn>, t: int)
    requires turns != []
    ensures var last := turns[|turns| - 1];
      Active(turns, t) == Active(turns[..|turns| - 1], t) + if last.At(t) then {last.speaker} else {}
  {
    var front, last := turns[..|turns| - 1], turns[|turns| - 1];
    forall s | s in Active(turns, t) ensures s in Active(front, t) + if last.At(t) then {last.speaker} else {} {
      var k :| 0 <= k < |turns| && turns[k].At(t) && turns[k].speaker == s;
      if k < |front| { assert front[k].At(t); }
    }
    forall s | s in Active(front, t) ensures s in Active(turns, t) {
      var k :| 0 <= k < |front| && front[k].At(t) && front[k].speaker == s;
      assert turns[k].At(t);
    }
  }

  lemma RenamedAppend(mapping: map<string, string>, a: set<string>, b: set<string>)
    ensures Renamed(mapping, a + b) == Renamed(mapping, a) + Renamed(mapping, b)
  {
  }

  /** The samples at which a speaker talks on both sides, and those at which it does on either. */
  ghost predicate SharedSamples(reference: seq<Turn>, hypothesis: seq<Turn>, mapping: map<string, string>,
                                speaker: string, both: set<int>, either: set<int>)
  {
    forall t ::
      && (t in both <==> speaker in Active(reference, t) && speaker in Renamed(mapping, Active(hypothesis, t)))
      && (t in either <==> speaker in Active(reference, t) || speaker in Renamed(mapping, Active(hypothesis, t)))
  }

  /** One minus what both have of what either has. */
  ghost predicate JaccardOf(reference: seq<Turn>, hypothesis: seq<Turn>, mapping: map<string, string>, speaker: string,
                            value: real)
  {
    exists both, either :: SharedSamples(reference, hypothesis, mapping, speaker, both, either)
        && (1.0 - value) * (if |either| == 0 then 1 else |either|) as real == |both| as real
  }

  lemma BothAndEither(reference: seq<Turn>, hypothesis: seq<Turn>, mapping: map<string, string>, speaker: string,
                      left: set<int>, right: set<int>)
    requires left == Covered(Spoken(reference, map[], speaker))
        && right == Covered(Spoken(hypothesis, mapping, speaker))
    ensures SharedSamples(reference, hypothesis, mapping, speaker, left * right, left + right)
  {
    SpokenMeans(reference, map[], speaker);
    SpokenMeans(hypothesis, mapping, speaker);
    forall t ensures t in left <==> speaker in Active(reference, t) {
      assert Renamed(map[], Active(reference, t)) == Active(reference, t);
    }
  }

  lemma JaccardIs(reference: seq<Turn>, hypothesis: seq<Turn>, mapping: map<string, string>, speaker: string,
                  both: set<int>, either: set<int>, value: real)
    requires SharedSamples(reference, hypothesis, mapping, speaker, both, either)
    requires value == 1.0 - |both| as real / Max(1, |either|) as real
    ensures JaccardOf(reference, hypothesis, mapping, speaker, value)
  {
    Quotient(|both|, Max(1, |either|), 1.0 - value);
  }

  lemma Quotient(a: int, b: int, q: real)
    requires b >= 1 && q == a as real / b as real
    ensures q * b as real == a as real
  {
  }

  /** One minus the share of the speaker's samples both sides have: zero exactly when the two sides have the same
      ones. */
  method JaccardError(reference: seq<Turn>, hypothesis: seq<Turn>, mapping: map<string, string>, speaker: string)
    returns (value: real)
    requires Started(reference) && Started(hypothesis)
    ensures 0.0 <= value <= 1.0
    ensures JaccardOf(reference, hypothesis, mapping, speaker, value)
    ensures (exists t :: speaker in Active(reference, t)) ==>
      (value == 0.0 <==> forall t :: speaker in Active(reference, t) <==>
       speaker in Renamed(mapping, Active(hypothesis, t)))
  {
    var referenceIntervals := Spoken(reference, map[], speaker);
    var predictedIntervals := Spoken(hypothesis, mapping, speaker);
    SpokenMeans(reference, map[], speaker);
    SpokenMeans(hypothesis, mapping, speaker);
    var intersection := IntersectionDuration(referenceIntervals, predictedIntervals);
    var union := UnionDuration(referenceIntervals + predictedIntervals);
    value := 1.0 - intersection as real / Max(1, union) as real;
    CoveredConcat(referenceIntervals, predictedIntervals);
    JaccardMeans(Covered(referenceIntervals), Covered(predictedIntervals), value);
    SameSamples(reference, hypothesis, mapping, speaker);
    ghost var left, right := Covered(referenceIntervals), Covered(predictedIntervals);
    BothAndEither(reference, hypothesis, mapping, speaker, left, right);
    JaccardIs(reference, hypothesis, mapping, speaker, left * right, left + right, value);
  }

  lemma SameSamples(reference: seq<Turn>, hypothesis: seq<Turn>, mapping: map<string, string>, speaker: string)
    ensures var left, right := Covered(Spoken(reference, map[], speaker)),
        Covered(Spoken(hypothesis, mapping, speaker));
      && (left != {} <==> exists t :: speaker in Active(reference, t))
      && (left == right <==> forall t :: speaker in Active(reference, t) <==>
          speaker in Renamed(mapping, Active(hypothesis, t)))
  {
    var left, right := Covered(Spoken(reference, map[], speaker)), Covered(Spoken(hypothesis, mapping, speaker));
    SpokenMeans(reference, map[], speaker);
    SpokenMeans(hypothesis, mapping, speaker);
    forall t ensures t in left <==> speaker in Active(reference, t) {}
    assert left == right <==> forall t :: t in left <==> t in right;
  }

  lemma JaccardMeans(left: set<int>, right: set<int>, value: real)
    requires value == 1.0 - |left * right| as real / Max(1, |left + right|) as real
    ensures 0.0 <= value <= 1.0
    ensures left != {} ==> (value == 0.0 <==> left == right)
  {
    SubsetSize(left * right, left + right);
    Share(|left * right|, Max(1, |left + right|), 1.0 - value);
    if left != {} {
      SubsetSize(left, left + right);
      assert |left| > 0;
      if left * right == left + right {
        assert left == left * right == right;
      }
      if left == right { assert left * right == left + right; }
    }
  }

  lemma Share(a: int, b: int, q: real)
    requires 0 <= a <= b && b >= 1 && q == a as real / b as real
    ensures 0.0 <= q <= 1.0 && (q == 1.0 <==> a == b)
  {
  }
}
