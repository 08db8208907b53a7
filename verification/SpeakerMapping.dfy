/** Which reference speaker each hypothesis speaker is taken for, from the turns of both. */
module SpeakerMapping {
  import opened Common
  import Intervals
  import opened Speakers

  function Labels(turns: seq<Turn>): set<string> {
    if turns == [] then {} else Labels(turns[..|turns| - 1]) + {turns[|turns| - 1].speaker}
  }

  // ----- Counting overlaps -----

  datatype Pair = Pair(predicted: string, expected: string, width: int) {
    predicate Is(p: string, e: string) { predicted == p && expected == e }
  }

  /** The samples two turns share. */
  function Width(predicted: Turn, expected: Turn): nat {
    Max(0, Min(predicted.end, expected.end) - Max(predicted.start, expected.start))
  }

  /** What a turn shares with all turns of a reference speaker. */
  function RowOverlap(predicted: Turn, reference: seq<Turn>, e: string): nat {
    if reference == [] then 0
    else
      var last := reference[|reference| - 1];
      RowOverlap(predicted, reference[..|reference| - 1], e) + if last.speaker == e then Width(predicted, last) else 0
  }

  /** What two speakers share, summed over all pairs of their turns. */
  function Overlap(reference: seq<Turn>, hypothesis: seq<Turn>, p: string, e: string): nat {
    if hypothesis == [] then 0
    else
      var last := hypothesis[|hypothesis| - 1];
      Overlap(reference, hypothesis[..|hypothesis| - 1], p, e) + if last.speaker == p
          then RowOverlap(last, reference, e) else 0
  }

  /** A counter, in the order its keys came: adds to a key, or appends it. */
  function AddWidth(counts: seq<Pair>, p: string, e: string, width: int): seq<Pair> {
    if counts == [] then [Pair(p, e, width)]
    else if counts[0].Is(p, e) then [Pair(p, e, counts[0].width + width)] + counts[1..]
    else [counts[0]] + AddWidth(counts[1..], p, e, width)
  }

  function CountedRow(counts: seq<Pair>, predicted: Turn, reference: seq<Turn>): seq<Pair> {
    if reference == [] then counts
    else
      var last := reference[|reference| - 1];
      AddWidth(CountedRow(counts, predicted, reference[..|reference| - 1]), predicted.speaker, last.speaker,
               Width(predicted, last))
  }

  function Counted(reference: seq<Turn>, hypothesis: seq<Turn>): seq<Pair> {
    if hypothesis == [] then []
    else CountedRow(Counted(reference, hypothesis[..|hypothesis| - 1]), hypothesis[|hypothesis| - 1], reference)
  }

  predicate HasKey(counts: seq<Pair>, p: string, e: string) {
    counts != [] && (counts[0].Is(p, e) || HasKey(counts[1..], p, e))
  }

  function WidthOf(counts: seq<Pair>, p: string, e: string): int {
    if counts == [] then 0 else if counts[0].Is(p, e) then counts[0].width else WidthOf(counts[1..], p, e)
  }

  predicate Distinct(counts: seq<Pair>) {
    counts == [] || (!HasKey(counts[1..], counts[0].predicted, counts[0].expected) && Distinct(counts[1..]))
  }

  lemma {:induction false} AddWidthLookup(counts: seq<Pair>, p: string, e: string, width: int, q: string, f: string)
    ensures var after := AddWidth(counts, p, e, width);
      && (HasKey(after, q, f) <==> HasKey(counts, q, f) || (q == p && f == e))
      && WidthOf(after, q, f) == WidthOf(counts, q, f) + if q == p && f == e then width else 0
  {
    if counts == [] {
    } else if counts[0].Is(p, e) {
    } else {
      AddWidthLookup(counts[1..], p, e, width, q, f);
    }
  }

  lemma {:induction false} AddWidthDistinct(counts: seq<Pair>, p: string, e: string, width: int)
    requires Distinct(counts)
    ensures Distinct(AddWidth(counts, p, e, width))
  {
    if counts == [] {
    } else if counts[0].Is(p, e) {
    } else {
      AddWidthLookup(counts[1..], p, e, width, counts[0].predicted, counts[0].expected);
      AddWidthDistinct(counts[1..], p, e, width);
    }
  }

  lemma {:induction false} CountedRowMeans(counts: seq<Pair>, predicted: Turn, reference: seq<Turn>, q: string,
                                           f: string)
    requires Distinct(counts)
    ensures var after := CountedRow(counts, predicted, reference);
      && Distinct(after)
      && (HasKey(after, q, f) <==> HasKey(counts, q, f) || (q == predicted.speaker && f in Labels(reference)))
      && WidthOf(after, q, f) == WidthOf(counts, q, f) + if q == predicted.speaker
          then RowOverlap(predicted, reference, f) else 0
  {
    if reference != [] {
      var front, last := reference[..|reference| - 1], reference[|reference| - 1];
      CountedRowMeans(counts, predicted, front, q, f);
      var before := CountedRow(counts, predicted, front);
      AddWidthLookup(before, predicted.speaker, last.speaker, Width(predicted, last), q, f);
      AddWidthDistinct(before, predicted.speaker, last.speaker, Width(predicted, last));
    }
  }

  /** Every pair of labels is counted, also one that shares nothing, with what its turns share. */
  lemma {:induction false} CountedMeans(reference: seq<Turn>, hypothesis: seq<Turn>, p: string, e: string)
    ensures var counts := Counted(reference, hypothesis);
      && Distinct(counts)
      && (HasKey(counts, p, e) <==> p in Labels(hypothesis) && e in Labels(reference))
      && WidthOf(counts, p, e) == Overlap(reference, hypothesis, p, e)
  {
    if hypothesis != [] {
      var front, last := hypothesis[..|hypothesis| - 1], hypothesis[|hypothesis| - 1];
      CountedMeans(reference, front, p, e);
      CountedRowMeans(Counted(reference, front), last, reference, p, e);
    }
  }

  lemma {:induction false} KeyOfMember(counts: seq<Pair>, pair: Pair)
    requires Distinct(counts) && pair in counts
    ensures HasKey(counts, pair.predicted, pair.expected)
        && WidthOf(counts, pair.predicted, pair.expected) == pair.width
  {
    if pair != counts[0] {
      assert pair in counts[1..];
      KeyOfMember(counts[1..], pair);
    }
  }

  lemma {:induction false} MemberOfKey(counts: seq<Pair>, p: string, e: string)
    requires HasKey(counts, p, e)
    ensures Pair(p, e, WidthOf(counts, p, e)) in counts
  {
    if !counts[0].Is(p, e) { MemberOfKey(counts[1..], p, e); }
  }

  // ----- Sorting by falling overlap, then by label -----

  /** Strings by their first different character. */
  predicate Below(a: string, b: string) {
    b != [] && (a == [] || a[0] < b[0] || (a[0] == b[0] && Below(a[1..], b[1..])))
  }

  /** The first label ends where the second goes on, or has the smaller character where they first differ. */
  predicate LabelFirst(a: string, b: string) {
    exists n :: 0 <= n < |b| && n <= |a| && a[..n] == b[..n] && (n == |a| || a[n] < b[n])
  }

  lemma {:induction false} BelowMeans(a: string, b: string)
    requires Below(a, b)
    ensures LabelFirst(a, b)
  {
    if a == [] || a[0] < b[0] {
      assert a[..0] == b[..0];
    } else {
      BelowMeans(a[1..], b[1..]);
      var n :| 0 <= n < |b[1..]| && n <= |a[1..]| && a[1..][..n] == b[1..][..n]
          && (n == |a[1..]| || a[1..][n] < b[1..][n]);
      assert a[..n + 1] == [a[0]] + a[1..][..n] && b[..n + 1] == [b[0]] + b[1..][..n];
    }
  }

  lemma {:induction false} BelowTotal(a: string, b: string)
    ensures a == b || Below(a, b) || Below(b, a)
  {
    if a != [] && b != [] && a[0] == b[0] {
      BelowTotal(a[1..], b[1..]);
      if a[1..] == b[1..] { assert a == [a[0]] + a[1..] == b; }
    }
  }

  lemma {:induction false} BelowTransitive(a: string, b: string, c: string)
    requires Below(a, b) && Below(b, c)
    ensures Below(a, c)
  {
    if a != [] && a[0] == b[0] == c[0] { BelowTransitive(a[1..], b[1..], c[1..]); }
  }

  lemma {:induction false} NotBelowItself(a: string)
    ensures !Below(a, a)
  {
    if a != [] { NotBelowItself(a[1..]); }
  }

  predicate KeyBelow(a: Pair, b: Pair) {
    Below(a.predicted, b.predicted) || (a.predicted == b.predicted && Below(a.expected, b.expected))
  }

  /** The order of the source's sort key. */
  predicate Before(a: Pair, b: Pair) { a.width > b.width || (a.width == b.width && KeyBelow(a, b)) }

  lemma BeforeTotal(a: Pair, b: Pair)
    requires !a.Is(b.predicted, b.expected)
    ensures Before(a, b) || Before(b, a)
  {
    BelowTotal(a.predicted, b.predicted);
    BelowTotal(a.expected, b.expected);
  }

  lemma BeforeTransitive(a: Pair, b: Pair, c: Pair)
    requires Before(a, b) && Before(b, c)
    ensures Before(a, c)
  {
    if a.width == b.width == c.width {
      if a.predicted == b.predicted == c.predicted {
        NotBelowItself(a.predicted);
        BelowTransitive(a.expected, b.expected, c.expected);
      } else if Below(a.predicted, b.predicted) && Below(b.predicted, c.predicted) {
        BelowTransitive(a.predicted, b.predicted, c.predicted);
      }
    }
  }

  function Placed(sorted: seq<Pair>, pair: Pair): seq<Pair> {
    if sorted == [] || Before(pair, sorted[0]) then [pair] + sorted else [sorted[0]] + Placed(sorted[1..], pair)
  }

  function Sorted(pairs: seq<Pair>): seq<Pair> {
    if pairs == [] then [] else Placed(Sorted(pairs[1..]), pairs[0])
  }

  predicate Strict(pairs: seq<Pair>) {
    |pairs| <= 1 || (Before(pairs[0], pairs[1]) && Strict(pairs[1..]))
  }

  lemma {:induction false} PlacedKeeps(sorted: seq<Pair>, pair: Pair)
    requires Strict(sorted) && forall q :: q in sorted ==> !q.Is(pair.predicted, pair.expected)
    ensures Strict(Placed(sorted, pair))
    ensures forall q :: q in Placed(sorted, pair) <==> q in sorted || q == pair
  {
    if sorted == [] || Before(pair, sorted[0]) {
    } else {
      var rest := sorted[1..];
      assert sorted[0] in sorted;
      BeforeTotal(sorted[0], pair);
      PlacedKeeps(rest, pair);
      assert sorted == [sorted[0]] + rest;
    }
  }

  lemma {:induction false} SortedKeeps(pairs: seq<Pair>)
    requires Distinct(pairs)
    ensures Strict(Sorted(pairs))
    ensures forall q :: q in Sorted(pairs) <==> q in pairs
  {
    if pairs != [] {
      var rest := pairs[1..];
      SortedKeeps(rest);
      forall q | q in Sorted(rest) ensures !q.Is(pairs[0].predicted, pairs[0].expected) { KeyOfMember(rest, q); }
      PlacedKeeps(Sorted(rest), pairs[0]);
      assert pairs == [pairs[0]] + rest;
    }
  }

  lemma {:induction false} StrictBefore(pairs: seq<Pair>, i: nat, j: nat)
    requires Strict(pairs) && i < j < |pairs|
    ensures Before(pairs[i], pairs[j])
    decreases j
  {
    if i > 0 {
      StrictBefore(pairs[1..], i - 1, j - 1);
    } else if j > 1 {
      StrictBefore(pairs[1..], 0, j - 1);
      BeforeTransitive(pairs[0], pairs[1], pairs[j]);
    }
  }

  // ----- The mapping -----

  function AddPair(mapping: map<string, string>, p: Pair): map<string, string> {
    if p.predicted !in mapping && p.expected !in mapping.Values then mapping[p.predicted := p.expected] else mapping
  }

  function Greedy(order: seq<Pair>): map<string, string> {
    if order == [] then map[] else AddPair(Greedy(order[..|order| - 1]), order[|order| - 1])
  }

  /** The pairs of labels by falling overlap, ties by label. */
  function Ranking(reference: seq<Turn>, hypothesis: seq<Turn>): seq<Pair> { Sorted(Counted(reference, hypothesis)) }

  function Mapping(reference: seq<Turn>, hypothesis: seq<Turn>): map<string, string> {
    Greedy(Ranking(reference, hypothesis))
  }

  ghost predicate OneToOne(mapping: map<string, string>) {
    forall p, q :: p in mapping && q in mapping && mapping[p] == mapping[q] ==> p == q
  }

  predicate Compete(p: Pair, q: Pair) { p.predicted == q.predicted || p.expected == q.expected }

  predicate Chosen(mapping: map<string, string>, p: Pair) {
    p.predicted in mapping && mapping[p.predicted] == p.expected
  }

  ghost predicate Settled(order: seq<Pair>, k: nat, mapping: map<string, string>)
    requires k < |order|
  {
    exists j :: 0 <= j <= k && Chosen(mapping, order[j]) && Compete(order[j], order[k])
  }

  lemma {:induction false} GreedyKeeps(order: seq<Pair>)
    ensures OneToOne(Greedy(order))
    ensures forall k :: 0 <= k < |order| ==> Settled(order, k, Greedy(order))
    ensures forall p :: p in Greedy(order) ==>
      exists j :: 0 <= j < |order| && order[j].predicted == p && order[j].expected == Greedy(order)[p]
  {
    if order != [] {
      var front, last := order[..|order| - 1], order[|order| - 1];
      GreedyKeeps(front);
      var before, after := Greedy(front), Greedy(order);
      forall k | 0 <= k < |order| ensures Settled(order, k, after) {
        if k < |front| {
          assert Settled(front, k, before);
          var j :| 0 <= j <= k && Chosen(before, front[j]) && Compete(front[j], front[k]);
          assert order[j] == front[j] && order[k] == front[k];
          assert Chosen(after, order[j]) && Compete(order[j], order[k]);
        } else if last.predicted in before || last.expected in before.Values {
          var p :| p in before && (p == last.predicted || before[p] == last.expected);
          var j :| 0 <= j < |front| && front[j].predicted == p && front[j].expected == before[p];
          assert Chosen(after, order[j]) && Compete(order[j], order[k]);
        } else {
          assert Chosen(after, order[k]) && Compete(order[k], order[k]);
        }
      }
      forall p | p in after ensures exists j ::
          0 <= j < |order| && order[j].predicted == p && order[j].expected == after[p] {
        if p in before {
          var j :| 0 <= j < |front| && front[j].predicted == p && front[j].expected == before[p];
          assert order[j].predicted == p;
        } else {
          assert order[|order| - 1].predicted == p;
        }
      }
    }
  }

  /** A hypothesis label, a reference label and their overlap. */
  predicate Listable(reference: seq<Turn>, hypothesis: seq<Turn>, q: Pair) {
    q.predicted in Labels(hypothesis) && q.expected in Labels(reference)
    && q.width == Overlap(reference, hypothesis, q.predicted, q.expected)
  }

  /** The ranking lists each pair of labels once with its overlap, strictly by the sort key. */
  lemma RankingMeans(reference: seq<Turn>, hypothesis: seq<Turn>)
    ensures Strict(Ranking(reference, hypothesis))
    ensures forall q :: q in Ranking(reference, hypothesis) <==> Listable(reference, hypothesis, q)
  {
    var counts := Counted(reference, hypothesis);
    CountedMeans(reference, hypothesis, "", "");
    SortedKeeps(counts);
    forall q: Pair ensures q in counts <==> Listable(reference, hypothesis, q) {
      CountedMeans(reference, hypothesis, q.predicted, q.expected);
      if q in counts { KeyOfMember(counts, q); }
      if HasKey(counts, q.predicted, q.expected) { MemberOfKey(counts, q.predicted, q.expected); }
    }
  }

  /** The mapping takes hypothesis labels to reference labels, no two to the same. */
  lemma MappingLabels(reference: seq<Turn>, hypothesis: seq<Turn>)
    ensures var m := Mapping(reference, hypothesis);
      OneToOne(m) && m.Keys <= Labels(hypothesis) && m.Values <= Labels(reference)
  {
    var order, m := Ranking(reference, hypothesis), Mapping(reference, hypothesis);
    RankingMeans(reference, hypothesis);
    GreedyKeeps(order);
    forall p | p in m ensures p in Labels(hypothesis) && m[p] in Labels(reference) {
      var j :| 0 <= j < |order| && order[j].predicted == p && order[j].expected == m[p];
      assert order[j] in order;
    }
  }

  /** No two speakers left unmatched or matched otherwise share more than every chosen pair they compete with; where
      they share as much, the chosen pair's labels come first. */
  lemma MappingIsStable(reference: seq<Turn>, hypothesis: seq<Turn>, p: string, e: string) returns (q: string)
    requires p in Labels(hypothesis) && e in Labels(reference)
    ensures var m := Mapping(reference, hypothesis);
      && q in m && (q == p || m[q] == e)
      && (|| Overlap(reference, hypothesis, q, m[q]) > Overlap(reference, hypothesis, p, e)
          || (Overlap(reference, hypothesis, q, m[q]) == Overlap(reference, hypothesis, p, e)
              && (LabelFirst(q, p) || (q == p && (LabelFirst(m[q], e) || m[q] == e)))))
  {
    var order, m := Ranking(reference, hypothesis), Mapping(reference, hypothesis);
    RankingMeans(reference, hypothesis);
    GreedyKeeps(order);
    assert Pair(p, e, Overlap(reference, hypothesis, p, e)) in order;
    var k :| 0 <= k < |order| && order[k] == Pair(p, e, Overlap(reference, hypothesis, p, e));
    assert Settled(order, k, m);
    var j :| 0 <= j <= k && Chosen(m, order[j]) && Compete(order[j], order[k]);
    if j < k { StrictBefore(order, j, k); }
    assert order[j] in order && Listable(reference, hypothesis, order[j]);
    q := order[j].predicted;
    BeforeMeans(order[j], order[k]);
  }

  lemma BeforeMeans(a: Pair, b: Pair)
    requires a == b || Before(a, b)
    ensures || a.width > b.width
            || (a.width == b.width
                && (LabelFirst(a.predicted, b.predicted)
                    || (a.predicted == b.predicted
                        && (LabelFirst(a.expected, b.expected) || a.expected == b.expected))))
  {
    if Below(a.predicted, b.predicted) { BelowMeans(a.predicted, b.predicted); }
    if Below(a.expected, b.expected) { BelowMeans(a.expected, b.expected); }
  }

  /** As many speakers are matched as the side with fewer has. */
  lemma MappingSize(reference: seq<Turn>, hypothesis: seq<Turn>)
    ensures |Mapping(reference, hypothesis)| == Min(|Labels(hypothesis)|, |Labels(reference)|)
    ensures |Labels(hypothesis)| <= |Labels(reference)| <==> Mapping(reference, hypothesis).Keys == Labels(hypothesis)
  {
    var m, h, r := Mapping(reference, hypothesis), Labels(hypothesis), Labels(reference);
    MappingLabels(reference, hypothesis);
    ImageSize(m, m.Keys);
    assert Renamed(m, m.Keys) == m.Values;
    Intervals.SubsetSize(m.Keys, h);
    Intervals.SubsetSize(m.Values, r);
    if p :| p in h && p !in m {
      forall e | e in r ensures e in m.Values { var q := MappingIsStable(reference, hypothesis, p, e); }
      assert m.Values == r;
      Intervals.SubsetSize(m.Keys + {p}, h);
    } else {
      assert m.Keys == h;
    }
  }

  // ----- The loops -----

  method SpeakerMapping(reference: seq<Turn>, hypothesis: seq<Turn>) returns (mapping: map<string, string>)
    ensures mapping == Mapping(reference, hypothesis)
  {
    var overlap: seq<Pair> := [];
    for i := 0 to |hypothesis|
      invariant overlap == Counted(reference, hypothesis[..i])
    {
      assert hypothesis[..i + 1][..i] == hypothesis[..i];
      ghost var before := overlap;
      for j := 0 to |reference|
        invariant overlap == CountedRow(before, hypothesis[i], reference[..j])
      {
        assert reference[..j + 1][..j] == reference[..j];
        var width := Max(0, Min(hypothesis[i].end, reference[j].end) - Max(hypothesis[i].start, reference[j].start));
        overlap := AddWidth(overlap, hypothesis[i].speaker, reference[j].speaker, width);
      }
      assert reference[..|reference|] == reference;
    }
    assert hypothesis[..|hypothesis|] == hypothesis;
    mapping := GreedyMapping(Sorted(overlap));
  }

  method GreedyMapping(order: seq<Pair>) returns (mapping: map<string, string>)
    ensures mapping == Greedy(order)
  {
    var usedPredicted: set<string>, usedExpected: set<string> := {}, {};
    mapping := map[];
    for k := 0 to |order|
      invariant mapping == Greedy(order[..k])
      invariant usedPredicted == mapping.Keys && usedExpected == mapping.Values
    {
      assert order[..k + 1][..k] == order[..k];
      var p := order[k];
      if p.predicted !in usedPredicted && p.expected !in usedExpected {
        ValuesAdd(mapping, p.predicted, p.expected);
        mapping := mapping[p.predicted := p.expected];
        usedPredicted := usedPredicted + {p.predicted};
        usedExpected := usedExpected + {p.expected};
      }
    }
    assert order[..|order|] == order;
  }

  lemma ValuesAdd(mapping: map<string, string>, p: string, e: string)
    requires p !in mapping
    ensures mapping[p := e].Values == mapping.Values + {e}
  {
    var after := mapping[p := e];
    forall v ensures v in after.Values <==> v in mapping.Values + {e} {
      if v in mapping.Values {
        var q :| q in mapping && mapping[q] == v;
        assert after[q] == v;
      }
      if v == e { assert after[p] == v; }
    }
  }

  /** The mapping, then the rate under it. */
  method SpeakerErrorRate(reference: seq<Turn>, hypothesis: seq<Turn>) returns (der: real)
    ensures der >= 0.0
    ensures der == 0.0 <==> Agree(reference, hypothesis, Mapping(reference, hypothesis))
  {
    var mapping := SpeakerMapping(reference, hypothesis);
    der := DiarizationErrorRate(reference, hypothesis, mapping);
  }

  // ----- Speakers who share a name -----

  ghost predicate KeepsApart(mapping: map<string, string>, speakers: set<string>) {
    forall s, u :: s in speakers && u in speakers && Rename(mapping, s) == Rename(mapping, u) ==> s == u
  }

  lemma {:induction false} RenamedSize(mapping: map<string, string>, speakers: set<string>)
    ensures |Renamed(mapping, speakers)| <= |speakers|
    ensures KeepsApart(mapping, speakers) ==> |Renamed(mapping, speakers)| == |speakers|
    decreases |speakers|
  {
    if speakers == {} {
      assert Renamed(mapping, speakers) == {};
    } else {
      var s :| s in speakers;
      var others := speakers - {s};
      RenamedSize(mapping, others);
      assert Renamed(mapping, speakers) == Renamed(mapping, others) + {Rename(mapping, s)};
      if KeepsApart(mapping, speakers) {
        assert KeepsApart(mapping, others);
        assert Rename(mapping, s) !in Renamed(mapping, others);
      }
    }
  }

  /** A one-to-one mapping gives as many names as labels. */
  lemma ImageSize(mapping: map<string, string>, labels: set<string>)
    requires OneToOne(mapping) && labels <= mapping.Keys
    ensures |Renamed(mapping, labels)| == |labels|
  {
    RenamedSize(mapping, labels);
  }

  /** A speaker disappears from one sample when two active labels come out under one name. */
  predicate HidesSome(mapping: map<string, string>, active: set<string>) { |Renamed(mapping, active)| < |active| }

  /** That happens exactly when an unmatched active speaker bears the name given to another active one. */
  lemma HidesSomeIff(mapping: map<string, string>, active: set<string>)
    requires OneToOne(mapping)
    ensures HidesSome(mapping, active) <==>
      exists s, u :: s in active && s !in mapping && u in active && u in mapping && mapping[u] == s
  {
    RenamedSize(mapping, active);
    if s, u :| s in active && s !in mapping && u in active && u in mapping && mapping[u] == s {
      var others := active - {s};
      assert Rename(mapping, u) == s && u in others;
      assert Renamed(mapping, active) == Renamed(mapping, others);
      RenamedSize(mapping, others);
    } else {
      forall s, u | s in active && u in active && Rename(mapping, s) == Rename(mapping, u) ensures s == u {}
    }
  }

  /** Every speaker of the hypothesis counts at every sample. */
  ghost predicate NobodyHidden(reference: seq<Turn>, hypothesis: seq<Turn>) {
    forall t :: !HidesSome(Mapping(reference, hypothesis), Active(hypothesis, t))
  }

  lemma {:induction false} ActiveLabels(turns: seq<Turn>, t: int)
    ensures Active(turns, t) <= Labels(turns)
  {
    if turns != [] {
      ActiveLabels(turns[..|turns| - 1], t);
      ActiveAppend(turns, t);
    }
  }

  /** With enough reference speakers, or none whose label the hypothesis uses too, nobody is hidden, whatever the
      times. */
  lemma ApartWhen(reference: seq<Turn>, hypothesis: seq<Turn>)
    requires |Labels(hypothesis)| <= |Labels(reference)| || Labels(hypothesis) * Labels(reference) == {}
    ensures NobodyHidden(reference, hypothesis)
  {
    var m := Mapping(reference, hypothesis);
    MappingLabels(reference, hypothesis);
    MappingSize(reference, hypothesis);
    forall t ensures !HidesSome(m, Active(hypothesis, t)) {
      ActiveLabels(hypothesis, t);
      HidesSomeIff(m, Active(hypothesis, t));
      forall s | s in Active(hypothesis, t) && s !in m ensures s !in m.Values {
        assert s in Labels(hypothesis);
        assert s !in Labels(hypothesis) * Labels(reference);
      }
    }
  }

  /** With nobody hidden, no error means as many speakers on both sides at every sample. */
  lemma ZeroCountsSpeakers(reference: seq<Turn>, hypothesis: seq<Turn>, t: int)
    requires NobodyHidden(reference, hypothesis) && Agree(reference, hypothesis, Mapping(reference, hypothesis))
    ensures |Active(hypothesis, t)| == |Active(reference, t)|
  {
    assert AgreeAt(reference, hypothesis, Mapping(reference, hypothesis), t);
    assert !HidesSome(Mapping(reference, hypothesis), Active(hypothesis, t));
    RenamedSize(Mapping(reference, hypothesis), Active(hypothesis, t));
  }

  // ----- Overlap, sample by sample -----

  /** How many turns of a speaker hold a sample. */
  function Voices(turns: seq<Turn>, speaker: string, t: int): nat {
    if turns == [] then 0
    else
      var last := turns[|turns| - 1];
      Voices(turns[..|turns| - 1], speaker, t) + if last.speaker == speaker && last.At(t) then 1 else 0
  }

  lemma {:induction false} VoicesActive(turns: seq<Turn>, speaker: string, t: int)
    ensures Voices(turns, speaker, t) > 0 <==> speaker in Active(turns, t)
  {
    if turns != [] {
      VoicesActive(turns[..|turns| - 1], speaker, t);
      ActiveAppend(turns, t);
    }
  }

  function Both(a: Turn, b: Turn): int -> int { t => if a.At(t) && b.At(t) then 1 else 0 }

  function RowVoices(predicted: Turn, reference: seq<Turn>, e: string): int -> int {
    t => if predicted.At(t) then Voices(reference, e, t) else 0
  }

  /** The pairs of turns of two speakers that hold a sample. */
  function Together(reference: seq<Turn>, hypothesis: seq<Turn>, p: string, e: string): int -> int {
    t => Voices(hypothesis, p, t) * Voices(reference, e, t)
  }

  predicate Inside(turns: seq<Turn>, from: int, to: int) {
    from <= to && forall k :: 0 <= k < |turns| ==> from <= turns[k].start && turns[k].end <= to
  }

  lemma {:induction false} Around(turns: seq<Turn>) returns (from: int, to: int)
    ensures Inside(turns, from, to)
  {
    if turns == [] { return 0, 0; }
    var front, last := turns[..|turns| - 1], turns[|turns| - 1];
    from, to := Around(front);
    from, to := Min(from, last.start), Max(to, last.end);
    forall k | 0 <= k < |turns| ensures from <= turns[k].start && turns[k].end <= to {
      if k < |front| { assert front[k] == turns[k]; }
    }
  }

  lemma AroundBoth(reference: seq<Turn>, hypothesis: seq<Turn>) returns (from: int, to: int)
    ensures Inside(reference, from, to) && Inside(hypothesis, from, to)
  {
    var a, b := Around(reference);
    var c, d := Around(hypothesis);
    from, to := Min(a, c), Max(b, d);
  }

  lemma {:induction false} SumAdd(f: int -> int, g: int -> int, h: int -> int, a: int, b: int)
    requires forall t :: h(t) == f(t) + g(t)
    ensures Sum(h, a, b) == Sum(f, a, b) + Sum(g, a, b)
    decreases b - a
  {
    if a < b { SumAdd(f, g, h, a, b - 1); }
  }

  lemma {:induction false} SumSame(f: int -> int, g: int -> int, a: int, b: int)
    requires forall t :: f(t) == g(t)
    ensures Sum(f, a, b) == Sum(g, a, b)
    decreases b - a
  {
    if a < b { SumSame(f, g, a, b - 1); }
  }

  lemma WidthIsSum(a: Turn, b: Turn, from: int, to: int)
    requires from <= to && from <= a.start && b.end <= to
    ensures Sum(Both(a, b), from, to) == Width(a, b)
  {
    var start, end, both := Max(a.start, b.start), Min(a.end, b.end), Both(a, b);
    if start < end {
      SumSplit(both, from, start, to);
      SumSplit(both, start, end, to);
      SumConstant(both, from, start, 0);
      SumConstant(both, start, end, 1);
      SumConstant(both, end, to, 0);
    } else {
      SumConstant(both, from, to, 0);
    }
  }

  lemma {:induction false} RowIsSum(predicted: Turn, reference: seq<Turn>, e: string, from: int, to: int)
    requires Inside([predicted], from, to) && Inside(reference, from, to)
    ensures Sum(RowVoices(predicted, reference, e), from, to) == RowOverlap(predicted, reference, e)
  {
    var row := RowVoices(predicted, reference, e);
    assert [predicted][0] == predicted;
    if reference == [] {
      SumConstant(row, from, to, 0);
    } else {
      var front, last := reference[..|reference| - 1], reference[|reference| - 1];
      RowIsSum(predicted, front, e, from, to);
      if last.speaker == e {
        WidthIsSum(predicted, last, from, to);
        SumAdd(RowVoices(predicted, front, e), Both(predicted, last), row, from, to);
      } else {
        SumSame(RowVoices(predicted, front, e), row, from, to);
      }
    }
  }

  /** The counted overlap of two speakers is the sum over all samples of the pairs of their turns there. */
  lemma {:induction false} OverlapIsSum(reference: seq<Turn>, hypothesis: seq<Turn>, p: string, e: string, from: int,
                                        to: int)
    requires Inside(reference, from, to) && Inside(hypothesis, from, to)
    ensures Sum(Together(reference, hypothesis, p, e), from, to) == Overlap(reference, hypothesis, p, e)
  {
    var together := Together(reference, hypothesis, p, e);
    if hypothesis == [] {
      SumConstant(together, from, to, 0);
    } else {
      var front, last := hypothesis[..|hypothesis| - 1], hypothesis[|hypothesis| - 1];
      OverlapIsSum(reference, front, p, e, from, to);
      if last.speaker == p {
        assert Inside([last], from, to);
        RowIsSum(last, reference, e, from, to);
        forall t ensures together(t) == Together(reference, front, p, e)(t) + RowVoices(last, reference, e)(t) {
          OneMore(Voices(front, p, t), Voices(reference, e, t));
        }
        SumAdd(Together(reference, front, p, e), RowVoices(last, reference, e), together, from, to);
      } else {
        SumSame(Together(reference, front, p, e), together, from, to);
      }
    }
  }

  lemma OneMore(v: int, w: int)
    ensures (v + 1) * w == v * w + w
  {
  }

  /** Two speakers share something exactly when both are active at some sample. */
  lemma OverlapPositiveIff(reference: seq<Turn>, hypothesis: seq<Turn>, p: string, e: string)
    ensures Overlap(reference, hypothesis, p, e) > 0 <==> exists t ::
        p in Active(hypothesis, t) && e in Active(reference, t)
  {
    var from, to := AroundBoth(reference, hypothesis);
    OverlapIsSum(reference, hypothesis, p, e, from, to);
    SumZeroIff(Together(reference, hypothesis, p, e), from, to);
    forall t ensures Together(reference, hypothesis, p, e)(t) > 0 <==>
        p in Active(hypothesis, t) && e in Active(reference, t) {
      VoicesActive(hypothesis, p, t);
      VoicesActive(reference, e, t);
      Product(Voices(hypothesis, p, t), Voices(reference, e, t));
    }
    if t :| p in Active(hypothesis, t) && e in Active(reference, t) {
      assert Together(reference, hypothesis, p, e)(t) > 0;
      var k :| 0 <= k < |reference| && reference[k].At(t);
      assert from <= t < to;
    }
  }

  lemma Product(v: nat, w: nat)
    ensures v * w > 0 <==> v > 0 && w > 0
  {
    if v > 0 && w > 0 { assert v * w >= w; }
  }

  // ----- When the labels alone keep speakers apart -----

  predicate NoTwice(labels: seq<string>) { forall i, j :: 0 <= i < j < |labels| ==> labels[i] != labels[j] }

  lemma {:induction false} Listed(labels: set<string>) returns (list: seq<string>)
    ensures NoTwice(list) && |list| == |labels| && forall s :: s in list <==> s in labels
    decreases |labels|
  {
    if labels == {} { return []; }
    var s :| s in labels;
    list := Listed(labels - {s});
    list := list + [s];
  }

  /** Speakers one after the other, a sample each. */
  function InTurn(labels: seq<string>): seq<Turn> {
    if labels == [] then []
    else InTurn(labels[..|labels| - 1]) + [Turn(|labels| - 1, |labels|, labels[|labels| - 1])]
  }

  /** Then all at once, at one sample. */
  function ThenAll(before: seq<Turn>, labels: seq<string>, t: int): seq<Turn> {
    if labels == [] then before
    else ThenAll(before, labels[..|labels| - 1], t) + [Turn(t, t + 1, labels[|labels| - 1])]
  }

  predicate Timed(turns: seq<Turn>) { forall k :: 0 <= k < |turns| ==> 0 <= turns[k].start < turns[k].end }

  lemma {:induction false} InTurnMeans(labels: seq<string>, t: int)
    ensures Active(InTurn(labels), t) == if 0 <= t < |labels| then {labels[t]} else {}
    ensures Timed(InTurn(labels)) && forall s :: s in Labels(InTurn(labels)) <==> s in labels
  {
    if labels != [] {
      var front := labels[..|labels| - 1];
      InTurnMeans(front, t);
      ActiveAppend(InTurn(labels), t);
      assert InTurn(labels)[..|InTurn(labels)| - 1] == InTurn(front);
      assert labels == front + [labels[|labels| - 1]];
    }
  }

  lemma {:induction false} ThenAllMeans(before: seq<Turn>, labels: seq<string>, at: nat, t: int)
    requires Timed(before)
    ensures forall s :: s in Active(ThenAll(before, labels, at), t) <==>
        s in Active(before, t) || (t == at && s in labels)
    ensures Timed(ThenAll(before, labels, at))
    ensures forall s :: s in Labels(ThenAll(before, labels, at)) <==> s in Labels(before) || s in labels
  {
    if labels != [] {
      var front := labels[..|labels| - 1];
      ThenAllMeans(before, front, at, t);
      ActiveAppend(ThenAll(before, labels, at), t);
      assert ThenAll(before, labels, at)[..|ThenAll(before, labels, at)| - 1] == ThenAll(before, front, at);
      assert labels == front + [labels[|labels| - 1]];
    }
  }

  /** As many of the hypothesis's speakers as the reference has speak in turn with them, then all of them at once. */
  ghost predicate Clashing(reference: seq<Turn>, hypothesis: seq<Turn>, hyps: seq<string>, refs: seq<string>,
                           all: set<string>) {
    && |hyps| == |refs| && NoTwice(hyps) && NoTwice(refs)
    && (forall t :: Active(reference, t) == if 0 <= t < |refs| then {refs[t]} else {})
    && (forall t :: Active(hypothesis, t) == if 0 <= t < |hyps| then {hyps[t]} else if t == |hyps| then all else {})
    && (forall s :: s in Labels(reference) <==> s in refs)
    && (forall i :: 0 <= i < |hyps| ==> hyps[i] in Labels(hypothesis))
  }

  lemma ClashMatches(reference: seq<Turn>, hypothesis: seq<Turn>, hyps: seq<string>, refs: seq<string>,
                     all: set<string>, i: nat)
    requires Clashing(reference, hypothesis, hyps, refs, all) && i < |hyps|
    ensures var m := Mapping(reference, hypothesis); hyps[i] in m && m[hyps[i]] == refs[i]
  {
    var m := Mapping(reference, hypothesis);
    assert refs[i] in refs;
    OverlapPositiveIff(reference, hypothesis, hyps[i], refs[i]);
    assert hyps[i] in Active(hypothesis, i) && refs[i] in Active(reference, i);
    var q := MappingIsStable(reference, hypothesis, hyps[i], refs[i]);
    OverlapPositiveIff(reference, hypothesis, q, m[q]);
    var t :| q in Active(hypothesis, t) && m[q] in Active(reference, t);
    assert 0 <= t < |refs| && q == hyps[t] && m[q] == refs[t];
    if t < i {} else if i < t {}
  }

  lemma ClashHides(reference: seq<Turn>, hypothesis: seq<Turn>, hyps: seq<string>, refs: seq<string>, all: set<string>,
                   x: string)
    requires Clashing(reference, hypothesis, hyps, refs, all)
    requires x in refs && x in all && x !in hyps && forall k :: 0 <= k < |hyps| ==> hyps[k] in all
    ensures HidesSome(Mapping(reference, hypothesis), Active(hypothesis, |hyps|))
  {
    var m := Mapping(reference, hypothesis);
    MappingLabels(reference, hypothesis);
    if x in m {
      assert m[x] in m.Values;
      var j :| 0 <= j < |refs| && refs[j] == m[x];
      ClashMatches(reference, hypothesis, hyps, refs, all, j);
      assert false;
    }
    var i :| 0 <= i < |refs| && refs[i] == x;
    ClashMatches(reference, hypothesis, hyps, refs, all, i);
    assert Active(hypothesis, |hyps|) == all;
    HidesSomeIff(m, Active(hypothesis, |hyps|));
  }

  /** Labels in excess, one of them also a reference label: some turns with these labels hide that one. */
  lemma Clash(hypothesisLabels: set<string>, referenceLabels: set<string>)
    returns (reference: seq<Turn>, hypothesis: seq<Turn>)
    requires |hypothesisLabels| > |referenceLabels| && hypothesisLabels * referenceLabels != {}
    ensures Labels(reference) == referenceLabels && Labels(hypothesis) == hypothesisLabels
    ensures Timed(reference) && Timed(hypothesis) && !NobodyHidden(reference, hypothesis)
  {
    var x :| x in hypothesisLabels * referenceLabels;
    var refs := Listed(referenceLabels);
    var all := Listed(hypothesisLabels);
    var hyps := SomeOf(hypothesisLabels - {x}, |refs|);
    reference, hypothesis := InTurn(refs), ThenAll(InTurn(hyps), all, |hyps|);
    ClashIs(refs, hyps, all, referenceLabels, hypothesisLabels);
    ClashHides(reference, hypothesis, hyps, refs, hypothesisLabels, x);
  }

  lemma SomeOf(labels: set<string>, n: nat) returns (some: seq<string>)
    requires n <= |labels|
    ensures NoTwice(some) && |some| == n && forall s :: s in some ==> s in labels
  {
    var list := Listed(labels);
    some := list[..n];
  }

  lemma ClashIs(refs: seq<string>, hyps: seq<string>, all: seq<string>, referenceLabels: set<string>,
                labels: set<string>)
    requires NoTwice(refs) && NoTwice(hyps) && |hyps| == |refs|
    requires (forall s :: s in refs <==> s in referenceLabels)
    requires (forall s :: s in all <==> s in labels) && forall s :: s in hyps ==> s in labels
    ensures var reference, hypothesis := InTurn(refs), ThenAll(InTurn(hyps), all, |hyps|);
      && Clashing(reference, hypothesis, hyps, refs, labels) && Labels(reference) == referenceLabels
      && Labels(hypothesis) == labels && Timed(reference) && Timed(hypothesis)
  {
    var reference, hypothesis := InTurn(refs), ThenAll(InTurn(hyps), all, |hyps|);
    InTurnMeans(refs, 0);
    InTurnMeans(hyps, 0);
    ThenAllMeans(InTurn(hyps), all, |hyps|, 0);
    forall t ensures Active(reference, t) == if 0 <= t < |refs| then {refs[t]} else {} { InTurnMeans(refs, t); }
    forall t ensures Active(hypothesis, t) == if 0 <= t < |hyps| then {hyps[t]} else if t == |hyps| then labels
        else {} {
      InTurnMeans(hyps, t);
      ThenAllMeans(InTurn(hyps), all, |hyps|, t);
    }
    assert Labels(hypothesis) == labels && Labels(reference) == referenceLabels;
    forall i | 0 <= i < |hyps| ensures hyps[i] in Labels(hypothesis) { assert hyps[i] in hyps; }
  }

  /** Which sets of labels keep all speakers apart however the turns are timed. */
  lemma NobodyHiddenIff(hypothesisLabels: set<string>, referenceLabels: set<string>)
    ensures |hypothesisLabels| <= |referenceLabels| || hypothesisLabels * referenceLabels == {}
      <==> forall reference: seq<Turn>, hypothesis: seq<Turn> ::
             Labels(reference) == referenceLabels && Labels(hypothesis) == hypothesisLabels && Timed(reference)
                 && Timed(hypothesis)
             ==> NobodyHidden(reference, hypothesis)
  {
    if |hypothesisLabels| <= |referenceLabels| || hypothesisLabels * referenceLabels == {} {
      forall reference, hypothesis | Labels(reference) == referenceLabels && Labels(hypothesis) == hypothesisLabels
        ensures NobodyHidden(reference, hypothesis)
      {
        ApartWhen(reference, hypothesis);
      }
    } else {
      var reference, hypothesis := Clash(hypothesisLabels, referenceLabels);
    }
  }

  /**
   * The unmatched label "A" keeps its name, which was given to "B": the extra speaker disappears, and
   * every sample agrees although the hypothesis has two speakers where the reference has one.
   */
  lemma ExtraSpeakerHidden()
    ensures var reference, hypothesis := [Turn(0, 100, "A")], [Turn(0, 100, "B"), Turn(0, 50, "A")];
      && Agree(reference, hypothesis, Mapping(reference, hypothesis))
      && |Active(reference, 10)| == 1 && |Active(hypothesis, 10)| == 2
  {
    var reference, hypothesis := [Turn(0, 100, "A")], [Turn(0, 100, "B"), Turn(0, 50, "A")];
    var m := Mapping(reference, hypothesis);
    assert "A"[0] != "B"[0];
    ExampleOverlaps(reference, hypothesis);
    MappingLabels(reference, hypothesis);
    var q := MappingIsStable(reference, hypothesis, "B", "A");
    assert m[q] in m.Values;
    assert q == "B" && m["B"] == "A";
    forall p | p in m ensures p == "B" { assert m[p] in m.Values; }
    forall t ensures AgreeAt(reference, hypothesis, m, t) {
      assert reference[0].At(t) <==> hypothesis[0].At(t);
      assert hypothesis[1].At(t) ==> hypothesis[0].At(t);
      assert Rename(m, "A") == "A" && Rename(m, "B") == "A";
    }
    assert reference[0].At(10) && hypothesis[0].At(10) && hypothesis[1].At(10);
    assert Active(reference, 10) == {"A"};
    assert Active(hypothesis, 10) == {"A", "B"};
  }

  lemma ExampleOverlaps(reference: seq<Turn>, hypothesis: seq<Turn>)
    requires reference == [Turn(0, 100, "A")] && hypothesis == [Turn(0, 100, "B"), Turn(0, 50, "A")]
    ensures Labels(reference) == {"A"} && Labels(hypothesis) == {"A", "B"}
    ensures Overlap(reference, hypothesis, "B", "A") == 100 && Overlap(reference, hypothesis, "A", "A") == 50
  {
    assert "A"[0] != "B"[0];
    assert reference[..0] == [] && hypothesis[..1] == [hypothesis[0]] && hypothesis[..1][..0] == [];
    assert Labels([]) == {} && Labels(hypothesis[..1]) == {"B"};
    assert RowOverlap(hypothesis[0], [], "A") == 0 && RowOverlap(hypothesis[1], [], "A") == 0;
    assert RowOverlap(hypothesis[0], reference, "A") == 100 && RowOverlap(hypothesis[1], reference, "A") == 50;
    assert Overlap(reference, [], "A", "A") == 0 && Overlap(reference, [], "B", "A") == 0;
    assert Overlap(reference, hypothesis[..1], "A", "A") == 0 && Overlap(reference, hypothesis[..1], "B", "A") == 100;
  }

  // ----- At least half of what any mapping could share -----

  /** What the matched speakers share: each hypothesis turn with all turns of the speaker it is taken for. */
  function Shared(reference: seq<Turn>, hypothesis: seq<Turn>, mapping: map<string, string>): nat {
    if hypothesis == [] then 0
    else
      var last := hypothesis[|hypothesis| - 1];
      Shared(reference, hypothesis[..|hypothesis| - 1], mapping)
      + if last.speaker in mapping then RowOverlap(last, reference, mapping[last.speaker]) else 0
  }

  function TotalWidth(pairs: seq<Pair>): int {
    if pairs == [] then 0 else TotalWidth(pairs[..|pairs| - 1]) + pairs[|pairs| - 1].width
  }

  predicate Lonely(pairs: seq<Pair>, p: Pair) { forall q :: q in pairs ==> !Compete(q, p) }

  /** No two of the pairs compete. */
  predicate Apart(pairs: seq<Pair>) {
    pairs == [] || (Apart(pairs[..|pairs| - 1]) && Lonely(pairs[..|pairs| - 1], pairs[|pairs| - 1]))
  }

  lemma {:induction false} SharedRemove(reference: seq<Turn>, hypothesis: seq<Turn>, mapping: map<string, string>,
                                        p: string)
    requires p in mapping
    ensures Shared(reference, hypothesis, mapping) == Shared(reference, hypothesis, mapping - {p})
        + Overlap(reference, hypothesis, p, mapping[p])
  {
    if hypothesis != [] { SharedRemove(reference, hypothesis[..|hypothesis| - 1], mapping, p); }
  }

  lemma {:induction false} SharedEmpty(reference: seq<Turn>, hypothesis: seq<Turn>)
    ensures Shared(reference, hypothesis, map[]) == 0
  {
    if hypothesis != [] { SharedEmpty(reference, hypothesis[..|hypothesis| - 1]); }
  }

  ghost predicate ListsPairs(pairs: seq<Pair>, reference: seq<Turn>, hypothesis: seq<Turn>,
                             mapping: map<string, string>) {
    forall q :: q in pairs <==> Chosen(mapping, q) && q.width == Overlap(reference, hypothesis, q.predicted, q.expected)
  }

  /** A one-to-one mapping as a list of pairs that do not compete. */
  lemma {:induction false} PairsOf(reference: seq<Turn>, hypothesis: seq<Turn>, mapping: map<string, string>)
    returns (pairs: seq<Pair>)
    requires OneToOne(mapping)
    ensures Apart(pairs) && ListsPairs(pairs, reference, hypothesis, mapping)
    ensures TotalWidth(pairs) == Shared(reference, hypothesis, mapping)
    decreases |mapping|
  {
    if mapping == map[] {
      SharedEmpty(reference, hypothesis);
      return [];
    }
    var p :| p in mapping;
    var rest := mapping - {p};
    var others := PairsOf(reference, hypothesis, rest);
    SharedRemove(reference, hypothesis, mapping, p);
    var pair := Pair(p, mapping[p], Overlap(reference, hypothesis, p, mapping[p]));
    pairs := others + [pair];
    forall q | q in others ensures !Compete(q, pair) { assert Chosen(rest, q); }
    assert pairs[..|pairs| - 1] == others;
    forall q: Pair ensures Chosen(mapping, q) <==> Chosen(rest, q) || q.Is(p, mapping[p]) {}
  }

  predicate Covers(c: Pair, o: Pair) { Compete(c, o) && c.width >= o.width }

  /** The pairs that one pair does not cover. */
  function Uncovered(pairs: seq<Pair>, c: Pair): seq<Pair> {
    if pairs == [] then []
    else
      var last := pairs[|pairs| - 1];
      Uncovered(pairs[..|pairs| - 1], c) + if Covers(c, last) then [] else [last]
  }

  lemma ApartMore(pairs: seq<Pair>, p: Pair)
    requires Apart(pairs) && Lonely(pairs, p)
    ensures Apart(pairs + [p])
  {
    assert (pairs + [p])[..|pairs|] == pairs;
  }

  lemma LastOrBefore(pairs: seq<Pair>, q: Pair)
    requires pairs != []
    ensures q in pairs <==> q in pairs[..|pairs| - 1] || q == pairs[|pairs| - 1]
  {
    assert pairs == pairs[..|pairs| - 1] + [pairs[|pairs| - 1]];
  }

  lemma {:induction false} UncoveredKeeps(pairs: seq<Pair>, c: Pair)
    requires Apart(pairs)
    ensures Apart(Uncovered(pairs, c))
    ensures forall q :: q in Uncovered(pairs, c) <==> q in pairs && !Covers(c, q)
  {
    if pairs != [] {
      var front, last := pairs[..|pairs| - 1], pairs[|pairs| - 1];
      UncoveredKeeps(front, c);
      var rest := Uncovered(front, c);
      if Covers(c, last) {
        assert Uncovered(pairs, c) == rest;
      } else {
        assert Uncovered(pairs, c) == rest + [last];
        assert Lonely(rest, last);
        ApartMore(rest, last);
      }
      forall q ensures q in Uncovered(pairs, c) <==> q in pairs && !Covers(c, q) { LastOrBefore(pairs, q); }
    }
  }

  ghost predicate Predicts(pairs: seq<Pair>, c: Pair) { exists q :: q in pairs && q.predicted == c.predicted }

  ghost predicate Expects(pairs: seq<Pair>, c: Pair) { exists q :: q in pairs && q.expected == c.expected }

  /** Among pairs that do not compete, one pair covers at most one through each of its labels. */
  lemma {:induction false} CoveredTwice(pairs: seq<Pair>, c: Pair)
    requires Apart(pairs) && c.width >= 0
    ensures TotalWidth(pairs) <= TotalWidth(Uncovered(pairs, c))
                                 + (if Predicts(pairs, c) then c.width else 0)
                                 + (if Expects(pairs, c) then c.width else 0)
  {
    if pairs != [] {
      var front, last := pairs[..|pairs| - 1], pairs[|pairs| - 1];
      CoveredTwice(front, c);
      assert pairs == front + [last];
      if Covers(c, last) {
        if last.predicted == c.predicted { assert !Predicts(front, c) && Predicts(pairs, c); }
        if last.expected == c.expected { assert !Expects(front, c) && Expects(pairs, c); }
        assert Uncovered(pairs, c) == Uncovered(front, c);
      } else {
        assert Uncovered(pairs, c)[..|Uncovered(front, c)|] == Uncovered(front, c);
      }
      assert Predicts(front, c) ==> Predicts(pairs, c);
      assert Expects(front, c) ==> Expects(pairs, c);
    }
  }

  /** If each pair that shares something is covered by a chosen one, the chosen ones share at least half as much. */
  lemma {:induction false} CoveringHalf(chosen: seq<Pair>, pairs: seq<Pair>)
    requires Apart(pairs) && forall c :: c in chosen ==> c.width >= 0
    requires forall o :: o in pairs && o.width > 0 ==> exists c :: c in chosen && Covers(c, o)
    ensures TotalWidth(pairs) <= 2 * TotalWidth(chosen)
  {
    if chosen == [] {
      NothingShared(pairs);
    } else {
      var front, last := chosen[..|chosen| - 1], chosen[|chosen| - 1];
      assert chosen == front + [last];
      UncoveredKeeps(pairs, last);
      CoveringHalf(front, Uncovered(pairs, last));
      CoveredTwice(pairs, last);
    }
  }

  lemma {:induction false} NothingShared(pairs: seq<Pair>)
    requires forall o :: o in pairs ==> o.width <= 0
    ensures TotalWidth(pairs) <= 0
  {
    if pairs != [] { NothingShared(pairs[..|pairs| - 1]); }
  }

  /** No one-to-one mapping of the speakers shares more than twice what the greedy one does. */
  lemma AtLeastHalf(reference: seq<Turn>, hypothesis: seq<Turn>, other: map<string, string>)
    requires OneToOne(other)
    ensures Shared(reference, hypothesis, other) <= 2 * Shared(reference, hypothesis, Mapping(reference, hypothesis))
  {
    var m := Mapping(reference, hypothesis);
    MappingLabels(reference, hypothesis);
    var chosen := PairsOf(reference, hypothesis, m);
    var pairs := PairsOf(reference, hypothesis, other);
    forall o | o in pairs && o.width > 0 ensures exists c :: c in chosen && Covers(c, o) {
      OverlapPositiveIff(reference, hypothesis, o.predicted, o.expected);
      var t :| o.predicted in Active(hypothesis, t) && o.expected in Active(reference, t);
      ActiveLabels(hypothesis, t);
      ActiveLabels(reference, t);
      var q := MappingIsStable(reference, hypothesis, o.predicted, o.expected);
      var c := Pair(q, m[q], Overlap(reference, hypothesis, q, m[q]));
      assert c in chosen && Covers(c, o);
    }
    CoveringHalf(chosen, pairs);
  }

  // ----- The reference under other names -----

  /** The same voices at every sample under new names, no two alike. */
  ghost predicate Relabelled(reference: seq<Turn>, hypothesis: seq<Turn>, names: map<string, string>) {
    && names.Keys == Labels(reference) && names.Values == Labels(hypothesis) && OneToOne(names)
    && forall a, t :: a in names ==> Voices(hypothesis, names[a], t) == Voices(reference, a, t)
  }

  /** What two reference speakers share. */
  function Dot(reference: seq<Turn>, a: string, b: string): nat { Overlap(reference, reference, a, b) }

  /** Two speakers with the same turns at every sample. */
  ghost predicate Twins(reference: seq<Turn>, a: string, b: string) {
    forall t :: Voices(reference, a, t) == Voices(reference, b, t)
  }

  function Gap(reference: seq<Turn>, a: string, b: string): int -> int {
    t => (Voices(reference, a, t) - Voices(reference, b, t)) * (Voices(reference, a, t) - Voices(reference, b, t))
  }

  lemma Square(v: int, w: int)
    ensures (v - w) * (v - w) == v * v + w * w - 2 * (v * w)
    ensures (v - w) * (v - w) >= 0 && ((v - w) * (v - w) == 0 <==> v == w)
  {
    var d := v - w;
    SquarePositive(d);
    assert d * d == v * d - w * d;
    assert v * d == v * v - v * w && w * d == v * w - w * w;
  }

  lemma SquarePositive(d: int)
    ensures d * d >= 0 && (d * d == 0 <==> d == 0)
  {
    if d > 0 { assert d * d >= d; } else if d < 0 { assert d * d == (-d) * (-d) && (-d) * (-d) >= -d; }
  }

  lemma {:induction false} GapSum(reference: seq<Turn>, a: string, b: string, from: int, until: int)
    ensures Sum(Gap(reference, a, b), from, until)
      == Sum(Together(reference, reference, a, a), from, until) + Sum(Together(reference, reference, b, b), from, until)
         - 2 * Sum(Together(reference, reference, a, b), from, until)
    decreases until - from
  {
    if from < until {
      GapSum(reference, a, b, from, until - 1);
      Square(Voices(reference, a, until - 1), Voices(reference, b, until - 1));
    }
  }

  /** Two speakers share at most the mean of what each shares with itself, and exactly that only when they are twins. */
  lemma SharesAtMostMean(reference: seq<Turn>, a: string, b: string)
    ensures 2 * Dot(reference, a, b) <= Dot(reference, a, a) + Dot(reference, b, b)
    ensures 2 * Dot(reference, a, b) == Dot(reference, a, a) + Dot(reference, b, b) ==> Twins(reference, a, b)
  {
    var from, to := Around(reference);
    OverlapIsSum(reference, reference, a, a, from, to);
    OverlapIsSum(reference, reference, b, b, from, to);
    OverlapIsSum(reference, reference, a, b, from, to);
    GapSum(reference, a, b, from, to);
    var gap := Gap(reference, a, b);
    forall t ensures gap(t) >= 0 && (gap(t) == 0 <==> Voices(reference, a, t) == Voices(reference, b, t)) {
      Square(Voices(reference, a, t), Voices(reference, b, t));
    }
    SumZeroIff(gap, from, to);
    if Sum(gap, from, to) == 0 {
      forall t ensures Voices(reference, a, t) == Voices(reference, b, t) {
        if from <= t < to {
          assert gap(t) == 0;
        } else {
          SilentOutside(reference, a, from, to, t);
          SilentOutside(reference, b, from, to, t);
        }
      }
    }
  }

  lemma SilentOutside(turns: seq<Turn>, speaker: string, from: int, to: int, t: int)
    requires Inside(turns, from, to) && !(from <= t < to)
    ensures Voices(turns, speaker, t) == 0
  {
    VoicesActive(turns, speaker, t);
  }

  lemma TwinsShare(reference: seq<Turn>, a: string, b: string)
    requires Twins(reference, a, b)
    ensures Dot(reference, a, b) == Dot(reference, a, a) == Dot(reference, b, b)
  {
    SameOverlap(reference, reference, reference, a, a, a, b);
    SameOverlap(reference, reference, reference, a, a, b, b);
  }

  /** The overlap depends only on the voices. */
  lemma SameOverlap(reference: seq<Turn>, left: seq<Turn>, right: seq<Turn>, p: string, e: string, q: string, f: string)
    requires forall t :: Voices(left, p, t) == Voices(right, q, t)
    requires forall t :: Voices(reference, e, t) == Voices(reference, f, t)
    ensures Overlap(reference, left, p, e) == Overlap(reference, right, q, f)
  {
    var a, b := AroundBoth(reference, left);
    var c, d := AroundBoth(reference, right);
    var from, to := Min(a, c), Max(b, d);
    OverlapIsSum(reference, left, p, e, from, to);
    OverlapIsSum(reference, right, q, f, from, to);
    SumSame(Together(reference, left, p, e), Together(reference, right, q, f), from, to);
  }

  /** The mapping seen on the reference's own labels. */
  ghost predicate Fits(reference: seq<Turn>, m: map<string, string>) {
    && OneToOne(m) && m.Keys <= Labels(reference) && m.Values <= Labels(reference)
    && forall a, b :: a in Labels(reference) && b in Labels(reference) ==> SettledFor(reference, m, a, b)
  }

  ghost predicate SettledFor(reference: seq<Turn>, m: map<string, string>, a: string, b: string) {
    exists c :: c in m && (c == a || m[c] == b) && Dot(reference, c, m[c]) >= Dot(reference, a, b)
  }

  ghost predicate Meets(reference: seq<Turn>, m: map<string, string>, a: string) { a in m && Twins(reference, a, m[a]) }

  /** Speakers that share more with themselves already meet their twins. */
  ghost predicate LongerMeet(reference: seq<Turn>, m: map<string, string>, than: int) {
    forall c :: c in Labels(reference) && Dot(reference, c, c) > than ==> Meets(reference, m, c)
  }

  ghost function TwinsOf(reference: seq<Turn>, a: string): set<string> {
    set b | b in Labels(reference) && Twins(reference, a, b)
  }

  /** Twins who all meet twins use up all of them. */
  lemma TwinsUsedUp(reference: seq<Turn>, m: map<string, string>, d: string) returns (c: string)
    requires Fits(reference, m) && d in Labels(reference) && forall c :: c in TwinsOf(reference, d) ==>
        Meets(reference, m, c)
    ensures c in m && m[c] == d && Twins(reference, d, c)
  {
    var twins := TwinsOf(reference, d);
    ImageSize(m, twins);
    forall e | e in Renamed(m, twins) ensures e in twins {
      var c :| c in twins && Rename(m, c) == e;
      assert Meets(reference, m, c) && m[c] in m.Values;
    }
    Intervals.SubsetSize(Renamed(m, twins), twins);
    assert d in Renamed(m, twins);
    c :| c in twins && Rename(m, c) == d;
  }

  /** A speaker who met no twin was kept from each of them by one who did. */
  lemma KeptFrom(reference: seq<Turn>, m: map<string, string>, a: string, b: string) returns (c: string)
    requires Fits(reference, m) && LongerMeet(reference, m, Dot(reference, a, a)) && !Meets(reference, m, a)
    requires a in Labels(reference) && b in Labels(reference) && Twins(reference, a, b)
    ensures c in m && c != a && m[c] == b && Twins(reference, a, c)
  {
    assert SettledFor(reference, m, a, b);
    c :| c in m && (c == a || m[c] == b) && Dot(reference, c, m[c]) >= Dot(reference, a, b);
    TwinsShare(reference, a, b);
    var d := m[c];
    assert d in m.Values;
    SharesAtMostMean(reference, c, d);
    if c == a {
      NoLongerTwin(reference, m, a);
      assert false;
    } else if Dot(reference, c, c) > Dot(reference, a, a) {
      assert Meets(reference, m, c);
      TwinsShare(reference, c, b);
      assert false;
    }
  }

  /** A speaker is not given to one who shares more with itself. */
  lemma NoLongerTwin(reference: seq<Turn>, m: map<string, string>, a: string)
    requires Fits(reference, m) && LongerMeet(reference, m, Dot(reference, a, a)) && a in m
    ensures Dot(reference, m[a], m[a]) <= Dot(reference, a, a)
  {
    var d := m[a];
    assert d in m.Values;
    if Dot(reference, d, d) > Dot(reference, a, a) {
      forall c | c in TwinsOf(reference, d) ensures Meets(reference, m, c) { TwinsShare(reference, d, c); }
      var c := TwinsUsedUp(reference, m, d);
      assert c == a;
      TwinsShare(reference, d, a);
      assert false;
    }
  }

  /** Were a speaker to meet no twin, all its twins would go to one speaker fewer than they are. */
  lemma MeetsNext(reference: seq<Turn>, m: map<string, string>, a: string)
    requires Fits(reference, m) && LongerMeet(reference, m, Dot(reference, a, a)) && a in Labels(reference)
    ensures Meets(reference, m, a)
  {
    if !Meets(reference, m, a) {
      var twins := TwinsOf(reference, a);
      var others := (twins - {a}) * m.Keys;
      forall b | b in twins ensures b in Renamed(m, others) {
        var c := KeptFrom(reference, m, a, b);
        assert c in others && Rename(m, c) == b;
      }
      FewerNames(m, others, twins, a);
    }
  }

  lemma FewerNames(m: map<string, string>, others: set<string>, twins: set<string>, a: string)
    requires others <= twins - {a} && a in twins
    ensures !(twins <= Renamed(m, others))
  {
    RenamedSize(m, others);
    Intervals.SubsetSize(others, twins - {a});
    if twins <= Renamed(m, others) { Intervals.SubsetSize(twins, Renamed(m, others)); }
  }

  /** Every speaker is taken for a twin. */
  lemma {:induction false} EachMeetsTwin(reference: seq<Turn>, m: map<string, string>, a: string, bound: int)
    requires Fits(reference, m) && a in Labels(reference)
    requires forall c :: c in Labels(reference) ==> Dot(reference, c, c) <= bound
    ensures Meets(reference, m, a)
    decreases bound - Dot(reference, a, a)
  {
    forall c | c in Labels(reference) && Dot(reference, c, c) > Dot(reference, a, a) ensures Meets(reference, m, c) {
      EachMeetsTwin(reference, m, c, bound);
    }
    MeetsNext(reference, m, a);
  }

  lemma {:induction false} SelfBound(reference: seq<Turn>, labels: set<string>) returns (bound: int)
    ensures forall c :: c in labels ==> Dot(reference, c, c) <= bound
    decreases |labels|
  {
    if labels == {} { return 0; }
    var s :| s in labels;
    bound := SelfBound(reference, labels - {s});
    bound := Max(bound, Dot(reference, s, s));
  }

  /** The mapping behind the new names. */
  ghost function Unnamed(names: map<string, string>, mapping: map<string, string>): map<string, string> {
    map a | a in names && names[a] in mapping :: mapping[names[a]]
  }

  lemma UnnamedFits(reference: seq<Turn>, hypothesis: seq<Turn>, names: map<string, string>)
    requires Relabelled(reference, hypothesis, names)
    ensures Fits(reference, Unnamed(names, Mapping(reference, hypothesis)))
  {
    var mapping := Mapping(reference, hypothesis);
    var m := Unnamed(names, mapping);
    MappingLabels(reference, hypothesis);
    forall v | v in m.Values ensures v in Labels(reference) {
      var a :| a in m && m[a] == v;
      assert v in mapping.Values;
    }
    forall a, b | a in Labels(reference) && b in Labels(reference) ensures SettledFor(reference, m, a, b) {
      assert names[a] in names.Values;
      var q := MappingIsStable(reference, hypothesis, names[a], b);
      assert q in names.Values;
      var c :| c in names && names[c] == q;
      SameOverlap(reference, hypothesis, reference, names[a], b, a, b);
      SameOverlap(reference, hypothesis, reference, names[c], m[c], c, m[c]);
      assert c in m && (c == a || m[c] == b);
    }
  }

  /** A hypothesis that is the reference under other names has no error, whatever overlaps in it, and hides nobody. */
  lemma PerfectScoresZero(reference: seq<Turn>, hypothesis: seq<Turn>, names: map<string, string>)
    requires Relabelled(reference, hypothesis, names)
    ensures Agree(reference, hypothesis, Mapping(reference, hypothesis)) && NobodyHidden(reference, hypothesis)
  {
    var mapping := Mapping(reference, hypothesis);
    var m := Unnamed(names, mapping);
    UnnamedFits(reference, hypothesis, names);
    var bound := SelfBound(reference, Labels(reference));
    forall a | a in Labels(reference) ensures Meets(reference, m, a) { EachMeetsTwin(reference, m, a, bound); }
    forall t ensures AgreeAt(reference, hypothesis, mapping, t) { PerfectAt(reference, hypothesis, names, t); }
    ImageSize(names, names.Keys);
    assert Renamed(names, names.Keys) == names.Values;
    ApartWhen(reference, hypothesis);
  }

  lemma PerfectAt(reference: seq<Turn>, hypothesis: seq<Turn>, names: map<string, string>, t: int)
    requires Relabelled(reference, hypothesis, names) && Fits(reference, Unnamed(names, Mapping(reference, hypothesis)))
    requires forall a :: a in Labels(reference) ==> Meets(reference, Unnamed(names, Mapping(reference, hypothesis)), a)
    ensures AgreeAt(reference, hypothesis, Mapping(reference, hypothesis), t)
  {
    var mapping := Mapping(reference, hypothesis);
    var m := Unnamed(names, mapping);
    ActiveLabels(reference, t);
    ActiveLabels(hypothesis, t);
    forall e | e in Active(reference, t) ensures e in Renamed(mapping, Active(hypothesis, t)) {
      var c := TwinsUsedUp(reference, m, e);
      VoicesActive(reference, e, t);
      VoicesActive(hypothesis, names[c], t);
      assert Rename(mapping, names[c]) == e;
    }
    forall h | h in Active(hypothesis, t) ensures Rename(mapping, h) in Active(reference, t) {
      assert h in names.Values;
      var a :| a in names && names[a] == h;
      assert Meets(reference, m, a);
      VoicesActive(hypothesis, h, t);
      VoicesActive(reference, m[a], t);
    }
  }
}
