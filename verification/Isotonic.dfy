/** Pool-adjacent-violators calibration: the isotonic branch of the calibration module.
    Scores and labels are reals; floating-point rounding is not modelled. */
module Isotonic {

  datatype Sample = Sample(score: real, outcome: real)

  /** One pooled block: its lowest and highest score, its label sum and its number of samples. */
  datatype Block = Block(low: real, high: real, sum: real, count: real)

  predicate Sorted(xs: seq<Sample>) {
    forall i, j :: 0 <= i < j < |xs| ==> xs[i].score <= xs[j].score
  }

  ghost predicate NonDecreasing(g: real -> real) {
    forall a, b :: a <= b ==> g(a) <= g(b)
  }

  // ----- Sums over samples -----

  /** The sum of h over xs[lo..hi]. */
  function Total(xs: seq<Sample>, h: Sample -> real, lo: nat, hi: nat): real
    requires lo <= hi <= |xs|
  {
    if lo == hi then 0.0 else Total(xs, h, lo, hi - 1) + h(xs[hi - 1])
  }

  function Label(): Sample -> real { (s: Sample) => s.outcome }

  function Output(f: real -> real): Sample -> real { (s: Sample) => f(s.score) }

  function SquaredError(f: real -> real): Sample -> real {
    (s: Sample) => (s.outcome - f(s.score)) * (s.outcome - f(s.score))
  }

  /** The squared distance between two fits at a sample's score. */
  function SquaredGap(f: real -> real, g: real -> real): Sample -> real {
    (s: Sample) => (f(s.score) - g(s.score)) * (f(s.score) - g(s.score))
  }

  function All(xs: seq<Sample>, h: Sample -> real): real { Total(xs, h, 0, |xs|) }

  lemma {:induction false} TotalSplit(xs: seq<Sample>, h: Sample -> real, lo: nat, mid: nat, hi: nat)
    requires lo <= mid <= hi <= |xs|
    ensures Total(xs, h, lo, hi) == Total(xs, h, lo, mid) + Total(xs, h, mid, hi)
  {
    if mid < hi {
      TotalSplit(xs, h, lo, mid, hi - 1);
    }
  }

  lemma {:induction false} TotalPrefix(xs: seq<Sample>, ys: seq<Sample>, h: Sample -> real, hi: nat)
    requires hi <= |xs| && hi <= |ys| && xs[..hi] == ys[..hi]
    ensures Total(xs, h, 0, hi) == Total(ys, h, 0, hi)
  {
    if hi > 0 {
      assert xs[hi - 1] == xs[..hi][hi - 1] == ys[..hi][hi - 1];
      assert xs[..hi - 1] == xs[..hi][..hi - 1] == ys[..hi - 1];
      TotalPrefix(xs, ys, h, hi - 1);
    }
  }

  // ----- Stable sorting by score -----

  function Insert(xs: seq<Sample>, x: Sample): (r: seq<Sample>)
    ensures |r| == |xs| + 1
  {
    if xs == [] || xs[|xs| - 1].score <= x.score then xs + [x]
    else Insert(xs[..|xs| - 1], x) + [xs[|xs| - 1]]
  }

  function SortByScore(xs: seq<Sample>): (r: seq<Sample>)
    ensures |r| == |xs|
  {
    if xs == [] then [] else Insert(SortByScore(xs[..|xs| - 1]), xs[|xs| - 1])
  }

  lemma {:induction false} InsertSorted(xs: seq<Sample>, x: Sample)
    requires Sorted(xs)
    ensures Sorted(Insert(xs, x))
    ensures multiset(Insert(xs, x)) == multiset(xs) + multiset{x}
  {
    if xs == [] || xs[|xs| - 1].score <= x.score {
    } else {
      var front, last := xs[..|xs| - 1], xs[|xs| - 1];
      InsertSorted(front, x);
      assert xs == front + [last];
      var r := Insert(front, x);
      forall i | 0 <= i < |r| ensures r[i].score <= last.score {
        assert r[i] in multiset(front) + multiset{x};
        if r[i] != x { assert r[i] in front; }
      }
    }
  }

  lemma {:induction false} SortByScoreSorted(xs: seq<Sample>)
    ensures Sorted(SortByScore(xs))
    ensures multiset(SortByScore(xs)) == multiset(xs)
  {
    if xs != [] {
      SortByScoreSorted(xs[..|xs| - 1]);
      InsertSorted(SortByScore(xs[..|xs| - 1]), xs[|xs| - 1]);
      assert xs == xs[..|xs| - 1] + [xs[|xs| - 1]];
    }
  }

  lemma {:induction false} TotalInsert(xs: seq<Sample>, x: Sample, h: Sample -> real)
    ensures All(Insert(xs, x), h) == All(xs, h) + h(x)
  {
    var r := Insert(xs, x);
    if xs == [] || xs[|xs| - 1].score <= x.score {
      TotalPrefix(r, xs, h, |xs|);
    } else {
      var front := xs[..|xs| - 1];
      TotalInsert(front, x, h);
      TotalPrefix(r, Insert(front, x), h, |xs|);
      TotalPrefix(xs, front, h, |front|);
    }
  }

  /** Sorting does not change any sum over the samples. */
  lemma {:induction false} TotalSort(xs: seq<Sample>, h: Sample -> real)
    ensures All(SortByScore(xs), h) == All(xs, h)
  {
    if xs != [] {
      var front := xs[..|xs| - 1];
      TotalSort(front, h);
      TotalInsert(SortByScore(front), xs[|xs| - 1], h);
      TotalPrefix(xs, front, h, |front|);
    }
  }

  // ----- Prediction -----

  /** The value of the first threshold at or above the score, and the last value beyond them all. */
  function PredictFrom(thresholds: seq<real>, values: seq<real>, score: real, i: nat): real
    requires |thresholds| == |values| > 0 && i <= |values|
    decreases |values| - i
  {
    if i == |values| then values[|values| - 1]
    else if score <= thresholds[i] then values[i]
    else PredictFrom(thresholds, values, score, i + 1)
  }

  function Predictor(thresholds: seq<real>, values: seq<real>): real -> real
    requires |thresholds| == |values| > 0
  {
    score => PredictFrom(thresholds, values, score, 0)
  }

  predicate Increasing(xs: seq<real>) {
    forall i, j :: 0 <= i < j < |xs| ==> xs[i] < xs[j]
  }

  predicate Rising(xs: seq<real>) {
    forall i, j :: 0 <= i < j < |xs| ==> xs[i] <= xs[j]
  }

  lemma {:induction false} PredictHits(thresholds: seq<real>, values: seq<real>, score: real, i: nat, k: nat)
    requires |thresholds| == |values| && i <= k < |values|
    requires score <= thresholds[k]
    requires forall j :: i <= j < k ==> thresholds[j] < score
    ensures PredictFrom(thresholds, values, score, i) == values[k]
    decreases k - i
  {
    if i < k {
      PredictHits(thresholds, values, score, i + 1, k);
    }
  }

  lemma {:induction false} PredictMonotone(thresholds: seq<real>, values: seq<real>, a: real, b: real, i: nat)
    requires |thresholds| == |values| > 0 && i <= |values|
    requires Rising(values) && a <= b
    ensures PredictFrom(thresholds, values, a, i) <= PredictFrom(thresholds, values, b, i)
    ensures forall j :: 0 <= j < |values| && j <= i ==> values[j] <= PredictFrom(thresholds, values, b, i)
    decreases |values| - i
  {
    if i < |values| {
      PredictMonotone(thresholds, values, a, b, i + 1);
    }
  }

  method PredictIsotonic(thresholds: seq<real>, values: seq<real>, scores: seq<real>) returns (result: seq<real>)
    requires |thresholds| == |values| > 0
    ensures |result| == |scores|
    ensures forall i :: 0 <= i < |scores| ==> result[i] == Predictor(thresholds, values)(scores[i])
  {
    result := [];
    for n := 0 to |scores|
      invariant |result| == n
      invariant forall i :: 0 <= i < n ==> result[i] == Predictor(thresholds, values)(scores[i])
    {
      var value := values[|values| - 1];
      var i := 0;
      while i < |values|
        invariant 0 <= i <= |values|
        invariant value == values[|values| - 1]
        invariant PredictFrom(thresholds, values, scores[n], 0) == PredictFrom(thresholds, values, scores[n], i)
      {
        if scores[n] <= thresholds[i] {
          value := values[i];
          break;
        }
        i := i + 1;
      }
      result := result + [value];
    }
  }

  // ----- Blocks -----

  /** A run of equal scores ends just before position p. */
  predicate RunEnd(xs: seq<Sample>, p: nat) {
    p <= |xs| && (p == 0 || p == |xs| || xs[p - 1].score < xs[p].score)
  }

  /** The block pools xs[a..b], ends with a run of scores, and has no prefix of whole runs whose mean
      is below the block's own mean. */
  ghost predicate Pooled(xs: seq<Sample>, a: nat, b: nat, block: Block) {
    && a < b <= |xs|
    && RunEnd(xs, b)
    && block.low == xs[a].score
    && block.high == xs[b - 1].score
    && block.sum == Total(xs, Label(), a, b)
    && block.count == (b - a) as real
    && forall p :: a < p <= b && RunEnd(xs, p) ==> PrefixAbove(xs, a, p, block)
  }

  ghost predicate PrefixAbove(xs: seq<Sample>, a: nat, p: nat, block: Block)
    requires a <= p <= |xs|
  {
    Total(xs, Label(), a, p) * block.count >= block.sum * (p - a) as real
  }

  /** The blocks pool xs[..cuts.last] one after another, block k pooling xs[cuts[k]..cuts[k + 1]]. */
  ghost predicate Pooling(xs: seq<Sample>, blocks: seq<Block>, cuts: seq<nat>) {
    && |cuts| == |blocks| + 1
    && cuts[0] == 0
    && forall k :: 0 <= k < |blocks| ==> Pooled(xs, cuts[k], cuts[k + 1], blocks[k])
  }

  function Mean(block: Block): real
    requires block.count > 0.0
  {
    block.sum / block.count
  }

  /** Comparing two means is comparing cross products. */
  lemma MeanOrder(left: Block, right: Block)
    requires left.count > 0.0 && right.count > 0.0
    ensures Mean(left) > Mean(right) <==> left.sum * right.count > right.sum * left.count
  {
    var a, b := Mean(left), Mean(right);
    var c := left.count * right.count;
    assert left.sum * right.count == a * c;
    assert right.sum * left.count == b * c;
    assert c > 0.0;
    if a > b {
      assert (a - b) * c > 0.0;
    } else {
      assert (b - a) * c >= 0.0;
    }
  }

  function Merged(left: Block, right: Block): Block {
    Block(left.low, right.high, left.sum + right.sum, left.count + right.count)
  }

  lemma Cancel(x: real, c: real)
    requires c > 0.0 && x * c >= 0.0
    ensures x >= 0.0
  {
  }

  lemma LeftPrefix(prefix: real, w: real, sL: real, cL: real, sR: real, cR: real)
    requires cL > 0.0 && cR > 0.0 && w >= 0.0
    requires sL * cR > sR * cL && prefix * cL >= sL * w
    ensures prefix * (cL + cR) >= (sL + sR) * w
  {
    var c, s := cL + cR, sL + sR;
    assert s * cL <= sL * c by {
      assert s * cL == sL * cL + sR * cL;
      assert sL * c == sL * cL + sL * cR;
    }
    assert (prefix * cL) * c >= (sL * w) * c;
    assert (sL * c) * w >= (s * cL) * w;
    assert (prefix * c) * cL >= (s * w) * cL;
    Cancel(prefix * c - s * w, cL);
  }

  lemma RightPrefix(prefix: real, u: real, sL: real, cL: real, sR: real, cR: real)
    requires cL > 0.0 && cR > 0.0 && 0.0 <= u <= cR
    requires sL * cR > sR * cL && prefix * cR >= sR * u
    ensures (sL + prefix) * (cL + cR) >= (sL + sR) * (cL + u)
  {
    var c := cL + cR;
    assert (cR - u) * (sL * cR - sR * cL) >= 0.0;
    assert (prefix * cR - sR * u) * c >= 0.0;
    var gap := (sL + prefix) * c - (sL + sR) * (cL + u);
    assert gap * cR == (cR - u) * (sL * cR - sR * cL) + (prefix * cR - sR * u) * c;
    Cancel(gap, cR);
  }

  /** Pooling two adjacent violating blocks keeps every whole-run prefix above the pooled mean. */
  lemma MergePooled(xs: seq<Sample>, a: nat, m: nat, b: nat, left: Block, right: Block)
    requires Pooled(xs, a, m, left) && Pooled(xs, m, b, right)
    requires Mean(left) > Mean(right)
    ensures Pooled(xs, a, b, Merged(left, right))
  {
    MeanOrder(left, right);
    TotalSplit(xs, Label(), a, m, b);
    forall p | a < p <= b && RunEnd(xs, p) ensures PrefixAbove(xs, a, p, Merged(left, right)) {
      if p <= m {
        assert PrefixAbove(xs, a, p, left);
        LeftPrefix(Total(xs, Label(), a, p), (p - a) as real, left.sum, left.count, right.sum, right.count);
      } else {
        assert PrefixAbove(xs, m, p, right);
        TotalSplit(xs, Label(), a, m, p);
        RightPrefix(Total(xs, Label(), m, p), (p - m) as real, left.sum, left.count, right.sum, right.count);
        assert (p - a) as real == left.count + (p - m) as real;
      }
    }
  }

  lemma Push(xs: seq<Sample>, blocks: seq<Block>, cuts: seq<nat>, b: nat, block: Block)
    requires Pooling(xs, blocks, cuts) && Pooled(xs, cuts[|blocks|], b, block)
    ensures Pooling(xs, blocks + [block], cuts + [b])
  {
  }

  lemma MergeTop(xs: seq<Sample>, blocks: seq<Block>, cuts: seq<nat>, n: nat)
    requires Pooling(xs, blocks, cuts) && n == |blocks| >= 2 && Counted(blocks)
    requires Mean(blocks[n - 2]) > Mean(blocks[n - 1])
    ensures Pooling(xs, blocks[..n - 2] + [Merged(blocks[n - 2], blocks[n - 1])], cuts[..n - 1] + [cuts[n]])
  {
    assert Pooled(xs, cuts[n - 2], cuts[n - 1], blocks[n - 2]) && Pooled(xs, cuts[n - 1], cuts[n], blocks[n - 1]);
    MergePooled(xs, cuts[n - 2], cuts[n - 1], cuts[n], blocks[n - 2], blocks[n - 1]);
    var blocks', cuts' := blocks[..n - 2] + [Merged(blocks[n - 2], blocks[n - 1])], cuts[..n - 1] + [cuts[n]];
    forall k | 0 <= k < n - 1 ensures Pooled(xs, cuts'[k], cuts'[k + 1], blocks'[k]) {
      if k < n - 2 {
        assert Pooled(xs, cuts[k], cuts[k + 1], blocks[k]);
      }
    }
  }

  predicate Counted(blocks: seq<Block>) {
    forall k :: 0 <= k < |blocks| ==> blocks[k].count > 0.0
  }

  /** The means of the first n blocks do not fall. */
  predicate MeansOrdered(blocks: seq<Block>, n: int)
    requires Counted(blocks) && n <= |blocks|
  {
    forall k :: 0 <= k < n - 1 ==> Mean(blocks[k]) <= Mean(blocks[k + 1])
  }

  // ----- Optimality -----

  /** The deviation of a label from v, weighted by how far g lies above v at the sample. */
  function Cross(v: real, g: real -> real): Sample -> real {
    (s: Sample) => (s.outcome - v) * (g(s.score) - v)
  }

  function Deviation(v: real): Sample -> real {
    (s: Sample) => s.outcome - v
  }

  lemma {:induction false} DeviationSum(xs: seq<Sample>, v: real, a: nat, p: nat)
    requires a <= p <= |xs|
    ensures Total(xs, Deviation(v), a, p) == Total(xs, Label(), a, p) - v * (p - a) as real
  {
    if a < p {
      DeviationSum(xs, v, a, p - 1);
      var w := (p - 1 - a) as real;
      assert (p - a) as real == w + 1.0;
      assert v * (w + 1.0) == v * w + v;
    }
  }

  /** Whole-run prefixes of a block deviate upwards from its mean. */
  lemma PrefixDeviates(xs: seq<Sample>, a: nat, block: Block, p: nat)
    requires a < p <= |xs| && block.count > 0.0 && PrefixAbove(xs, a, p, block)
    ensures Total(xs, Deviation(Mean(block)), a, p) >= 0.0
  {
    DeviationSum(xs, Mean(block), a, p);
  }

  /** One more sample, in plain numbers. */
  lemma CrossStep(crossed: real, d: real, e: real, before: real, here: real, total: real, deviation: real)
    requires crossed <= d * before && total == crossed + e * here && deviation == d + e
    requires before == here || (d >= 0.0 && before <= here)
    ensures total <= deviation * here
  {
    assert d * before <= d * here by {
      if before != here {
        assert d * (here - before) >= 0.0;
      }
    }
    assert deviation * here == d * here + e * here;
  }

  lemma CrossUnfolds(xs: seq<Sample>, v: real, g: real -> real, a: nat, p: nat, e: real, here: real)
    requires a < p <= |xs| && e == xs[p - 1].outcome - v && here == g(xs[p - 1].score) - v
    ensures Total(xs, Cross(v, g), a, p) == Total(xs, Cross(v, g), a, p - 1) + e * here
    ensures Total(xs, Deviation(v), a, p) == Total(xs, Deviation(v), a, p - 1) + e
  {
  }

  /** At sample p the weight stays, or it rises after a prefix that deviates upwards. */
  ghost predicate RisesAfter(xs: seq<Sample>, v: real, g: real -> real, a: nat, p: nat)
    requires a + 1 < p <= |xs|
  {
    || g(xs[p - 2].score) == g(xs[p - 1].score)
    || (Total(xs, Deviation(v), a, p - 1) >= 0.0 && g(xs[p - 2].score) <= g(xs[p - 1].score))
  }

  lemma {:induction false} SummedByParts(xs: seq<Sample>, v: real, g: real -> real, a: nat, p: nat)
    requires a < p <= |xs| && forall q :: a + 1 < q <= p ==> RisesAfter(xs, v, g, a, q)
    ensures Total(xs, Cross(v, g), a, p) <= Total(xs, Deviation(v), a, p) * (g(xs[p - 1].score) - v)
  {
    var crossed, d := Total(xs, Cross(v, g), a, p - 1), Total(xs, Deviation(v), a, p - 1);
    var e, here := xs[p - 1].outcome - v, g(xs[p - 1].score) - v;
    CrossUnfolds(xs, v, g, a, p, e, here);
    var before := if p == a + 1 then here else g(xs[p - 2].score) - v;
    if p > a + 1 {
      SummedByParts(xs, v, g, a, p - 1);
      assert RisesAfter(xs, v, g, a, p);
    }
    CrossStep(crossed, d, e, before, here, Total(xs, Cross(v, g), a, p), Total(xs, Deviation(v), a, p));
  }

  lemma BlockRises(xs: seq<Sample>, a: nat, block: Block, g: real -> real, p: nat)
    requires Sorted(xs) && NonDecreasing(g) && a + 1 < p <= |xs| && block.count > 0.0
    requires RunEnd(xs, p - 1) ==> PrefixAbove(xs, a, p - 1, block)
    ensures RisesAfter(xs, Mean(block), g, a, p)
  {
    if xs[p - 2].score < xs[p - 1].score {
      PrefixDeviates(xs, a, block, p - 1);
    }
  }

  lemma AllRise(xs: seq<Sample>, a: nat, b: nat, block: Block, g: real -> real)
    requires Sorted(xs) && Pooled(xs, a, b, block) && NonDecreasing(g)
    ensures forall p :: a + 1 < p <= b ==> RisesAfter(xs, Mean(block), g, a, p)
  {
    forall p | a + 1 < p <= b ensures RisesAfter(xs, Mean(block), g, a, p) { BlockRises(xs, a, block, g, p); }
  }

  /** Summation by parts: the weighted deviation of a prefix is at most its total deviation times the
      last weight, because every earlier whole-run prefix deviates upwards and the weights rise. */
  lemma CrossBound(xs: seq<Sample>, a: nat, b: nat, block: Block, g: real -> real, p: nat)
    requires Sorted(xs) && Pooled(xs, a, b, block) && NonDecreasing(g) && a < p <= b
    ensures Total(xs, Cross(Mean(block), g), a, p)
        <= Total(xs, Deviation(Mean(block)), a, p) * (g(xs[p - 1].score) - Mean(block))
  {
    AllRise(xs, a, b, block, g);
    SummedByParts(xs, Mean(block), g, a, p);
  }

  lemma NoDeviation(xs: seq<Sample>, a: nat, b: nat, block: Block)
    requires Pooled(xs, a, b, block)
    ensures Total(xs, Deviation(Mean(block)), a, b) == 0.0
  {
    DeviationSum(xs, Mean(block), a, b);
  }

  lemma CrossNotPositive(xs: seq<Sample>, a: nat, b: nat, block: Block, g: real -> real)
    requires Sorted(xs) && Pooled(xs, a, b, block) && NonDecreasing(g)
    ensures Total(xs, Cross(Mean(block), g), a, b) <= 0.0
  {
    CrossBound(xs, a, b, block, g, b);
    NoDeviation(xs, a, b, block);
  }

  /** Expanding the square around the block value. */
  lemma ExpandSquare(s: Sample, v: real, f: real -> real, g: real -> real)
    requires f(s.score) == v
    ensures SquaredError(g)(s) == SquaredError(f)(s) + SquaredGap(f, g)(s) - 2.0 * Cross(v, g)(s)
  {
    var y, w := s.outcome, g(s.score);
    assert (y - w) * (y - w) == (y - v) * (y - v) + (v - w) * (v - w) - 2.0 * ((y - v) * (w - v));
  }

  lemma {:induction false} ExpandSquares(xs: seq<Sample>, v: real, f: real -> real, g: real -> real, a: nat, b: nat)
    requires a <= b <= |xs|
    requires forall i :: a <= i < b ==> f(xs[i].score) == v
    ensures Total(xs, SquaredError(g), a, b)
         == Total(xs, SquaredError(f), a, b) + Total(xs, SquaredGap(f, g), a, b) - 2.0 * Total(xs, Cross(v, g), a, b)
  {
    if a < b {
      ExpandSquares(xs, v, f, g, a, b - 1);
      ExpandSquare(xs[b - 1], v, f, g);
    }
  }

  /** Inside one block the block mean beats every non-decreasing fit, by at least their distance. */
  lemma BlockOptimal(xs: seq<Sample>, a: nat, b: nat, block: Block, f: real -> real, g: real -> real)
    requires Sorted(xs) && Pooled(xs, a, b, block) && NonDecreasing(g)
    requires forall i :: a <= i < b ==> f(xs[i].score) == Mean(block)
    ensures Total(xs, SquaredError(g), a, b) >= Total(xs, SquaredError(f), a, b) + Total(xs, SquaredGap(f, g), a, b)
  {
    ExpandSquares(xs, Mean(block), f, g, a, b);
    CrossNotPositive(xs, a, b, block, g);
  }

  lemma {:induction false} PrefixOptimal(xs: seq<Sample>, blocks: seq<Block>, cuts: seq<nat>, f: real -> real,
                                         g: real -> real, k: nat)
    requires Sorted(xs) && Pooling(xs, blocks, cuts) && NonDecreasing(g) && k <= |blocks|
    requires PredictsMeans(xs, blocks, cuts, f)
    ensures cuts[k] <= |xs|
    ensures Total(xs, SquaredError(g), 0, cuts[k])
         >= Total(xs, SquaredError(f), 0, cuts[k]) + Total(xs, SquaredGap(f, g), 0, cuts[k])
  {
    if k > 0 {
      PrefixOptimal(xs, blocks, cuts, f, g, k - 1);
      assert Pooled(xs, cuts[k - 1], cuts[k], blocks[k - 1]);
      assert PredictsMean(xs, cuts[k - 1], cuts[k], blocks[k - 1], f);
      BlockOptimal(xs, cuts[k - 1], cuts[k], blocks[k - 1], f, g);
      TotalSplit(xs, SquaredError(g), 0, cuts[k - 1], cuts[k]);
      TotalSplit(xs, SquaredError(f), 0, cuts[k - 1], cuts[k]);
      TotalSplit(xs, SquaredGap(f, g), 0, cuts[k - 1], cuts[k]);
    }
  }

  lemma {:induction false} ConstantOutput(xs: seq<Sample>, f: real -> real, v: real, a: nat, b: nat)
    requires a <= b <= |xs| && forall i :: a <= i < b ==> f(xs[i].score) == v
    ensures Total(xs, Output(f), a, b) == v * (b - a) as real
  {
    if a < b {
      ConstantOutput(xs, f, v, a, b - 1);
      assert (b - a) as real == (b - 1 - a) as real + 1.0;
    }
  }

  lemma {:induction false} PrefixMass(xs: seq<Sample>, blocks: seq<Block>, cuts: seq<nat>, f: real -> real, k: nat)
    requires Pooling(xs, blocks, cuts) && k <= |blocks|
    requires PredictsMeans(xs, blocks, cuts, f)
    ensures cuts[k] <= |xs|
    ensures Total(xs, Output(f), 0, cuts[k]) == Total(xs, Label(), 0, cuts[k])
  {
    if k > 0 {
      PrefixMass(xs, blocks, cuts, f, k - 1);
      var a, b, block := cuts[k - 1], cuts[k], blocks[k - 1];
      assert Pooled(xs, a, b, block) && PredictsMean(xs, a, b, block, f);
      ConstantOutput(xs, f, Mean(block), a, b);
      TotalSplit(xs, Output(f), 0, a, b);
      TotalSplit(xs, Label(), 0, a, b);
    }
  }

  lemma {:induction false} LabelBounds(xs: seq<Sample>, a: nat, b: nat)
    requires a <= b <= |xs| && forall i :: a <= i < b ==> 0.0 <= xs[i].outcome <= 1.0
    ensures 0.0 <= Total(xs, Label(), a, b) <= (b - a) as real
  {
    if a < b {
      LabelBounds(xs, a, b - 1);
      assert (b - a) as real == (b - 1 - a) as real + 1.0;
    }
  }

  lemma MeanInUnit(xs: seq<Sample>, a: nat, b: nat, block: Block)
    requires Pooled(xs, a, b, block) && forall i :: 0 <= i < |xs| ==> 0.0 <= xs[i].outcome <= 1.0
    ensures 0.0 <= Mean(block) <= 1.0
  {
    LabelBounds(xs, a, b);
    Cancel(Mean(block), block.count);
    Cancel(1.0 - Mean(block), block.count);
  }

  // ----- The finished fit -----

  /** The thresholds and values published for the blocks. */
  ghost predicate Published(blocks: seq<Block>, thresholds: seq<real>, values: seq<real>) {
    && |thresholds| == |values| == |blocks|
    && Counted(blocks)
    && (forall k :: 0 <= k < |blocks| ==> thresholds[k] == blocks[k].high && values[k] == Mean(blocks[k]))
  }

  lemma {:induction false} CutsRise(xs: seq<Sample>, blocks: seq<Block>, cuts: seq<nat>, j: nat, k: nat)
    requires Pooling(xs, blocks, cuts) && j < k <= |blocks|
    ensures cuts[j] < cuts[k] <= |xs|
    decreases k - j
  {
    assert Pooled(xs, cuts[k - 1], cuts[k], blocks[k - 1]);
    if j < k - 1 {
      CutsRise(xs, blocks, cuts, j, k - 1);
    }
  }

  lemma ThresholdsRise(xs: seq<Sample>, blocks: seq<Block>, cuts: seq<nat>, j: nat, k: nat)
    requires Sorted(xs) && Pooling(xs, blocks, cuts) && j < k < |blocks|
    ensures cuts[j + 1] <= cuts[k] < cuts[k + 1] <= |xs|
    ensures forall i :: cuts[k] <= i < |xs| ==> blocks[j].high < xs[i].score
    ensures blocks[j].high < blocks[k].high
  {
    assert Pooled(xs, cuts[j], cuts[j + 1], blocks[j]);
    assert Pooled(xs, cuts[k], cuts[k + 1], blocks[k]);
    if j + 1 < k {
      CutsRise(xs, blocks, cuts, j + 1, k);
    }
    var p := cuts[j + 1];
    assert RunEnd(xs, p) && p < |xs|;
    assert xs[p - 1].score < xs[p].score;
  }

  /** A training sample is predicted the mean of the block it was pooled into. */
  lemma SamplePrediction(xs: seq<Sample>, blocks: seq<Block>, cuts: seq<nat>, thresholds: seq<real>, values: seq<real>,
                         k: nat, i: nat)
    requires Sorted(xs) && Pooling(xs, blocks, cuts) && Published(blocks, thresholds, values)
    requires k < |blocks| && cuts[k] <= i < cuts[k + 1]
    ensures i < |xs| && Predictor(thresholds, values)(xs[i].score) == Mean(blocks[k])
  {
    assert Pooled(xs, cuts[k], cuts[k + 1], blocks[k]);
    forall j | 0 <= j < k ensures thresholds[j] < xs[i].score {
      ThresholdsRise(xs, blocks, cuts, j, k);
    }
    PredictHits(thresholds, values, xs[i].score, 0, k);
  }

  ghost predicate Fit(samples: seq<Sample>, blocks: seq<Block>, cuts: seq<nat>, thresholds: seq<real>,
                      values: seq<real>) {
    && Sorted(SortByScore(samples))
    && Pooling(SortByScore(samples), blocks, cuts)
    && cuts[|blocks|] == |samples| > 0
    && Published(blocks, thresholds, values)
    && |blocks| > 0
  }

  ghost predicate PredictsMeans(xs: seq<Sample>, blocks: seq<Block>, cuts: seq<nat>, f: real -> real) {
    && |cuts| == |blocks| + 1
    && forall j :: 0 <= j < |blocks| ==> PredictsMean(xs, cuts[j], cuts[j + 1], blocks[j], f)
  }

  ghost predicate PredictsMean(xs: seq<Sample>, a: nat, b: nat, block: Block, f: real -> real) {
    && a <= b <= |xs|
    && block.count > 0.0
    && forall i :: a <= i < b ==> f(xs[i].score) == Mean(block)
  }

  lemma FitPredicts(samples: seq<Sample>, blocks: seq<Block>, cuts: seq<nat>, thresholds: seq<real>, values: seq<real>)
    requires Fit(samples, blocks, cuts, thresholds, values)
    ensures PredictsMeans(SortByScore(samples), blocks, cuts, Predictor(thresholds, values))
  {
    var xs, f := SortByScore(samples), Predictor(thresholds, values);
    forall j | 0 <= j < |blocks| ensures PredictsMean(xs, cuts[j], cuts[j + 1], blocks[j], f) {
      assert Pooled(xs, cuts[j], cuts[j + 1], blocks[j]);
      forall i | cuts[j] <= i < cuts[j + 1] ensures f(xs[i].score) == Mean(blocks[j]) {
        SamplePrediction(xs, blocks, cuts, thresholds, values, j, i);
      }
    }
  }

  /** The fit conserves label mass: predictions and labels have the same sum. */
  lemma FitConservesMass(samples: seq<Sample>, blocks: seq<Block>, cuts: seq<nat>, thresholds: seq<real>,
                         values: seq<real>)
    requires Fit(samples, blocks, cuts, thresholds, values)
    ensures All(samples, Output(Predictor(thresholds, values))) == All(samples, Label())
  {
    var f := Predictor(thresholds, values);
    FitPredicts(samples, blocks, cuts, thresholds, values);
    PrefixMass(SortByScore(samples), blocks, cuts, f, |blocks|);
    TotalSort(samples, Output(f));
    TotalSort(samples, Label());
  }

  /** The fit is the least-squares optimum over all non-decreasing functions g of the score, with the
      squared distance to g to spare, so no other function of the training scores is as good. */
  lemma FitOptimal(samples: seq<Sample>, blocks: seq<Block>, cuts: seq<nat>, thresholds: seq<real>, values: seq<real>,
                   g: real -> real)
    requires Fit(samples, blocks, cuts, thresholds, values) && NonDecreasing(g)
    ensures Beats(samples, Predictor(thresholds, values), g)
  {
    var f := Predictor(thresholds, values);
    FitPredicts(samples, blocks, cuts, thresholds, values);
    PrefixOptimal(SortByScore(samples), blocks, cuts, f, g, |blocks|);
    TotalSort(samples, SquaredError(g));
    TotalSort(samples, SquaredError(f));
    TotalSort(samples, SquaredGap(f, g));
  }

  predicate UnitLabels(samples: seq<Sample>) {
    forall i :: 0 <= i < |samples| ==> 0.0 <= samples[i].outcome <= 1.0
  }

  /** f has a smaller squared error than g by at least the squared distance between them. */
  ghost predicate Beats(samples: seq<Sample>, f: real -> real, g: real -> real) {
    All(samples, SquaredError(g)) >= All(samples, SquaredError(f)) + All(samples, SquaredGap(f, g))
  }

  lemma {:induction false} MeansRise(blocks: seq<Block>, j: nat, k: nat)
    requires Counted(blocks) && MeansOrdered(blocks, |blocks|)
    requires j <= k < |blocks|
    ensures Mean(blocks[j]) <= Mean(blocks[k])
    decreases k - j
  {
    if j < k {
      MeansRise(blocks, j, k - 1);
      assert Mean(blocks[k - 1]) <= Mean(blocks[k - 1 + 1]);
    }
  }

  lemma FitShape(samples: seq<Sample>, blocks: seq<Block>, cuts: seq<nat>, thresholds: seq<real>, values: seq<real>)
    requires Fit(samples, blocks, cuts, thresholds, values)
    requires MeansOrdered(blocks, |blocks|)
    ensures Increasing(thresholds) && Rising(values)
    ensures NonDecreasing(Predictor(thresholds, values))
  {
    var xs := SortByScore(samples);
    forall j, k | 0 <= j < k < |blocks| ensures thresholds[j] < thresholds[k] && values[j] <= values[k] {
      ThresholdsRise(xs, blocks, cuts, j, k);
      MeansRise(blocks, j, k);
    }
    forall a, b | a <= b ensures Predictor(thresholds, values)(a) <= Predictor(thresholds, values)(b) {
      PredictMonotone(thresholds, values, a, b, 0);
    }
  }

  lemma FitInUnit(samples: seq<Sample>, blocks: seq<Block>, cuts: seq<nat>, thresholds: seq<real>, values: seq<real>)
    requires Fit(samples, blocks, cuts, thresholds, values)
    requires UnitLabels(samples)
    ensures forall k :: 0 <= k < |values| ==> 0.0 <= values[k] <= 1.0
  {
    var xs := SortByScore(samples);
    SortByScoreSorted(samples);
    forall i | 0 <= i < |xs| ensures 0.0 <= xs[i].outcome <= 1.0 {
      assert xs[i] in multiset(samples);
    }
    forall k | 0 <= k < |blocks| ensures 0.0 <= values[k] <= 1.0 {
      MeanInUnit(xs, cuts[k], cuts[k + 1], blocks[k]);
    }
  }

  lemma Finish(samples: seq<Sample>, blocks: seq<Block>, cuts: seq<nat>, thresholds: seq<real>, values: seq<real>)
    requires Fit(samples, blocks, cuts, thresholds, values) && MeansOrdered(blocks, |blocks|)
    ensures Increasing(thresholds) && Rising(values)
    ensures NonDecreasing(Predictor(thresholds, values))
    ensures UnitLabels(samples) ==> forall k :: 0 <= k < |values| ==> 0.0 <= values[k] <= 1.0
    ensures All(samples, Output(Predictor(thresholds, values))) == All(samples, Label())
    ensures forall g: real -> real :: NonDecreasing(g) ==> Beats(samples, Predictor(thresholds, values), g)
  {
    FitShape(samples, blocks, cuts, thresholds, values);
    FitConservesMass(samples, blocks, cuts, thresholds, values);
    if UnitLabels(samples) {
      FitInUnit(samples, blocks, cuts, thresholds, values);
    }
    forall g: real -> real | NonDecreasing(g) ensures Beats(samples, Predictor(thresholds, values), g) {
      FitOptimal(samples, blocks, cuts, thresholds, values, g);
    }
  }

  /** A maximal run of equal scores is a block on its own. */
  lemma RunPooled(xs: seq<Sample>, a: nat, b: nat)
    requires Sorted(xs) && a < b <= |xs| && RunEnd(xs, b)
    requires forall k :: a <= k < b ==> xs[k].score == xs[a].score
    ensures Pooled(xs, a, b, Block(xs[a].score, xs[a].score, Total(xs, Label(), a, b), (b - a) as real))
  {
  }

  /** The samples of one score, and the sum of their outcomes. */
  method SumOfRun(ordered: seq<Sample>, i: nat) returns (j: nat, sum: real)
    requires Sorted(ordered) && i < |ordered|
    ensures i < j <= |ordered| && RunEnd(ordered, j)
    ensures forall k :: i <= k < j ==> ordered[k].score == ordered[i].score
    ensures sum == Total(ordered, Label(), i, j)
  {
    sum, j := 0.0, i;
    while j < |ordered| && ordered[j].score == ordered[i].score
      invariant i <= j <= |ordered|
      invariant forall k :: i <= k < j ==> ordered[k].score == ordered[i].score
      invariant sum == Total(ordered, Label(), i, j)
    {
      sum := sum + ordered[j].outcome;
      j := j + 1;
    }
  }

  /** Pool adjacent violators over the sorted samples. */
  method FitIsotonic(samples: seq<Sample>) returns (thresholds: seq<real>, values: seq<real>)
    requires samples != []
    ensures |thresholds| == |values| > 0
    ensures Increasing(thresholds) && Rising(values)
    ensures NonDecreasing(Predictor(thresholds, values))
    ensures UnitLabels(samples) ==> forall k :: 0 <= k < |values| ==> 0.0 <= values[k] <= 1.0
    ensures All(samples, Output(Predictor(thresholds, values))) == All(samples, Label())
    ensures forall g: real -> real :: NonDecreasing(g) ==> Beats(samples, Predictor(thresholds, values), g)
  {
    var ordered := SortByScore(samples);
    SortByScoreSorted(samples);
    var blocks: seq<Block> := [];
    ghost var cuts: seq<nat> := [0];
    var i := 0;
    while i < |ordered|
      invariant i <= |ordered| && RunEnd(ordered, i) && (i > 0 ==> |blocks| > 0)
      invariant Pooling(ordered, blocks, cuts) && cuts[|blocks|] == i
      invariant Counted(blocks) && MeansOrdered(blocks, |blocks|)
    {
      var score := ordered[i].score;
      var j, sum := SumOfRun(ordered, i);
      RunPooled(ordered, i, j);
      Push(ordered, blocks, cuts, j, Block(score, score, sum, (j - i) as real));
      blocks := blocks + [Block(score, score, sum, (j - i) as real)];
      cuts := cuts + [j];
      while |blocks| >= 2 && Mean(blocks[|blocks| - 2]) > Mean(blocks[|blocks| - 1])
        invariant |blocks| >= 1
        invariant Pooling(ordered, blocks, cuts) && cuts[|blocks|] == j
        invariant Counted(blocks) && MeansOrdered(blocks, |blocks| - 1)
        decreases |blocks|
      {
        var n := |blocks|;
        MergeTop(ordered, blocks, cuts, n);
        var right := blocks[n - 1];
        var left := blocks[n - 2];
        blocks := blocks[..n - 2] + [Merged(left, right)];
        cuts := cuts[..n - 1] + [cuts[n]];
      }
      i := j;
    }
    thresholds := seq(|blocks|, k requires 0 <= k < |blocks| => blocks[k].high);
    values := seq(|blocks|, k requires 0 <= k < |blocks| && blocks[k].count > 0.0 => Mean(blocks[k]));
    Finish(samples, blocks, cuts, thresholds, values);
  }
}
