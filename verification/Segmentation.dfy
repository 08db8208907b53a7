/** Cutting speech into transcript chunks, and giving every heard token to one chunk's core. */
module Segmentation {
  import opened Common
  import opened Intervals

  datatype Kind = SpeakerChange | NaturalPause | LongPause | SentenceEnd | LanguageSwitch

  function Priority(kind: Kind): int {
    match kind
    case SpeakerChange => 0
    case NaturalPause => 1
    case LongPause => 1
    case SentenceEnd => 2
    case LanguageSwitch => 3
  }

  datatype Cue = Cue(sample: int, kind: Kind, confidence: real) {
    predicate Mandatory() { kind == SpeakerChange || kind == LanguageSwitch }
  }

  datatype Policy = Policy(target: int, minimum: int, hardMax: int, overlap: int) {
    /** The source's two argument checks. */
    predicate Legal() {
      minimum <= target <= hardMax && 8 * SAMPLE_RATE / 10 <= overlap <= 15 * SAMPLE_RATE / 10
    }
  }

  datatype Reason = AtCue(kind: Kind) | EndOfSpeech | HardMax

  datatype Core = Core(start: int, end: int, reason: Reason, hard: bool)

  function Length(c: Core): int { c.end - c.start }

  // ----- Cues in order -----

  predicate InOrder(cues: seq<Cue>) {
    forall i, j :: 0 <= i < j < |cues| ==> cues[i].sample <= cues[j].sample
  }

  function InsertCue(cues: seq<Cue>, c: Cue): seq<Cue> {
    if cues == [] || cues[|cues| - 1].sample <= c.sample then cues + [c]
    else InsertCue(cues[..|cues| - 1], c) + [cues[|cues| - 1]]
  }

  /** The cues strictly inside the extent, by sample; those at one sample keep their order. */
  function OrderedCues(extent: Span, cues: seq<Cue>): seq<Cue> {
    if cues == [] then []
    else
      var front, last := OrderedCues(extent, cues[..|cues| - 1]), cues[|cues| - 1];
      if extent.start < last.sample < extent.end then InsertCue(front, last) else front
  }

  lemma {:induction false} InsertCueKeeps(cues: seq<Cue>, c: Cue, bound: int)
    requires InOrder(cues) && c.sample <= bound && forall k :: 0 <= k < |cues| ==> cues[k].sample <= bound
    ensures InOrder(InsertCue(cues, c)) && forall k :: 0 <= k < |InsertCue(cues, c)| ==>
        InsertCue(cues, c)[k].sample <= bound
  {
    if cues == [] || cues[|cues| - 1].sample <= c.sample {
      forall i | 0 <= i < |cues| && cues[|cues| - 1].sample <= c.sample ensures cues[i].sample <= c.sample {
        if i < |cues| - 1 { assert cues[i].sample <= cues[|cues| - 1].sample; }
      }
    } else {
      InsertCueKeeps(cues[..|cues| - 1], c, cues[|cues| - 1].sample);
    }
  }

  lemma {:induction false} InsertCueMembers(cues: seq<Cue>, c: Cue)
    ensures forall q :: q in InsertCue(cues, c) <==> q in cues || q == c
  {
    if cues == [] || cues[|cues| - 1].sample <= c.sample {
    } else {
      InsertCueMembers(cues[..|cues| - 1], c);
      assert cues == cues[..|cues| - 1] + [cues[|cues| - 1]];
    }
  }

  lemma {:induction false} OrderedCuesSorted(extent: Span, cues: seq<Cue>)
    ensures InOrder(OrderedCues(extent, cues))
    ensures forall k :: 0 <= k < |OrderedCues(extent, cues)| ==> OrderedCues(extent, cues)[k].sample < extent.end
  {
    if cues != [] {
      OrderedCuesSorted(extent, cues[..|cues| - 1]);
      if extent.start < cues[|cues| - 1].sample < extent.end {
        InsertCueKeeps(OrderedCues(extent, cues[..|cues| - 1]), cues[|cues| - 1], extent.end - 1);
      }
    }
  }

  lemma {:induction false} OrderedCuesMembers(extent: Span, cues: seq<Cue>)
    ensures forall q :: q in OrderedCues(extent, cues) <==> q in cues && extent.start < q.sample < extent.end
  {
    if cues != [] {
      var front, last := cues[..|cues| - 1], cues[|cues| - 1];
      OrderedCuesMembers(extent, front);
      InsertCueMembers(OrderedCues(extent, front), last);
      assert cues == front + [last];
    }
  }

  /** The cues at one sample, in their order. */
  function AtSample(cues: seq<Cue>, sample: int): seq<Cue> {
    if cues == [] then []
    else
      var last := cues[|cues| - 1];
      AtSample(cues[..|cues| - 1], sample) + if last.sample == sample then [last] else []
  }

  lemma {:induction false} InsertCueAt(cues: seq<Cue>, c: Cue, sample: int)
    ensures AtSample(InsertCue(cues, c), sample) == AtSample(cues, sample) + if c.sample == sample then [c] else []
  {
    if cues == [] || cues[|cues| - 1].sample <= c.sample {
      assert (cues + [c])[..|cues|] == cues;
    } else {
      var front, last := cues[..|cues| - 1], cues[|cues| - 1];
      InsertCueAt(front, c, sample);
      assert (InsertCue(front, c) + [last])[..|InsertCue(front, c)|] == InsertCue(front, c);
    }
  }

  /** Sorting is stable: cues at one sample inside the extent stay in the order they came in. */
  lemma {:induction false} OrderedCuesStable(extent: Span, cues: seq<Cue>, sample: int)
    requires extent.start < sample < extent.end
    ensures AtSample(OrderedCues(extent, cues), sample) == AtSample(cues, sample)
  {
    if cues != [] {
      var front, last := cues[..|cues| - 1], cues[|cues| - 1];
      OrderedCuesStable(extent, front, sample);
      InsertCueAt(OrderedCues(extent, front), last, sample);
    }
  }

  /** A speaker change or language switch lies at the sample. */
  ghost predicate MandatoryAt(cues: seq<Cue>, sample: int) {
    exists c :: c in cues && c.sample == sample && c.Mandatory()
  }

  function MandatorySamples(cues: seq<Cue>): set<int> {
    set c | c in cues && c.Mandatory() :: c.sample
  }

  ghost predicate CueAt(cues: seq<Cue>, sample: int) { exists c :: c in cues && c.sample == sample }

  ghost predicate NoCueWithin(cues: seq<Cue>, lower: int, upper: int) {
    forall c :: c in cues ==> !(lower <= c.sample <= upper)
  }

  // ----- One cut -----

  function Within(cues: seq<Cue>, lower: int, upper: int): seq<Cue> {
    if cues == [] then []
    else
      var front, last := Within(cues[..|cues| - 1], lower, upper), cues[|cues| - 1];
      if lower <= last.sample <= upper then front + [last] else front
  }

  function OnlyAt(cues: seq<Cue>, samples: set<int>): seq<Cue> {
    if cues == [] then []
    else
      var front, last := OnlyAt(cues[..|cues| - 1], samples), cues[|cues| - 1];
      if last.sample in samples then front + [last] else front
  }

  lemma {:induction false} WithinMembers(cues: seq<Cue>, lower: int, upper: int)
    ensures forall q :: q in Within(cues, lower, upper) <==> q in cues && lower <= q.sample <= upper
    ensures InOrder(cues) ==> InOrder(Within(cues, lower, upper))
  {
    if cues != [] {
      var front, last := cues[..|cues| - 1], cues[|cues| - 1];
      WithinMembers(front, lower, upper);
      assert cues == front + [last];
      if InOrder(cues) {
        forall k | 0 <= k < |Within(front, lower, upper)| ensures Within(front, lower, upper)[k].sample <= last.sample {
          assert Within(front, lower, upper)[k] in front;
        }
      }
    }
  }

  lemma {:induction false} OnlyAtMembers(cues: seq<Cue>, samples: set<int>)
    ensures forall q :: q in OnlyAt(cues, samples) <==> q in cues && q.sample in samples
    ensures InOrder(cues) ==> InOrder(OnlyAt(cues, samples))
  {
    if cues != [] {
      var front, last := cues[..|cues| - 1], cues[|cues| - 1];
      OnlyAtMembers(front, samples);
      assert cues == front + [last];
      if InOrder(cues) {
        forall k | 0 <= k < |OnlyAt(front, samples)| ensures OnlyAt(front, samples)[k].sample <= last.sample {
          assert OnlyAt(front, samples)[k] in front;
        }
      }
    }
  }

  function Distance(a: int, b: int): int { if a >= b then a - b else b - a }

  /** By priority, then distance from the target, then falling confidence. */
  predicate Better(a: Cue, b: Cue, aim: int) {
    Priority(a.kind) < Priority(b.kind)
    || (Priority(a.kind) == Priority(b.kind)
        && (Distance(a.sample, aim) < Distance(b.sample, aim)
            || (Distance(a.sample, aim) == Distance(b.sample, aim) && a.confidence > b.confidence)))
  }

  /** The first of the best cues. */
  function Best(cues: seq<Cue>, aim: int): (best: Cue)
    requires cues != []
    ensures best in cues
  {
    if |cues| == 1 then cues[0]
    else
      var best := Best(cues[..|cues| - 1], aim);
      if Better(cues[|cues| - 1], best, aim) then cues[|cues| - 1] else best
  }

  lemma {:induction false} BestIsBest(cues: seq<Cue>, aim: int)
    requires cues != []
    ensures forall c :: c in cues ==> !Better(c, Best(cues, aim), aim)
  {
    if |cues| > 1 {
      var front, last := cues[..|cues| - 1], cues[|cues| - 1];
      BestIsBest(front, aim);
      assert cues == front + [last];
    }
  }

  /** The core that begins at a sample. */
  function Next(extent: Span, ordered: seq<Cue>, policy: Policy, start: int): Core {
    var mandatory := Within(OnlyAt(ordered, MandatorySamples(ordered)), start + 1, start + policy.hardMax);
    if mandatory != [] then Core(start, mandatory[0].sample, AtCue(mandatory[0].kind), false)
    else if extent.end - start <= policy.hardMax then Core(start, extent.end, EndOfSpeech, false)
    else
      var upper := Min(start + policy.hardMax, extent.end);
      var candidates := Within(ordered, start + policy.minimum, upper);
      if candidates != [] then
        var cue := Best(candidates, start + policy.target);
        Core(start, cue.sample, AtCue(cue.kind), false)
      else Core(start, upper, HardMax, true)
  }

  /** What one cut promises. */
  ghost predicate GoodCore(c: Core, extent: Span, ordered: seq<Cue>, policy: Policy) {
    && c.start < c.end <= extent.end && Length(c) <= policy.hardMax
    && (forall m :: MandatoryAt(ordered, m) ==> !(c.start < m < c.end))
    && (if c.hard then Length(c) == policy.hardMax && c.end < extent.end
        && NoCueWithin(ordered, c.start + policy.minimum, c.end)
        else c.end == extent.end || CueAt(ordered, c.end))
  }

  ghost predicate CuesInside(extent: Span, ordered: seq<Cue>) {
    InOrder(ordered) && forall c :: c in ordered ==> extent.start < c.sample < extent.end
  }

  lemma FirstMandatory(extent: Span, ordered: seq<Cue>, policy: Policy, start: int)
    requires CuesInside(extent, ordered)
    ensures var mandatory := Within(OnlyAt(ordered, MandatorySamples(ordered)), start + 1, start + policy.hardMax);
      && (mandatory == [] ==> forall m :: MandatoryAt(ordered, m) ==> !(start < m <= start + policy.hardMax))
      && (mandatory != [] ==> mandatory[0] in ordered && start < mandatory[0].sample <= start + policy.hardMax
                              && forall m :: MandatoryAt(ordered, m) ==> !(start < m < mandatory[0].sample))
  {
    var only := OnlyAt(ordered, MandatorySamples(ordered));
    var mandatory := Within(only, start + 1, start + policy.hardMax);
    OnlyAtMembers(ordered, MandatorySamples(ordered));
    WithinMembers(only, start + 1, start + policy.hardMax);
    forall m | MandatoryAt(ordered, m) && start < m <= start + policy.hardMax
      ensures mandatory != [] && mandatory[0].sample <= m {
      var c :| c in ordered && c.sample == m && c.Mandatory();
      assert c in mandatory;
    }
  }

  /** A cut that advances is a good one, whatever the policy. */
  lemma NextIsGood(extent: Span, ordered: seq<Cue>, policy: Policy, start: int)
    requires CuesInside(extent, ordered) && extent.start <= start < extent.end
    requires Next(extent, ordered, policy, start).end > start
    ensures GoodCore(Next(extent, ordered, policy, start), extent, ordered, policy)
  {
    FirstMandatory(extent, ordered, policy, start);
    WithinMembers(ordered, start + policy.minimum, Min(start + policy.hardMax, extent.end));
  }

  /** With a positive minimum every cut advances. */
  lemma PositiveAdvances(extent: Span, ordered: seq<Cue>, policy: Policy, start: int)
    requires CuesInside(extent, ordered) && 1 <= policy.minimum <= policy.hardMax && extent.start <= start < extent.end
    ensures Next(extent, ordered, policy, start).end > start
  {
    FirstMandatory(extent, ordered, policy, start);
    WithinMembers(ordered, start + policy.minimum, Min(start + policy.hardMax, extent.end));
  }

  // ----- Where a cut falls -----

  /** Speaker changes go before pauses, pauses of either kind before sentence ends, and these before language
      switches. */
  predicate MoreUrgent(a: Kind, b: Kind) {
    || (a == SpeakerChange && b != SpeakerChange)
    || ((a == NaturalPause || a == LongPause) && (b == SentenceEnd || b == LanguageSwitch))
    || (a == SentenceEnd && b == LanguageSwitch)
  }

  predicate Nearer(a: int, b: int, aim: int) { Max(a - aim, aim - a) < Max(b - aim, aim - b) }

  /** The more urgent cue; of equally urgent ones the nearer to the aim; of equally near ones the more confident. */
  predicate Preferred(a: Cue, b: Cue, aim: int) {
    || MoreUrgent(a.kind, b.kind)
    || (!MoreUrgent(b.kind, a.kind)
        && (Nearer(a.sample, b.sample, aim) || (!Nearer(b.sample, a.sample, aim) && a.confidence > b.confidence)))
  }

  lemma PreferredIsBetter(a: Cue, b: Cue, aim: int)
    ensures Preferred(a, b, aim) <==> Better(a, b, aim)
  {
  }

  lemma BetterChains(a: Cue, b: Cue, c: Cue, aim: int)
    requires Better(a, b, aim) && !Better(c, b, aim)
    ensures Better(a, c, aim)
  {
  }

  predicate InWindow(q: Cue, lower: int, upper: int) { lower <= q.sample <= upper }

  /** Cue k is the best of those in a window, and the first of the best. */
  ghost predicate BestInWindow(ordered: seq<Cue>, k: nat, lower: int, upper: int, aim: int) {
    && k < |ordered| && InWindow(ordered[k], lower, upper)
    && (forall j :: 0 <= j < |ordered| && InWindow(ordered[j], lower, upper) ==>
        !Preferred(ordered[j], ordered[k], aim))
    && (forall j :: 0 <= j < k && InWindow(ordered[j], lower, upper) ==> Preferred(ordered[k], ordered[j], aim))
  }

  lemma {:induction false} BestIndex(ordered: seq<Cue>, lower: int, upper: int, aim: int) returns (k: nat)
    requires Within(ordered, lower, upper) != []
    ensures BestInWindow(ordered, k, lower, upper, aim) && ordered[k] == Best(Within(ordered, lower, upper), aim)
  {
    var n := |ordered| - 1;
    var front, last := ordered[..n], ordered[n];
    var before := Within(front, lower, upper);
    if !InWindow(last, lower, upper) {
      k := BestIndex(front, lower, upper, aim);
    } else if before == [] {
      k := n;
      WithinMembers(front, lower, upper);
      forall j | 0 <= j < n ensures !InWindow(ordered[j], lower, upper) { assert ordered[j] == front[j]; }
      assert Within(ordered, lower, upper) == [last];
      PreferredIsBetter(last, last, aim);
    } else {
      k := BestIndex(front, lower, upper, aim);
      var all := Within(ordered, lower, upper);
      assert all == before + [last] && all[..|all| - 1] == before;
      BestStep(ordered, k, lower, upper, aim);
      if Better(last, front[k], aim) { k := n; }
    }
  }

  /** One more cue is the best only if it is preferred to the best so far. */
  lemma BestStep(ordered: seq<Cue>, k: nat, lower: int, upper: int, aim: int)
    requires ordered != [] && InWindow(ordered[|ordered| - 1], lower, upper)
    requires BestInWindow(ordered[..|ordered| - 1], k, lower, upper, aim)
    ensures BestInWindow(ordered, if Better(ordered[|ordered| - 1], ordered[k], aim) then |ordered| - 1 else k, lower,
                         upper, aim)
  {
    var n := |ordered| - 1;
    var front, last := ordered[..n], ordered[n];
    PreferredIsBetter(last, ordered[k], aim);
    PreferredIsBetter(last, last, aim);
    if Better(last, ordered[k], aim) {
      forall j | 0 <= j < n && InWindow(ordered[j], lower, upper)
        ensures Preferred(last, ordered[j], aim) && !Preferred(ordered[j], last, aim)
      {
        assert front[j] == ordered[j];
        PreferredIsBetter(ordered[j], ordered[k], aim);
        BetterChains(last, ordered[k], ordered[j], aim);
        PreferredIsBetter(last, ordered[j], aim);
        PreferredIsBetter(ordered[j], last, aim);
      }
    } else {
      forall j | 0 <= j < n && InWindow(ordered[j], lower, upper) ensures !Preferred(ordered[j], ordered[k], aim) {
        assert front[j] == ordered[j];
      }
      forall j | 0 <= j < k && InWindow(ordered[j], lower, upper) ensures Preferred(ordered[k], ordered[j], aim) {
        assert front[j] == ordered[j];
      }
    }
  }

  /** The earliest speaker or language boundary after the start, and the first cue there. */
  ghost predicate FirstBoundary(ordered: seq<Cue>, k: nat, start: int, until: int) {
    && k < |ordered| && start < ordered[k].sample <= until && MandatoryAt(ordered, ordered[k].sample)
    && (forall m :: MandatoryAt(ordered, m) ==> !(start < m < ordered[k].sample))
    && (forall j :: 0 <= j < k ==> ordered[j].sample < ordered[k].sample)
  }

  lemma {:induction false} FirstKept(cues: seq<Cue>, samples: set<int>, lower: int, upper: int) returns (k: nat)
    requires Within(OnlyAt(cues, samples), lower, upper) != []
    ensures k < |cues| && Within(OnlyAt(cues, samples), lower, upper)[0] == cues[k]
    ensures cues[k].sample in samples && lower <= cues[k].sample <= upper
    ensures forall j :: 0 <= j < k ==> !(cues[j].sample in samples && lower <= cues[j].sample <= upper)
  {
    var n := |cues| - 1;
    var front, last := cues[..n], cues[n];
    var before := Within(OnlyAt(front, samples), lower, upper);
    var only := OnlyAt(front, samples);
    assert (only + [last])[..|only|] == only;
    if before != [] {
      k := FirstKept(front, samples, lower, upper);
    } else {
      k := n;
      OnlyAtMembers(front, samples);
      WithinMembers(only, lower, upper);
      forall j | 0 <= j < n ensures !(cues[j].sample in samples && lower <= cues[j].sample <= upper) {
        assert cues[j] == front[j] && front[j] in front;
      }
    }
  }

  lemma FirstBoundaryKept(extent: Span, ordered: seq<Cue>, start: int, until: int) returns (k: nat)
    requires CuesInside(extent, ordered)
    requires Within(OnlyAt(ordered, MandatorySamples(ordered)), start + 1, until) != []
    ensures FirstBoundary(ordered, k, start, until)
    ensures Within(OnlyAt(ordered, MandatorySamples(ordered)), start + 1, until)[0] == ordered[k]
  {
    var samples := MandatorySamples(ordered);
    k := FirstKept(ordered, samples, start + 1, until);
    forall m | MandatoryAt(ordered, m) ensures !(start < m < ordered[k].sample) {
      var c :| c in ordered && c.sample == m && c.Mandatory();
      var j :| 0 <= j < |ordered| && ordered[j] == c;
    }
    assert ordered[k].sample in samples;
    forall j | 0 <= j < k ensures ordered[j].sample < ordered[k].sample {}
  }

  predicate EndsAtCue(c: Core, q: Cue) { !c.hard && c.end == q.sample && c.reason == AtCue(q.kind) }

  ghost predicate EndsAtFirstBoundary(c: Core, ordered: seq<Cue>, until: int) {
    exists k: nat {:trigger FirstBoundary(ordered, k, c.start, until)} ::
      FirstBoundary(ordered, k, c.start, until) && EndsAtCue(c, ordered[k])
  }

  ghost predicate EndsAtBest(c: Core, ordered: seq<Cue>, lower: int, upper: int, aim: int) {
    exists k: nat {:trigger BestInWindow(ordered, k, lower, upper, aim)} ::
      BestInWindow(ordered, k, lower, upper, aim) && EndsAtCue(c, ordered[k])
  }

  ghost predicate BoundaryWithin(ordered: seq<Cue>, start: int, until: int) {
    exists m :: MandatoryAt(ordered, m) && start < m <= until
  }

  /** Where a core ends and why: at the first speaker or language boundary within the maximum; else at the end of the
      speech if that is within the maximum; else at the best cue between the minimum and the maximum; else at the
      maximum. */
  ghost predicate CutRight(c: Core, extent: Span, ordered: seq<Cue>, policy: Policy) {
    var until := c.start + policy.hardMax;
    var lower, upper := c.start + policy.minimum, Min(until, extent.end);
    if BoundaryWithin(ordered, c.start, until) then EndsAtFirstBoundary(c, ordered, until)
    else if extent.end <= until then !c.hard && c.end == extent.end && c.reason == EndOfSpeech
    else if !NoCueWithin(ordered, lower, upper) then EndsAtBest(c, ordered, lower, upper, c.start + policy.target)
    else c.hard && c.end == upper && c.reason == HardMax
  }

  /** Every cut falls there, under any policy. */
  lemma NextCutsRight(extent: Span, ordered: seq<Cue>, policy: Policy, start: int) returns (c: Core)
    requires CuesInside(extent, ordered)
    ensures c == Next(extent, ordered, policy, start) && c.start == start
    ensures CutRight(c, extent, ordered, policy)
  {
    c := Next(extent, ordered, policy, start);
    var until := start + policy.hardMax;
    if Within(OnlyAt(ordered, MandatorySamples(ordered)), start + 1, until) != [] {
      BoundaryCut(extent, ordered, start, until);
      RightAtBoundary(c, extent, ordered, policy, until);
    } else {
      NoBoundary(extent, ordered, policy, start);
      if extent.end <= until {
        RightAtEnd(c, extent, ordered, policy);
      } else {
        var lower, upper := start + policy.minimum, Min(until, extent.end);
        NoneWithin(ordered, lower, upper);
        if Within(ordered, lower, upper) != [] {
          BestCut(ordered, lower, upper, start + policy.target, start);
          RightAtBest(c, extent, ordered, policy, lower, upper, start + policy.target);
        } else {
          RightAtMaximum(c, extent, ordered, policy, lower, upper);
        }
      }
    }
  }

  lemma RightAtBoundary(c: Core, extent: Span, ordered: seq<Cue>, policy: Policy, until: int)
    requires until == c.start + policy.hardMax
    requires BoundaryWithin(ordered, c.start, until) && EndsAtFirstBoundary(c, ordered, until)
    ensures CutRight(c, extent, ordered, policy)
  {
  }

  lemma RightAtEnd(c: Core, extent: Span, ordered: seq<Cue>, policy: Policy)
    requires !BoundaryWithin(ordered, c.start, c.start + policy.hardMax) && extent.end <= c.start + policy.hardMax
    requires !c.hard && c.end == extent.end && c.reason == EndOfSpeech
    ensures CutRight(c, extent, ordered, policy)
  {
  }

  lemma RightAtBest(c: Core, extent: Span, ordered: seq<Cue>, policy: Policy, lower: int, upper: int, aim: int)
    requires !BoundaryWithin(ordered, c.start, c.start + policy.hardMax) && extent.end > c.start + policy.hardMax
    requires lower == c.start + policy.minimum && upper == Min(c.start + policy.hardMax, extent.end)
        && aim == c.start + policy.target
    requires !NoCueWithin(ordered, lower, upper) && EndsAtBest(c, ordered, lower, upper, aim)
    ensures CutRight(c, extent, ordered, policy)
  {
  }

  lemma RightAtMaximum(c: Core, extent: Span, ordered: seq<Cue>, policy: Policy, lower: int, upper: int)
    requires !BoundaryWithin(ordered, c.start, c.start + policy.hardMax) && extent.end > c.start + policy.hardMax
    requires lower == c.start + policy.minimum && upper == Min(c.start + policy.hardMax, extent.end)
    requires NoCueWithin(ordered, lower, upper) && c.hard && c.end == upper && c.reason == HardMax
    ensures CutRight(c, extent, ordered, policy)
  {
  }

  lemma BoundaryCut(extent: Span, ordered: seq<Cue>, start: int, until: int)
    requires CuesInside(extent, ordered)
    requires Within(OnlyAt(ordered, MandatorySamples(ordered)), start + 1, until) != []
    ensures BoundaryWithin(ordered, start, until)
    ensures var first := Within(OnlyAt(ordered, MandatorySamples(ordered)), start + 1, until)[0];
      EndsAtFirstBoundary(Core(start, first.sample, AtCue(first.kind), false), ordered, until)
  {
    var k := FirstBoundaryKept(extent, ordered, start, until);
    assert MandatoryAt(ordered, ordered[k].sample);
    assert EndsAtCue(Core(start, ordered[k].sample, AtCue(ordered[k].kind), false), ordered[k]);
  }

  lemma NoBoundary(extent: Span, ordered: seq<Cue>, policy: Policy, start: int)
    requires CuesInside(extent, ordered)
    requires Within(OnlyAt(ordered, MandatorySamples(ordered)), start + 1, start + policy.hardMax) == []
    ensures !BoundaryWithin(ordered, start, start + policy.hardMax)
  {
    FirstMandatory(extent, ordered, policy, start);
  }

  lemma NoneWithin(ordered: seq<Cue>, lower: int, upper: int)
    ensures Within(ordered, lower, upper) == [] <==> NoCueWithin(ordered, lower, upper)
  {
    WithinMembers(ordered, lower, upper);
    if Within(ordered, lower, upper) != [] {
      assert Within(ordered, lower, upper)[0] in Within(ordered, lower, upper);
    }
  }

  lemma BestCut(ordered: seq<Cue>, lower: int, upper: int, aim: int, start: int)
    requires Within(ordered, lower, upper) != []
    ensures var best := Best(Within(ordered, lower, upper), aim);
      EndsAtBest(Core(start, best.sample, AtCue(best.kind), false), ordered, lower, upper, aim)
  {
    var k := BestIndex(ordered, lower, upper, aim);
    assert EndsAtCue(Core(start, ordered[k].sample, AtCue(ordered[k].kind), false), ordered[k]);
  }

  // ----- All cuts, if the loop ends -----

  /** The cores of a loop that ends; or where it stays for good; or where a core would end before it begins, which is
      an error. */
  datatype Plan = Done(cores: seq<Core>) | Stuck(at: int) | Backwards(at: int)

  function CutFrom(extent: Span, ordered: seq<Cue>, policy: Policy, start: int): Plan
    requires CuesInside(extent, ordered) && extent.start <= start <= extent.end
    decreases extent.end - start
  {
    if start == extent.end then Done([])
    else
      var core := Next(extent, ordered, policy, start);
      if core.end < start then Backwards(start)
      else if core.end == start then Stuck(start)
      else
        NextIsGood(extent, ordered, policy, start);
        match CutFrom(extent, ordered, policy, core.end)
        case Done(rest) => Done([core] + rest)
        case Stuck(at) => Stuck(at)
        case Backwards(at) => Backwards(at)
  }

  /** Where the loop is after some turns, as long as it has not ended. */
  function Position(extent: Span, ordered: seq<Cue>, policy: Policy, start: int, turns: nat): int
    decreases turns
  {
    if turns == 0 || start >= extent.end then start
    else Position(extent, ordered, policy, Next(extent, ordered, policy, start).end, turns - 1)
  }

  /** A loop that gets stuck is before the end of the speech after any number of turns. */
  lemma {:induction false} StuckNeverEnds(extent: Span, ordered: seq<Cue>, policy: Policy, start: int, turns: nat)
    requires CuesInside(extent, ordered) && extent.start <= start <= extent.end
    requires CutFrom(extent, ordered, policy, start).Stuck?
    ensures Position(extent, ordered, policy, start, turns) < extent.end
    decreases turns
  {
    if turns > 0 {
      var next := Next(extent, ordered, policy, start).end;
      if next > start { NextIsGood(extent, ordered, policy, start); }
      StuckNeverEnds(extent, ordered, policy, next, turns - 1);
    }
  }

  /** The running loop is at the end of the speech after this many turns, and none of them raised. */
  predicate RunsThrough(extent: Span, ordered: seq<Cue>, policy: Policy, start: int, turns: nat)
    decreases turns
  {
    if turns == 0 then start == extent.end
    else
      var next := Next(extent, ordered, policy, start).end;
      start < extent.end && start <= next && RunsThrough(extent, ordered, policy, next, turns - 1)
  }

  /** Cores that are done come of a loop that runs through in as many turns. */
  lemma {:induction false} DoneRunsThrough(extent: Span, ordered: seq<Cue>, policy: Policy, start: int)
    requires CuesInside(extent, ordered) && extent.start <= start <= extent.end
    requires CutFrom(extent, ordered, policy, start).Done?
    ensures RunsThrough(extent, ordered, policy, start, |CutFrom(extent, ordered, policy, start).cores|)
    decreases extent.end - start
  {
    if start < extent.end {
      var next := Next(extent, ordered, policy, start).end;
      NextIsGood(extent, ordered, policy, start);
      DoneRunsThrough(extent, ordered, policy, next);
      assert |CutFrom(extent, ordered, policy, start).cores| == |CutFrom(extent, ordered, policy, next).cores| + 1;
    }
  }

  lemma {:induction false} RunsThroughDone(extent: Span, ordered: seq<Cue>, policy: Policy, start: int, turns: nat)
    requires CuesInside(extent, ordered) && extent.start <= start <= extent.end
    requires RunsThrough(extent, ordered, policy, start, turns)
    ensures CutFrom(extent, ordered, policy, start).Done?
    decreases turns
  {
    if turns > 0 {
      var next := Next(extent, ordered, policy, start).end;
      if next > start { NextIsGood(extent, ordered, policy, start); }
      RunsThroughDone(extent, ordered, policy, next, turns - 1);
    }
  }

  /** The running loop over this speech and these cues comes to the end of the speech. */
  ghost predicate Ends(extent: Span, cues: seq<Cue>, policy: Policy) {
    exists turns: nat :: RunsThrough(extent, OrderedCues(extent, cues), policy, extent.start, turns)
  }

  lemma EndsWhenDone(extent: Span, cues: seq<Cue>, policy: Policy)
    requires extent.Proper() && CuesInside(extent, OrderedCues(extent, cues))
    ensures Ends(extent, cues, policy) <==> CutFrom(extent, OrderedCues(extent, cues), policy, extent.start).Done?
  {
    var ordered := OrderedCues(extent, cues);
    if Ends(extent, cues, policy) {
      var turns: nat :| RunsThrough(extent, ordered, policy, extent.start, turns);
      RunsThroughDone(extent, ordered, policy, extent.start, turns);
    }
    if CutFrom(extent, ordered, policy, extent.start).Done? {
      DoneRunsThrough(extent, ordered, policy, extent.start);
    }
  }

  lemma {:induction false} PositiveEnds(extent: Span, ordered: seq<Cue>, policy: Policy, start: int)
    requires CuesInside(extent, ordered) && 1 <= policy.minimum <= policy.hardMax && extent.start <= start <= extent.end
    ensures CutFrom(extent, ordered, policy, start).Done?
    decreases extent.end - start
  {
    if start < extent.end {
      PositiveAdvances(extent, ordered, policy, start);
      NextIsGood(extent, ordered, policy, start);
      PositiveEnds(extent, ordered, policy, Next(extent, ordered, policy, start).end);
    }
  }

  /** Every speech is cut up, whatever its cues, if and only if the minimum is at least one sample. */
  lemma EndsIff(policy: Policy)
    requires policy.minimum <= policy.target <= policy.hardMax
    ensures policy.minimum >= 1 <==> forall extent: Span, cues: seq<Cue> :: extent.Proper() ==>
        Ends(extent, cues, policy)
  {
    if policy.minimum >= 1 {
      forall extent: Span, cues: seq<Cue> | extent.Proper() ensures Ends(extent, cues, policy) {
        OrderedCuesInside(extent, cues);
        PositiveEnds(extent, OrderedCues(extent, cues), policy, extent.start);
        EndsWhenDone(extent, cues, policy);
      }
    } else if policy.hardMax >= 0 {
      var extent, cues := StuckSpeech(policy);
      EndsWhenDone(extent, cues, policy);
      assert !Ends(extent, cues, policy);
    } else {
      OrderedCuesInside(Span(0, 1), []);
      NegativeMaximum(Span(0, 1), OrderedCues(Span(0, 1), []), policy);
      EndsWhenDone(Span(0, 1), [], policy);
      assert !Ends(Span(0, 1), [], policy);
    }
  }

  /** Below one sample there is speech on which the loop runs from its start and never ends. */
  lemma StuckSpeech(policy: Policy) returns (extent: Span, cues: seq<Cue>)
    requires policy.minimum <= 0 <= policy.hardMax && policy.minimum <= policy.target <= policy.hardMax
    ensures extent.Proper() && CuesInside(extent, OrderedCues(extent, cues))
    ensures CutFrom(extent, OrderedCues(extent, cues), policy, extent.start).Stuck?
    ensures forall turns: nat :: Position(extent, OrderedCues(extent, cues), policy, extent.start, turns) < extent.end
  {
    if policy.hardMax == 0 {
      extent, cues := Span(0, 1), [];
      assert Next(extent, [], policy, 0).end == 0;
    } else {
      var cue := Cue(1, NaturalPause, 1.0);
      extent, cues := Span(0, policy.hardMax + 2), [cue];
      assert OrderedCues(extent, cues) == InsertCue(OrderedCues(extent, []), cue) == cues;
      CutAtCue(policy, extent, cue, 0);
      CutAtCue(policy, extent, cue, 1);
      assert CutFrom(extent, cues, policy, 1) == Stuck(1);
    }
    forall turns: nat ensures Position(extent, OrderedCues(extent, cues), policy, extent.start, turns) < extent.end {
      StuckNeverEnds(extent, OrderedCues(extent, cues), policy, extent.start, turns);
    }
  }

  lemma CutAtCue(policy: Policy, extent: Span, cue: Cue, start: int)
    requires policy.minimum <= 0 < policy.hardMax && cue == Cue(1, NaturalPause, 1.0)
        && extent == Span(0, policy.hardMax + 2)
    requires 0 <= start <= 1
    ensures Next(extent, [cue], policy, start).end == 1
  {
    var mandatory, lower, upper := MandatorySamples([cue]), start + policy.minimum,
        Min(start + policy.hardMax, extent.end);
    assert [cue][..0] == [];
    assert OnlyAt([], mandatory) == [] && Within([], start + 1, start + policy.hardMax) == []
        && Within([], lower, upper) == [];
    assert OnlyAt([cue], mandatory) == [] by { assert !cue.Mandatory(); }
    assert Within([cue], lower, upper) == [cue];
    assert Best([cue], start + policy.target) == cue;
  }

  /** With a negative maximum the first core of any speech would end before it begins. */
  lemma NegativeMaximum(extent: Span, ordered: seq<Cue>, policy: Policy)
    requires policy.minimum <= policy.hardMax < 0 && extent.start < extent.end && CuesInside(extent, ordered)
    ensures CutFrom(extent, ordered, policy, extent.start) == Backwards(extent.start)
  {
    FirstMandatory(extent, ordered, policy, extent.start);
    WithinMembers(ordered, extent.start + policy.minimum, Min(extent.start + policy.hardMax, extent.end));
  }

  /** Non-empty cores, end to end from one sample to another. */
  predicate Tile(cores: seq<Core>, from: int, to: int) {
    && (forall i :: 0 <= i < |cores| ==> cores[i].start < cores[i].end)
    && (forall i :: 0 < i < |cores| ==> cores[i - 1].end == cores[i].start)
    && (if cores == [] then from == to else cores[0].start == from && cores[|cores| - 1].end == to)
  }

  ghost predicate AllGood(cores: seq<Core>, extent: Span, ordered: seq<Cue>, policy: Policy) {
    forall i :: 0 <= i < |cores| ==> GoodCore(cores[i], extent, ordered, policy)
  }

  lemma {:induction false} CoresAreGood(extent: Span, ordered: seq<Cue>, policy: Policy, start: int)
    requires CuesInside(extent, ordered) && extent.start <= start <= extent.end
        && CutFrom(extent, ordered, policy, start).Done?
    ensures Tile(CutFrom(extent, ordered, policy, start).cores, start, extent.end)
    ensures AllGood(CutFrom(extent, ordered, policy, start).cores, extent, ordered, policy)
    decreases extent.end - start
  {
    if start < extent.end {
      var core := Next(extent, ordered, policy, start);
      NextIsGood(extent, ordered, policy, start);
      CoresAreGood(extent, ordered, policy, core.end);
      var rest := CutFrom(extent, ordered, policy, core.end).cores;
      assert CutFrom(extent, ordered, policy, start).cores == [core] + rest;
      TileMore(core, rest, extent.end);
      GoodMore(core, rest, extent, ordered, policy);
    }
  }

  lemma TileMore(core: Core, rest: seq<Core>, to: int)
    requires core.start < core.end && Tile(rest, core.end, to)
    ensures Tile([core] + rest, core.start, to)
  {
    var all := [core] + rest;
    assert forall i :: 0 < i < |all| ==> all[i] == rest[i - 1];
  }

  lemma GoodMore(core: Core, rest: seq<Core>, extent: Span, ordered: seq<Cue>, policy: Policy)
    requires GoodCore(core, extent, ordered, policy) && AllGood(rest, extent, ordered, policy)
    ensures AllGood([core] + rest, extent, ordered, policy)
  {
  }

  ghost predicate AllCutRight(cores: seq<Core>, extent: Span, ordered: seq<Cue>, policy: Policy) {
    forall i :: 0 <= i < |cores| ==> CutRight(cores[i], extent, ordered, policy)
  }

  lemma {:induction false} CoresCutRight(extent: Span, ordered: seq<Cue>, policy: Policy, start: int)
    requires CuesInside(extent, ordered) && extent.start <= start <= extent.end
        && CutFrom(extent, ordered, policy, start).Done?
    ensures AllCutRight(CutFrom(extent, ordered, policy, start).cores, extent, ordered, policy)
    decreases extent.end - start
  {
    if start < extent.end {
      var core := NextCutsRight(extent, ordered, policy, start);
      NextIsGood(extent, ordered, policy, start);
      CoresCutRight(extent, ordered, policy, core.end);
      CutRightMore(core, CutFrom(extent, ordered, policy, core.end).cores, extent, ordered, policy);
    }
  }

  lemma CutRightMore(core: Core, rest: seq<Core>, extent: Span, ordered: seq<Cue>, policy: Policy)
    requires CutRight(core, extent, ordered, policy) && AllCutRight(rest, extent, ordered, policy)
    ensures AllCutRight([core] + rest, extent, ordered, policy)
  {
  }

  // ----- The last core -----

  function HardEnds(cores: seq<Core>): set<int> {
    set i | 0 <= i < |cores| && cores[i].hard :: cores[i].end
  }

  /** A short last core joins the one before it, unless that breaks the maximum or a mandatory boundary. */
  predicate Joins(cores: seq<Core>, mandatory: set<int>, policy: Policy) {
    && |cores| > 1 && Length(cores[|cores| - 1]) < policy.minimum
    && cores[|cores| - 1].end - cores[|cores| - 2].start <= policy.hardMax
    && cores[|cores| - 2].end !in mandatory
  }

  function Joined(cores: seq<Core>): seq<Core>
    requires |cores| > 1
  {
    var previous, final := cores[|cores| - 2], cores[|cores| - 1];
    cores[..|cores| - 2] + [Core(previous.start, final.end, final.reason, previous.hard || final.hard)]
  }

  /** What the finished cores promise; a boundary inside the speech is a hard cut or a cue, and a hard cut had no cue
      to use. */
  ghost predicate Finished(cores: seq<Core>, hardEnds: set<int>, extent: Span, ordered: seq<Cue>, policy: Policy) {
    && Tile(cores, extent.start, extent.end)
    && (forall i :: 0 <= i < |cores| ==> WholeCore(cores[i], ordered, policy))
    && (forall i :: 0 <= i < |cores| - 1 ==> GoodBoundary(cores[i], hardEnds, ordered, policy))
    && (forall b :: b in hardEnds ==> exists i :: 0 <= i < |cores| - 1 && cores[i].end == b)
  }

  ghost predicate WholeCore(c: Core, ordered: seq<Cue>, policy: Policy) {
    Length(c) <= policy.hardMax && forall m :: MandatoryAt(ordered, m) ==> !(c.start < m < c.end)
  }

  ghost predicate GoodBoundary(c: Core, hardEnds: set<int>, ordered: seq<Cue>, policy: Policy) {
    if c.end in hardEnds then Length(c) == policy.hardMax && NoCueWithin(ordered, c.start + policy.minimum, c.end)
    else CueAt(ordered, c.end)
  }

  lemma {:induction false} TileIncreasing(cores: seq<Core>, from: int, to: int, i: nat, j: nat)
    requires Tile(cores, from, to) && i < j < |cores|
    ensures cores[i].end <= cores[j].start
    decreases j - i
  {
    if i + 1 < j { TileIncreasing(cores, from, to, i + 1, j); }
  }

  /** The ends of a tiling differ. */
  lemma SameEnd(cores: seq<Core>, from: int, to: int, i: nat, j: nat)
    requires Tile(cores, from, to) && i < |cores| && j < |cores| && cores[i].end == cores[j].end
    ensures i == j
  {
    if i < j { TileIncreasing(cores, from, to, i, j); } else if j < i { TileIncreasing(cores, from, to, j, i); }
  }

  lemma UnjoinedFinished(cores: seq<Core>, extent: Span, ordered: seq<Cue>, policy: Policy)
    requires Tile(cores, extent.start, extent.end) && AllGood(cores, extent, ordered, policy)
    ensures Finished(cores, HardEnds(cores), extent, ordered, policy)
  {
    var hardEnds := HardEnds(cores);
    forall i | 0 <= i < |cores| - 1 ensures GoodBoundary(cores[i], hardEnds, ordered, policy) {
      HardIff(cores, extent, i);
      TileIncreasing(cores, extent.start, extent.end, i, |cores| - 1);
    }
    forall b | b in hardEnds ensures exists i :: 0 <= i < |cores| - 1 && cores[i].end == b {
      var i :| 0 <= i < |cores| && cores[i].hard && cores[i].end == b;
      assert cores[i].end < extent.end;
      assert i < |cores| - 1;
    }
  }

  lemma HardIff(cores: seq<Core>, extent: Span, i: nat)
    requires Tile(cores, extent.start, extent.end) && i < |cores|
    ensures cores[i].end in HardEnds(cores) <==> cores[i].hard
  {
    if cores[i].end in HardEnds(cores) {
      var j :| 0 <= j < |cores| && cores[j].hard && cores[j].end == cores[i].end;
      SameEnd(cores, extent.start, extent.end, i, j);
    }
  }

  lemma JoinedFinished(cores: seq<Core>, hardEnds: set<int>, extent: Span, ordered: seq<Cue>, policy: Policy)
    requires Finished(cores, hardEnds, extent, ordered, policy) && Joins(cores, MandatorySamples(ordered), policy)
    ensures Finished(Joined(cores), hardEnds - {cores[|cores| - 2].end}, extent, ordered, policy)
  {
    var after, n, middle := Joined(cores), |cores|, cores[|cores| - 2].end;
    forall i | 0 <= i < |after| ensures WholeCore(after[i], ordered, policy) {
      if i < n - 2 { assert after[i] == cores[i]; }
    }
    forall i | 0 <= i < |after| - 1 ensures GoodBoundary(after[i], hardEnds - {middle}, ordered, policy) {
      assert after[i] == cores[i] && GoodBoundary(cores[i], hardEnds, ordered, policy);
      TileIncreasing(cores, extent.start, extent.end, i, n - 2);
    }
    forall b | b in hardEnds - {middle} ensures exists i :: 0 <= i < |after| - 1 && after[i].end == b {
      var i :| 0 <= i < n - 1 && cores[i].end == b;
      assert after[i] == cores[i];
    }
  }

  /** Every speaker or language boundary inside the speech ends a core. */
  lemma MandatoryKept(cores: seq<Core>, hardEnds: set<int>, extent: Span, ordered: seq<Cue>, policy: Policy, m: int)
    requires Finished(cores, hardEnds, extent, ordered, policy)
    requires MandatoryAt(ordered, m) && extent.start < m < extent.end
    ensures exists i :: 0 <= i < |cores| - 1 && cores[i].end == m
  {
    var i := FindCore(cores, extent.start, extent.end, m - 1);
    assert WholeCore(cores[i], ordered, policy);
    assert cores[i].end == m;
  }

  /** A tiling has one core at each sample. */
  lemma FindCore(cores: seq<Core>, from: int, to: int, t: int) returns (i: nat)
    requires Tile(cores, from, to) && from <= t < to
    ensures i < |cores| && cores[i].start <= t < cores[i].end
  {
    i := 0;
    while cores[i].end <= t
      invariant i < |cores| && cores[i].start <= t
      decreases |cores| - i
    {
      i := i + 1;
    }
  }

  // ----- The chunks -----

  datatype Chunk = Chunk(ordinal: nat, core: Span, audio: Span, reason: Reason, hardSplit: bool, before: int,
                         after: int)

  function ChunkOf(extent: Span, core: Core, ordinal: nat, hardEnds: set<int>, overlap: int): Chunk {
    var before := if core.start in hardEnds then overlap else 0;
    var after := if core.end in hardEnds then overlap else 0;
    Chunk(ordinal, Span(core.start, core.end),
          Span(Max(extent.start, core.start - before), Min(extent.end, core.end + after)),
          core.reason, before != 0 || after != 0, before, after)
  }

  /** The cores behind the chunks, and where the hard cuts are. */
  ghost predicate ChunksOf(chunks: seq<Chunk>, cores: seq<Core>, hardEnds: set<int>, extent: Span, overlap: int) {
    |chunks| == |cores| && forall i :: 0 <= i < |chunks| ==>
        chunks[i] == ChunkOf(extent, cores[i], i, hardEnds, overlap)
  }

  /** The cutting loop, up to the turn that raises or that every later turn repeats. */
  method CutCores(extent: Span, ordered: seq<Cue>, policy: Policy) returns (plan: Plan, hardBoundaries: set<int>)
    requires CuesInside(extent, ordered) && extent.Proper()
    ensures plan == CutFrom(extent, ordered, policy, extent.start)
    ensures plan.Done? ==> hardBoundaries == HardEnds(plan.cores)
    ensures plan.Done? ==> AllCutRight(plan.cores, extent, ordered, policy)
    ensures plan.Done? ==> Finished(plan.cores, hardBoundaries, extent, ordered, policy)
  {
    var cores: seq<Core> := [];
    hardBoundaries := {};
    var start := extent.start;
    while start < extent.end
      invariant extent.start <= start <= extent.end && hardBoundaries == HardEnds(cores)
      invariant Prepend(cores, CutFrom(extent, ordered, policy, start))
          == CutFrom(extent, ordered, policy, extent.start)
      decreases extent.end - start
    {
      var core := NextCore(extent, ordered, policy, start);
      if core.end < start { return Backwards(start), hardBoundaries; }
      if core.end == start { return Stuck(start), hardBoundaries; }
      NextIsGood(extent, ordered, policy, start);
      HardEndsMore(cores, core);
      PrependStep(cores, extent, ordered, policy, start);
      if core.hard { hardBoundaries := hardBoundaries + {core.end}; }
      cores := cores + [core];
      start := core.end;
    }
    assert cores + [] == cores;
    plan := Done(cores);
    CoresAreGood(extent, ordered, policy, extent.start);
    CoresCutRight(extent, ordered, policy, extent.start);
    UnjoinedFinished(cores, extent, ordered, policy);
  }

  function Prepend(done: seq<Core>, plan: Plan): Plan {
    match plan case Done(cores) => Done(done + cores) case Stuck(at) => Stuck(at) case Backwards(at) => Backwards(at)
  }

  lemma PrependStep(done: seq<Core>, extent: Span, ordered: seq<Cue>, policy: Policy, start: int)
    requires CuesInside(extent, ordered) && extent.start <= start < extent.end
        && Next(extent, ordered, policy, start).end > start
    ensures var core := Next(extent, ordered, policy, start);
      && core.end <= extent.end
      && Prepend(done + [core], CutFrom(extent, ordered, policy, core.end))
          == Prepend(done, CutFrom(extent, ordered, policy, start))
  {
    NextIsGood(extent, ordered, policy, start);
    var core := Next(extent, ordered, policy, start);
    match CutFrom(extent, ordered, policy, core.end)
    case Done(rest) => assert done + [core] + rest == done + ([core] + rest);
    case _ =>
  }

  lemma HardEndsMore(cores: seq<Core>, core: Core)
    ensures HardEnds(cores + [core]) == HardEnds(cores) + if core.hard then {core.end} else {}
  {
    var all := cores + [core];
    assert all[|cores|] == core;
    forall e ensures e in HardEnds(all) <==> e in HardEnds(cores) + if core.hard then {core.end} else {} {
      if e in HardEnds(cores) {
        var i :| 0 <= i < |cores| && cores[i].hard && cores[i].end == e;
        assert all[i].hard && all[i].end == e;
      }
      if e in HardEnds(all) {
        var i :| 0 <= i < |all| && all[i].hard && all[i].end == e;
        if i < |cores| { assert cores[i].hard; }
      }
    }
  }

  /** One turn of the loop: a mandatory cue, the end of the speech, the best cue, or a hard cut. */
  method NextCore(extent: Span, ordered: seq<Cue>, policy: Policy, start: int) returns (core: Core)
    ensures core == Next(extent, ordered, policy, start)
  {
    var mandatoryBoundaries := MandatorySamples(ordered);
    var remaining := extent.end - start;
    var mandatory := Within(OnlyAt(ordered, mandatoryBoundaries), start + 1, start + policy.hardMax);
    if mandatory != [] {
      return Core(start, mandatory[0].sample, AtCue(mandatory[0].kind), false);
    }
    if remaining <= policy.hardMax {
      return Core(start, extent.end, EndOfSpeech, false);
    }
    var lower, upper := start + policy.minimum, Min(start + policy.hardMax, extent.end);
    var candidates := Within(ordered, lower, upper);
    if candidates != [] {
      var cue := Best(candidates, start + policy.target);
      return Core(start, cue.sample, AtCue(cue.kind), false);
    }
    return Core(start, upper, HardMax, true);
  }

  /** The last two cores become one exactly when the last is shorter than the minimum, both together are within the
      maximum, and no speaker or language boundary lies between them; the hard cut between them is then forgotten. */
  ghost predicate TailJoined(parts: seq<Core>, ordered: seq<Cue>, policy: Policy, cores: seq<Core>, hardEnds: set<int>)
  {
    var n := |parts|;
    if n > 1 && parts[n - 1].end - parts[n - 1].start < policy.minimum
      && parts[n - 1].end - parts[n - 2].start <= policy.hardMax && !MandatoryAt(ordered, parts[n - 2].end)
    then
      && cores == parts[..n - 2] + [Core(parts[n - 2].start, parts[n - 1].end, parts[n - 1].reason,
                                         parts[n - 2].hard || parts[n - 1].hard)]
      && forall e :: e in hardEnds <==> e != parts[n - 2].end && HardCutAt(parts, e)
    else
      cores == parts && forall e :: e in hardEnds <==> HardCutAt(parts, e)
  }

  ghost predicate HardCutAt(parts: seq<Core>, sample: int) {
    exists i :: 0 <= i < |parts| && parts[i].hard && parts[i].end == sample
  }

  /** Chunks; an error; or no return at all, because the loop stays at a sample for good. */
  datatype Outcome = Chunks(chunks: seq<Chunk>) | Raises(message: string) | Forever(at: int)

  /** What comes of cutting: chunks behind which are finished cores, exactly when the loop ends. */
  ghost predicate Cut(outcome: Outcome, extent: Span, ordered: seq<Cue>, policy: Policy, cores: seq<Core>,
                      hardEnds: set<int>)
    requires CuesInside(extent, ordered) && extent.Proper()
  {
    match CutFrom(extent, ordered, policy, extent.start)
    case Stuck(at) => outcome == Forever(at)
    case Backwards(_) => outcome.Raises?
    case Done(parts) =>
      && outcome.Chunks? && ChunksOf(outcome.chunks, cores, hardEnds, extent, policy.overlap)
      && Tile(parts, extent.start, extent.end) && AllCutRight(parts, extent, ordered, policy)
      && Finished(cores, hardEnds, extent, ordered, policy)
      && TailJoined(parts, ordered, policy, cores, hardEnds)
  }

  method MakeTranscriptChunks(extent: Span, cues: seq<Cue>, policy: Policy)
    returns (outcome: Outcome, ghost cores: seq<Core>, ghost hardEnds: set<int>)
    requires extent.Proper()
    ensures !policy.Legal() ==> outcome.Raises?
    ensures policy.Legal() ==>
      (OrderedCuesInside(extent, cues); Cut(outcome, extent, OrderedCues(extent, cues), policy, cores, hardEnds))
    ensures policy.Legal() && policy.minimum >= 1 ==> outcome.Chunks?
  {
    cores, hardEnds := [], {};
    if !(policy.minimum <= policy.target <= policy.hardMax) {
      return Raises("text chunk target must lie between min and hard max"), [], {};
    }
    if !(8 * SAMPLE_RATE / 10 <= policy.overlap <= 15 * SAMPLE_RATE / 10) {
      return Raises("hard-cut context must be 0.8 to 1.5 seconds on each side"), [], {};
    }
    var ordered := OrderedCues(extent, cues);
    OrderedCuesInside(extent, cues);
    if policy.minimum >= 1 { PositiveEnds(extent, ordered, policy, extent.start); }
    var plan, hardBoundaries := CutCores(extent, ordered, policy);
    match plan
    case Stuck(at) => outcome := Forever(at);
    case Backwards(_) => outcome := Raises("end_sample must be greater than or equal to start_sample");
    case Done(parts) =>
      var joined, left := JoinTail(parts, hardBoundaries, extent, ordered, policy);
      var chunks := BuildChunks(extent, joined, left, policy.overlap);
      outcome, cores, hardEnds := Chunks(chunks), joined, left;
  }

  lemma OrderedCuesInside(extent: Span, cues: seq<Cue>)
    ensures CuesInside(extent, OrderedCues(extent, cues))
  {
    OrderedCuesSorted(extent, cues);
    OrderedCuesMembers(extent, cues);
  }

  /** The last core joins its neighbour when it may. */
  method JoinTail(parts: seq<Core>, hardEnds: set<int>, extent: Span, ordered: seq<Cue>, policy: Policy)
    returns (cores: seq<Core>, hardBoundaries: set<int>)
    requires Finished(parts, hardEnds, extent, ordered, policy)
    requires hardEnds == HardEnds(parts)
    ensures Finished(cores, hardBoundaries, extent, ordered, policy)
    ensures TailJoined(parts, ordered, policy, cores, hardBoundaries)
  {
    cores, hardBoundaries := parts, hardEnds;
    if Joins(parts, MandatorySamples(ordered), policy) {
      JoinedFinished(parts, hardBoundaries, extent, ordered, policy);
      hardBoundaries := hardBoundaries - {parts[|parts| - 2].end};
      cores := Joined(parts);
    }
  }

  method BuildChunks(extent: Span, parts: seq<Core>, hardBoundaries: set<int>, overlap: int)
    returns (chunks: seq<Chunk>)
    ensures ChunksOf(chunks, parts, hardBoundaries, extent, overlap)
  {
    chunks := [];
    for i := 0 to |parts|
      invariant |chunks| == i
      invariant forall k :: 0 <= k < i ==> chunks[k] == ChunkOf(extent, parts[k], k, hardBoundaries, overlap)
    {
      chunks := chunks + [ChunkOf(extent, parts[i], i, hardBoundaries, overlap)];
    }
  }

  // ----- Tokens and cores -----

  function Midpoint(token: Span): int { (token.start + token.end) / 2 }

  predicate Overlaps(a: Span, b: Span) { a.start < b.end && b.start < a.end }

  predicate Heard(chunk: Chunk, token: Span) {
    chunk.audio.start <= token.start && token.end <= chunk.audio.end
  }

  /** The chunk heard the token and its evidence keeps it: everything when there is no context, else by midpoint. */
  predicate Keeps(chunk: Chunk, token: Span) {
    Heard(chunk, token)
    && (chunk.audio == chunk.core
        || (chunk.core.start <= Midpoint(token) < chunk.core.end && Overlaps(token, chunk.core)))
  }

  /** A chunk hears its core and, across a hard cut, the overlap, as far as there is speech. */
  lemma ChunkHears(chunks: seq<Chunk>, cores: seq<Core>, hardEnds: set<int>, extent: Span, overlap: int, i: nat, t: int)
    requires ChunksOf(chunks, cores, hardEnds, extent, overlap) && Tile(cores, extent.start, extent.end)
        && overlap > 0 && i < |chunks|
    ensures chunks[i].ordinal == i && chunks[i].core == Span(cores[i].start, cores[i].end)
        && chunks[i].reason == cores[i].reason
    ensures chunks[i].hardSplit <==> cores[i].start in hardEnds || cores[i].end in hardEnds
    ensures chunks[i].before == (if cores[i].start in hardEnds then overlap else 0)
        && chunks[i].after == if cores[i].end in hardEnds then overlap else 0
    ensures chunks[i].audio.Has(t) <==>
      && extent.start <= t < extent.end
      && (|| cores[i].start <= t < cores[i].end
          || (cores[i].start in hardEnds && cores[i].start - overlap <= t < cores[i].start)
          || (cores[i].end in hardEnds && cores[i].end <= t < cores[i].end + overlap))
  {
    TileBounds(cores, extent.start, extent.end, i);
  }

  /** The chunk's audio holds its core. */
  lemma AudioHoldsCore(chunks: seq<Chunk>, cores: seq<Core>, hardEnds: set<int>, extent: Span, overlap: int, i: nat)
    requires ChunksOf(chunks, cores, hardEnds, extent, overlap) && Tile(cores, extent.start, extent.end)
        && overlap >= 0 && i < |chunks|
    ensures chunks[i].core == Span(cores[i].start, cores[i].end)
    ensures chunks[i].audio.start <= cores[i].start && cores[i].end <= chunks[i].audio.end
  {
    TileBounds(cores, extent.start, extent.end, i);
  }

  /** Only the chunk whose core has a token's midpoint can keep it. */
  lemma KeptByMidpoint(chunk: Chunk, token: Span)
    requires token.start < token.end && Keeps(chunk, token)
    ensures chunk.core.Has(Midpoint(token))
  {
  }

  /** No token is kept twice. */
  lemma KeptAtMostOnce(chunks: seq<Chunk>, cores: seq<Core>, hardEnds: set<int>, extent: Span, overlap: int,
                       token: Span, i: nat, j: nat)
    requires ChunksOf(chunks, cores, hardEnds, extent, overlap) && Tile(cores, extent.start, extent.end)
    requires token.start < token.end && i < |chunks| && j < |chunks| && Keeps(chunks[i], token)
        && Keeps(chunks[j], token)
    ensures i == j
  {
    KeptByMidpoint(chunks[i], token);
    KeptByMidpoint(chunks[j], token);
    if i < j { TileIncreasing(cores, extent.start, extent.end, i, j); }
    if j < i { TileIncreasing(cores, extent.start, extent.end, j, i); }
  }

  ghost predicate KeptOnlyBy(chunks: seq<Chunk>, token: Span, j: nat) {
    j < |chunks| && Keeps(chunks[j], token) && forall k :: 0 <= k < |chunks| && Keeps(chunks[k], token) ==> k == j
  }

  /** Every token of the speech, of any length and across any boundaries, has one core that may keep it, and that core
      keeps it exactly when its chunk heard all of it. */
  lemma TokenKeptIffHeard(chunks: seq<Chunk>, cores: seq<Core>, hardEnds: set<int>, extent: Span, overlap: int,
                          token: Span)
    returns (j: nat)
    requires ChunksOf(chunks, cores, hardEnds, extent, overlap) && Tile(cores, extent.start, extent.end) && overlap >= 0
    requires extent.start <= token.start < token.end <= extent.end
    ensures j < |chunks| && chunks[j].core.Has((token.start + token.end) / 2)
    ensures KeptOnlyBy(chunks, token, j) <==> Heard(chunks[j], token)
    ensures forall k :: 0 <= k < |chunks| && k != j ==> !Keeps(chunks[k], token)
  {
    j := FindCore(cores, extent.start, extent.end, Midpoint(token));
    AudioHoldsCore(chunks, cores, hardEnds, extent, overlap, j);
    forall k | 0 <= k < |chunks| && Keeps(chunks[k], token) ensures k == j {
      KeptByMidpoint(chunks[k], token);
      if k < j { TileIncreasing(cores, extent.start, extent.end, k, j); }
      if j < k { TileIncreasing(cores, extent.start, extent.end, j, k); }
    }
  }

  /** In particular a token across a hard cut, no longer than the context on both sides, is kept by exactly one
      chunk. */
  lemma StraddlerIsKeptOnce(chunks: seq<Chunk>, cores: seq<Core>, hardEnds: set<int>, extent: Span, ordered: seq<Cue>,
                            policy: Policy,
                            token: Span, i: nat)
    requires Finished(cores, hardEnds, extent, ordered, policy)
        && ChunksOf(chunks, cores, hardEnds, extent, policy.overlap)
    requires i + 1 < |cores| && cores[i].end in hardEnds && policy.overlap > 0
    requires cores[i].start <= token.start < cores[i].end < token.end <= cores[i + 1].end
    requires token.end - token.start <= 2 * policy.overlap
    ensures KeptOnlyBy(chunks, token, if (token.start + token.end) / 2 < cores[i].end then i else i + 1)
  {
    var home := if Midpoint(token) < cores[i].end then i else i + 1;
    assert cores[i + 1].start == cores[i].end;
    TileBounds(cores, extent.start, extent.end, i);
    TileBounds(cores, extent.start, extent.end, i + 1);
    var j := TokenKeptIffHeard(chunks, cores, hardEnds, extent, policy.overlap, token);
    HomeHears(chunks[home], extent, cores[home], home, hardEnds, policy.overlap, token, cores[i].end);
    assert Keeps(chunks[home], token);
  }

  /** The chunk of a core heard a token that crosses its hard end by no more than the context. */
  lemma HomeHears(chunk: Chunk, extent: Span, core: Core, ordinal: nat, hardEnds: set<int>, overlap: int, token: Span,
                  cut: int)
    requires chunk == ChunkOf(extent, core, ordinal, hardEnds, overlap) && cut in hardEnds
    requires extent.start <= token.start < cut < token.end <= extent.end && token.end - token.start <= 2 * overlap
    requires (core.end == cut && core.start <= token.start && Midpoint(token) < cut)
          || (core.start == cut && token.end <= core.end && cut <= Midpoint(token))
    ensures Heard(chunk, token)
  {
  }

  // ----- The kept part of a token -----

  /** A token cut back to a core. */
  function Trimmed(core: Span, token: Span): Span { Span(Max(core.start, token.start), Min(core.end, token.end)) }

  /** What the evidence of a chunk keeps: without context everything as it is, else by midpoint and trimmed. */
  function CoreEvidence(chunk: Chunk, tokens: seq<Span>): seq<Span> {
    if chunk.audio == chunk.core then tokens else Selected(chunk.core, tokens)
  }

  function Selected(core: Span, tokens: seq<Span>): seq<Span> {
    if tokens == [] then []
    else
      var last := tokens[|tokens| - 1];
      Selected(core, tokens[..|tokens| - 1])
      + if core.start <= Midpoint(last) < core.end && Overlaps(last, core) then [Trimmed(core, last)] else []
  }

  /** The kept tokens of a chunk, each as the samples it shares with the core. */
  function KeptParts(chunk: Chunk, tokens: seq<Span>): seq<Span> {
    if tokens == [] then []
    else
      var last := tokens[|tokens| - 1];
      KeptParts(chunk, tokens[..|tokens| - 1]) + if Keeps(chunk, last) then [Trimmed(chunk.core, last)] else []
  }

  ghost predicate AllHeard(chunk: Chunk, tokens: seq<Span>) {
    forall k :: 0 <= k < |tokens| ==> Heard(chunk, tokens[k])
  }

  /** The early return for chunks without context keeps exactly what the midpoint rule would. */
  lemma {:induction false} EvidenceIsKeptParts(chunk: Chunk, tokens: seq<Span>)
    requires AllHeard(chunk, tokens)
    ensures CoreEvidence(chunk, tokens) == KeptParts(chunk, tokens)
  {
    if tokens != [] {
      var front, last := tokens[..|tokens| - 1], tokens[|tokens| - 1];
      EvidenceIsKeptParts(chunk, front);
      assert Heard(chunk, last);
      assert tokens == front + [last];
      if chunk.audio == chunk.core { assert Trimmed(chunk.core, last) == last; }
    }
  }

  /** The kept part of a token is not empty, holds its midpoint, and is the token's share of the core. */
  lemma KeptPartIsShare(chunk: Chunk, token: Span)
    requires token.start < token.end && Keeps(chunk, token)
    ensures var part := Trimmed(chunk.core, token);
      && part.Has((token.start + token.end) / 2) && chunk.core.start <= part.start && part.end <= chunk.core.end
      && Range(part.start, part.end) == Range(token.start, token.end) * Range(chunk.core.start, chunk.core.end)
  {
  }

  /** What an earlier chunk keeps ends before anything a later one keeps begins. */
  lemma KeptPartsInOrder(chunks: seq<Chunk>, cores: seq<Core>, hardEnds: set<int>, extent: Span, overlap: int, i: nat,
                         j: nat,
                         left: Span, right: Span)
    requires ChunksOf(chunks, cores, hardEnds, extent, overlap) && Tile(cores, extent.start, extent.end)
        && i < j < |chunks|
    requires left.start < left.end && right.start < right.end && Keeps(chunks[i], left) && Keeps(chunks[j], right)
    ensures Trimmed(chunks[i].core, left).end <= Trimmed(chunks[j].core, right).start
  {
    TileIncreasing(cores, extent.start, extent.end, i, j);
  }

  lemma TileBounds(cores: seq<Core>, from: int, to: int, i: nat)
    requires Tile(cores, from, to) && i < |cores|
    ensures from <= cores[i].start && cores[i].end <= to
  {
    if 0 < i { TileIncreasing(cores, from, to, 0, i); }
    if i < |cores| - 1 { TileIncreasing(cores, from, to, i, |cores| - 1); }
  }

  /** A token of no length is kept unless it sits exactly where its core begins: there no core overlaps it. */
  lemma EmptyTokenKeptIff(chunk: Chunk, t: int)
    requires Heard(chunk, Span(t, t)) && chunk.audio != chunk.core
    ensures Keeps(chunk, Span(t, t)) <==> chunk.core.start < t < chunk.core.end
  {
  }
}
