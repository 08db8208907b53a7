/** Language identification windows, hysteretic routing over them, and the spans that reach storage. */
module Lid {
  import opened Common
  import opened Intervals

  // ----- Sliding windows -----

  /** Windows of one length, none past the total, each beginning after the last began and by its end. */
  predicate Windows(windows: seq<Span>, total: int, length: int) {
    && (forall i :: 0 <= i < |windows| ==>
        0 <= windows[i].start && windows[i].end <= total && windows[i].end - windows[i].start == length)
    && (forall i :: 0 < i < |windows| ==> windows[i - 1].start < windows[i].start <= windows[i - 1].end)
  }

  lemma WindowsAdd(windows: seq<Span>, total: int, length: int, w: Span)
    requires Windows(windows, total, length) && 0 <= w.start && w.end <= total && w.end - w.start == length
    requires windows != [] ==> windows[|windows| - 1].start < w.start <= windows[|windows| - 1].end
    ensures Windows(windows + [w], total, length)
  {
    var all := windows + [w];
    forall i | 0 < i < |all| ensures all[i - 1].start < all[i].start <= all[i - 1].end {
      if i < |windows| { assert all[i] == windows[i] && all[i - 1] == windows[i - 1]; }
    }
  }

  /** One step apart as long as that leaves room, and no window more than it takes. */
  ghost predicate Strides(windows: seq<Span>, latest: int, step: int) {
    && (forall i {:trigger windows[i]} :: 0 <= i < |windows| ==> windows[i].start == Min(i * step, latest))
    && (|windows| - 2) * step < latest <= (|windows| - 1) * step
  }

  method SlidingWindows(total: int, window: int, step: int) returns (result: Result<seq<Span>>)
    ensures result.Ok? <==> total >= 0 && 3 * SAMPLE_RATE <= window <= 8 * SAMPLE_RATE && 0 < step <= window
    ensures result.Ok? && total == 0 ==> result.value == []
    ensures result.Ok? && total > 0 ==>
      && result.value != [] && Windows(result.value, total, Min(window, total))
      && result.value[0].start == 0 && result.value[|result.value| - 1].end == total
    ensures result.Ok? && total > window ==> Strides(result.value, total - window, step)
  {
    if total < 0 || !(3 * SAMPLE_RATE <= window <= 8 * SAMPLE_RATE) {
      return Err("LID windows must be 3 to 8 seconds");
    }
    if step <= 0 || step > window {
      return Err("invalid LID step");
    }
    if total == 0 { return Ok([]); }
    if total <= window { return Ok([Span(0, total)]); }
    var windows := FullWindows(total, window, step);
    var last := windows[|windows| - 1];
    ghost var full := windows;
    if last.end < total {
      var final := Span(total - window, total);
      if final != last {
        WindowsAdd(windows, total, window, final);
        windows := windows + [final];
      }
    }
    StridesEnd(full, total, window, step, windows);
    result := Ok(windows);
  }

  lemma StridesEnd(full: seq<Span>, total: int, window: int, step: int, windows: seq<Span>)
    requires 0 < step <= window < total && full != [] && Windows(full, total, window)
    requires forall i {:trigger full[i]} :: 0 <= i < |full| ==> full[i].start == i * step
    requires full[|full| - 1].start + step + window > total
    requires windows == if full[|full| - 1].end < total then full + [Span(total - window, total)] else full
    ensures Strides(windows, total - window, step)
  {
    var n := |full| - 1;
    assert (n + 1) * step == n * step + step && (n - 1) * step == n * step - step;
    assert full[n].start == n * step;
    forall i {:trigger windows[i]} | 0 <= i < |windows| ensures windows[i].start == Min(i * step, total - window) {
      if i <= n {
        assert windows[i] == full[i];
        StepsRise(i, n, step);
      }
    }
  }

  lemma StepsRise(i: nat, n: nat, step: int)
    requires i <= n && step > 0
    ensures i * step <= n * step
  {
    assert (n - i) * step >= 0;
    assert n * step == i * step + (n - i) * step;
  }

  /** One window per step while a whole one fits. */
  method FullWindows(total: int, window: int, step: int) returns (windows: seq<Span>)
    requires 0 < step <= window < total
    ensures windows != [] && Windows(windows, total, window) && windows[0].start == 0
    ensures windows[|windows| - 1].start + step + window > total
    ensures forall i {:trigger windows[i]} :: 0 <= i < |windows| ==> windows[i].start == i * step
  {
    windows := [Span(0, window)];
    var start := step;
    while start + window <= total
      invariant windows != [] && Windows(windows, total, window) && windows[0].start == 0
      invariant start == windows[|windows| - 1].start + step
      invariant forall i {:trigger windows[i]} :: 0 <= i < |windows| ==> windows[i].start == i * step
    {
      assert |windows| * step == (|windows| - 1) * step + step;
      WindowsAdd(windows, total, window, Span(start, start + window));
      windows := windows + [Span(start, start + window)];
      start := start + step;
    }
  }

  /** Windows that touch leave no sample unheard. */
  lemma {:induction false} WindowsCover(windows: seq<Span>, total: int, length: int, t: int)
    requires Windows(windows, total, length) && windows != [] && windows[0].start <= t < windows[|windows| - 1].end
    ensures exists i :: 0 <= i < |windows| && windows[i].Has(t)
  {
    var last := windows[|windows| - 1];
    if last.start <= t {
      assert last.Has(t);
    } else {
      var front := windows[..|windows| - 1];
      WindowsCover(front, total, length, t);
      var i :| 0 <= i < |front| && front[i].Has(t);
      assert windows[i].Has(t);
    }
  }

  // ----- Observations -----

  datatype Language = Chinese | Japanese | English

  datatype Observation = Observation(span: Span, chinese: real, japanese: real, english: real) {
    function Of(l: Language): real {
      match l case Chinese => chinese case Japanese => japanese case English => english
    }

    /** The likeliest language; the first in order among equals. */
    function Top(): (top: Language)
      ensures forall l :: Of(l) <= Of(top)
    {
      if chinese >= japanese && chinese >= english then Chinese else if japanese >= english then Japanese else English
    }

    predicate Names(l: Language, threshold: real) { Top() == l && Of(l) >= threshold }
  }

  /** An observation names a language that is likely enough, likelier than those before it and as likely as those
      after it. */
  lemma NamesMeans(o: Observation, l: Language, threshold: real)
    ensures o.Names(l, threshold) <==>
      && o.Of(l) >= threshold
      && (forall m :: Rank(m) < Rank(l) ==> o.Of(m) < o.Of(l)) && forall m :: Rank(m) > Rank(l) ==> o.Of(m) <= o.Of(l)
  {
    assert Rank(Chinese) < Rank(Japanese) < Rank(English);
    assert o.Of(Chinese) == o.chinese && o.Of(Japanese) == o.japanese && o.Of(English) == o.english;
  }

  /** Among equals Chinese goes before Japanese and Japanese before English. */
  function Rank(l: Language): nat { match l case Chinese => 0 case Japanese => 1 case English => 2 }

  /** Each of the observations from one index to another names the language. */
  predicate Run(observations: seq<Observation>, from: int, until: int, l: Language, threshold: real) {
    0 <= from <= until <= |observations| && forall i :: from <= i < until ==> observations[i].Names(l, threshold)
  }

  predicate ByStart(observations: seq<Observation>, total: int) {
    && (forall i :: 0 <= i < |observations| ==> 0 <= observations[i].span.start <= observations[i].span.end <= total)
    && (forall i, j :: 0 <= i < j < |observations| ==> observations[i].span.start <= observations[j].span.start)
  }

  // ----- The initial language -----

  /** The first index at which a full group agrees, or none. */
  function FirstAgreed(observations: seq<Observation>, group: nat, threshold: real): Option<nat>
    requires group >= 1
  {
    if |observations| < group then None
    else match FirstAgreed(observations[..|observations| - 1], group, threshold)
      case Some(i) => Some(i)
      case None =>
        var l := observations[|observations| - group].Top();
        if Run(observations, |observations| - group, |observations|, l, threshold) then Some(|observations| - 1)
        else None
  }

  function Total(observations: seq<Observation>, l: Language, threshold: real): real {
    if observations == [] then 0.0
    else
      var last := observations[|observations| - 1];
      Total(observations[..|observations| - 1], l, threshold) + if last.Of(last.Top()) >= threshold then last.Of(l)
          else 0.0
  }

  predicate AnyReliable(observations: seq<Observation>, threshold: real) {
    exists i :: 0 <= i < |observations| && observations[i].Of(observations[i].Top()) >= threshold
  }

  function Initial(observations: seq<Observation>, group: nat, threshold: real): Option<(Language, nat)>
    requires group >= 1
  {
    match FirstAgreed(observations, group, threshold)
    case Some(i) => if i < |observations| then Some((observations[i].Top(), i)) else None
    case None =>
      if !AnyReliable(observations, threshold) then None
      else
        var sums := Observation(Span(0, 0), Total(observations, Chinese, threshold),
                                Total(observations, Japanese, threshold), Total(observations, English, threshold));
        Some((sums.Top(), |observations| - 1))
  }

  /** The group that ends at the index agrees on the language. */
  ghost predicate GroupAgrees(observations: seq<Observation>, group: nat, threshold: real, i: int, l: Language) {
    Run(observations, i + 1 - group, i + 1, l, threshold)
  }

  lemma {:induction false} FirstAgreedMeans(observations: seq<Observation>, group: nat, threshold: real)
    requires group >= 1
    ensures match FirstAgreed(observations, group, threshold)
      case Some(i) => i < |observations| && group <= i + 1
          && GroupAgrees(observations, group, threshold, i, observations[i].Top())
                      && (forall l :: GroupAgrees(observations, group, threshold, i, l) ==> l == observations[i].Top())
                      && NoneAgreedBefore(observations, group, threshold, i)
      case None => NoneAgreedBefore(observations, group, threshold, |observations|)
  {
    if |observations| >= group {
      var front := observations[..|observations| - 1];
      FirstAgreedMeans(front, group, threshold);
      match FirstAgreed(front, group, threshold)
      case Some(i) =>
        NoneAgreedPrefix(observations, front, group, threshold, i);
      case None =>
        NoneAgreedPrefix(observations, front, group, threshold, |front|);
    }
  }

  /** No group that ends before the index agrees on a language. */
  ghost predicate NoneAgreedBefore(observations: seq<Observation>, group: nat, threshold: real, n: nat) {
    forall i, l :: group - 1 <= i < n && i < |observations| ==> !GroupAgrees(observations, group, threshold, i, l)
  }

  lemma NoneAgreedPrefix(observations: seq<Observation>, front: seq<Observation>, group: nat, threshold: real, n: nat)
    requires front <= observations && n <= |front| && group >= 1 && NoneAgreedBefore(front, group, threshold, n)
    ensures NoneAgreedBefore(observations, group, threshold, n)
  {
    forall i, l | group - 1 <= i < n ensures !GroupAgrees(observations, group, threshold, i, l) {
      assert !GroupAgrees(front, group, threshold, i, l);
    }
  }

  /** Some language is likely enough. */
  ghost predicate Reliable(o: Observation, threshold: real) { exists l :: o.Of(l) >= threshold }

  /** How much of a language the reliable observations hold together. */
  ghost function Heard(observations: seq<Observation>, l: Language, threshold: real): real {
    if observations == [] then 0.0
    else
      var last := observations[|observations| - 1];
      Heard(observations[..|observations| - 1], l, threshold) + if Reliable(last, threshold) then last.Of(l) else 0.0
  }

  /** The most heard language; of those heard equally, the first in order. */
  ghost predicate HeardMost(observations: seq<Observation>, threshold: real, l: Language) {
    && (forall m :: Rank(m) < Rank(l) ==> Heard(observations, m, threshold) < Heard(observations, l, threshold))
    && (forall m :: Rank(m) > Rank(l) ==> Heard(observations, m, threshold) <= Heard(observations, l, threshold))
  }

  /** Routing begins in the language of the first group that agrees, at its last observation; if none agrees, in the
      most heard language, past all observations. */
  ghost predicate Begins(observations: seq<Observation>, group: nat, threshold: real, l: Language, stable: nat) {
    || (group <= stable + 1 <= |observations| && GroupAgrees(observations, group, threshold, stable, l)
        && NoneAgreedBefore(observations, group, threshold, stable))
    || (NoneAgreedBefore(observations, group, threshold, |observations|) && stable + 1 == |observations|
        && (exists o :: o in observations && Reliable(o, threshold)) && HeardMost(observations, threshold, l))
  }

  lemma {:induction false} TotalIsHeard(observations: seq<Observation>, l: Language, threshold: real)
    ensures Total(observations, l, threshold) == Heard(observations, l, threshold)
  {
    if observations != [] {
      var last := observations[|observations| - 1];
      TotalIsHeard(observations[..|observations| - 1], l, threshold);
      assert last.Of(last.Top()) >= threshold <==> Reliable(last, threshold);
    }
  }

  lemma AnyReliableMeans(observations: seq<Observation>, threshold: real)
    ensures AnyReliable(observations, threshold) <==> exists o :: o in observations && Reliable(o, threshold)
  {
    if o :| o in observations && Reliable(o, threshold) {
      var i :| 0 <= i < |observations| && observations[i] == o;
      assert o.Of(o.Top()) >= threshold;
    }
    if AnyReliable(observations, threshold) {
      var i :| 0 <= i < |observations| && observations[i].Of(observations[i].Top()) >= threshold;
      assert observations[i] in observations && Reliable(observations[i], threshold);
    }
  }

  /** What routing begins with; it cannot begin exactly when no observation is reliable. */
  lemma InitialMeans(observations: seq<Observation>, group: nat, threshold: real)
    requires group >= 1
    ensures match Initial(observations, group, threshold)
      case Some(first) => Begins(observations, group, threshold, first.0, first.1) && first.1 < |observations|
      case None => !exists o :: o in observations && Reliable(o, threshold)
    ensures Initial(observations, group, threshold).Some? <==> exists o :: o in observations && Reliable(o, threshold)
  {
    FirstAgreedMeans(observations, group, threshold);
    AnyReliableMeans(observations, threshold);
    match FirstAgreed(observations, group, threshold)
    case Some(i) =>
      assert observations[i].Names(observations[i].Top(), threshold);
      assert observations[i] in observations && Reliable(observations[i], threshold);
    case None =>
      if AnyReliable(observations, threshold) { MostHeard(observations, threshold); }
  }

  lemma MostHeard(observations: seq<Observation>, threshold: real)
    ensures HeardMost(observations, threshold,
                      Observation(Span(0, 0), Total(observations, Chinese, threshold),
                                  Total(observations, Japanese, threshold),
                                  Total(observations, English, threshold)).Top())
  {
    forall l ensures Total(observations, l, threshold) == Heard(observations, l, threshold) {
      TotalIsHeard(observations, l, threshold);
    }
    var sums := Observation(Span(0, 0), Total(observations, Chinese, threshold),
                            Total(observations, Japanese, threshold),
                            Total(observations, English, threshold));
    forall l ensures sums.Of(l) == Heard(observations, l, threshold) {}
    NamesMeans(sums, sums.Top(), sums.Of(sums.Top()));
  }

  // ----- Routing as a state machine -----

  datatype Switch = Switch(boundary: int, from: Language, to: Language, index: nat)

  datatype State = State(current: Language, currentStart: int, pending: Option<Language>, pendingCount: nat,
                         pendingStart: int,
                         switches: seq<Switch>)

  datatype Policy = Policy(threshold: real, group: nat) {
    predicate Legal() { 0.0 < threshold <= 1.0 && group >= 2 }
  }

  /** The latest silence point in (after, before], or the fallback. */
  function RecentSilence(points: seq<int>, after: int, before: int, fallback: int): int {
    if points == [] then fallback
    else
      var rest, p := RecentSilence(points[..|points| - 1], after, before, fallback), points[|points| - 1];
      if after < p <= before && (!AnyEligible(points[..|points| - 1], after, before) || p > rest) then p else rest
  }

  predicate AnyEligible(points: seq<int>, after: int, before: int) {
    exists k :: 0 <= k < |points| && after < points[k] <= before
  }

  lemma {:induction false} RecentSilenceMeans(points: seq<int>, after: int, before: int, fallback: int)
    ensures var b := RecentSilence(points, after, before, fallback);
      if AnyEligible(points, after, before)
      then b in points && after < b <= before && forall k :: 0 <= k < |points| && after < points[k] <= before ==>
          points[k] <= b
      else b == fallback
  {
    if points != [] {
      var front, p := points[..|points| - 1], points[|points| - 1];
      RecentSilenceMeans(front, after, before, fallback);
      assert points == front + [p];
      if AnyEligible(front, after, before) {
        var k :| 0 <= k < |front| && after < front[k] <= before;
        assert points[k] == front[k];
      }
      if after < p <= before { assert after < points[|points| - 1] <= before; }
    }
  }

  /** One observation. */
  function Observe(s: State, o: Observation, index: nat, silence: seq<int>, policy: Policy): State {
    var candidate := o.Top();
    if candidate == s.current || o.Of(candidate) < policy.threshold then s.(pending := None, pendingCount := 0)
    else
      var again := s.pending == Some(candidate);
      var count := if again then s.pendingCount + 1 else 1;
      var start := if again then s.pendingStart else o.span.start;
      if count < policy.group then s.(pending := Some(candidate), pendingCount := count, pendingStart := start)
      else
        var boundary := RecentSilence(silence, s.currentStart, o.span.start, start);
        if boundary > s.currentStart
        then State(candidate, boundary, None, 0, start, s.switches + [Switch(boundary, s.current, candidate, index)])
        else s.(pending := None, pendingCount := 0, pendingStart := start)
  }

  function ObserveAll(s: State, observations: seq<Observation>, from: nat, until: nat, silence: seq<int>,
                      policy: Policy): State
    requires from <= until <= |observations|
    decreases until
  {
    if until == from then s
    else Observe(ObserveAll(s, observations, from, until - 1, silence, policy), observations[until - 1], until - 1,
                 silence, policy)
  }

  // ----- What every state keeps -----

  /** A switch is backed by a full group of successive observations that all name the new language. */
  ghost predicate Backed(w: Switch, observations: seq<Observation>, policy: Policy) {
    w.index < |observations| && w.boundary <= observations[w.index].span.start
    && Run(observations, w.index + 1 - policy.group, w.index + 1, w.to, policy.threshold)
  }

  function LastBoundary(switches: seq<Switch>): int { if switches == [] then 0 else switches[|switches| - 1].boundary }

  function LastLanguage(initial: Language, switches: seq<Switch>): Language {
    if switches == [] then initial else switches[|switches| - 1].to
  }

  /** Rising boundaries, each switch leaving the language of the one before, each one backed. */
  ghost predicate Chain(switches: seq<Switch>, initial: Language, observations: seq<Observation>, policy: Policy) {
    forall i :: 0 <= i < |switches| ==> Linked(switches, i, initial, observations, policy)
  }

  ghost predicate Linked(switches: seq<Switch>, i: nat, initial: Language, observations: seq<Observation>,
                         policy: Policy)
    requires i < |switches|
  {
    && LastBoundary(switches[..i]) < switches[i].boundary
    && switches[i].from == LastLanguage(initial, switches[..i]) && switches[i].from != switches[i].to
    && Backed(switches[i], observations, policy)
  }

  ghost predicate Inv(s: State, initial: Language, observations: seq<Observation>, n: nat, policy: Policy) {
    && n <= |observations|
    && Chain(s.switches, initial, observations, policy)
    && s.current == LastLanguage(initial, s.switches) && s.currentStart == LastBoundary(s.switches)
    && PendingInv(s, observations, n, policy)
  }

  ghost predicate PendingInv(s: State, observations: seq<Observation>, n: nat, policy: Policy) {
    match s.pending
    case None => s.pendingCount == 0
    case Some(p) =>
      1 <= s.pendingCount <= n && s.pendingCount < policy.group && p != s.current && n <= |observations|
      && Run(observations, n - s.pendingCount, n, p, policy.threshold)
      && s.pendingStart == observations[n - s.pendingCount].span.start
  }

  lemma ChainAdd(switches: seq<Switch>, w: Switch, initial: Language, observations: seq<Observation>, policy: Policy)
    requires Chain(switches, initial, observations, policy) && Backed(w, observations, policy)
    requires LastBoundary(switches) < w.boundary && w.from == LastLanguage(initial, switches) && w.from != w.to
    ensures Chain(switches + [w], initial, observations, policy)
  {
    var all := switches + [w];
    forall i | 0 <= i < |all| ensures Linked(all, i, initial, observations, policy) {
      assert all[..i] == switches[..i];
      if i < |switches| { assert Linked(switches, i, initial, observations, policy); }
      else { assert switches[..i] == switches; }
    }
  }

  lemma ObserveKeeps(s: State, initial: Language, observations: seq<Observation>, n: nat, silence: seq<int>,
                     policy: Policy, total: int)
    requires policy.Legal() && ByStart(observations, total) && n < |observations|
        && Inv(s, initial, observations, n, policy)
    ensures Inv(Observe(s, observations[n], n, silence, policy), initial, observations, n + 1, policy)
  {
    var o := observations[n];
    var candidate := o.Top();
    if candidate != s.current && o.Of(candidate) >= policy.threshold {
      var again := s.pending == Some(candidate);
      var count := if again then s.pendingCount + 1 else 1;
      var start := if again then s.pendingStart else o.span.start;
      if count >= policy.group {
        var boundary := RecentSilence(silence, s.currentStart, o.span.start, start);
        RecentSilenceMeans(silence, s.currentStart, o.span.start, start);
        if boundary > s.currentStart {
          ChainAdd(s.switches, Switch(boundary, s.current, candidate, n), initial, observations, policy);
        }
      }
    }
  }

  lemma {:induction false} ObserveAllKeeps(s: State, initial: Language, observations: seq<Observation>, from: nat,
                                           until: nat, silence: seq<int>,
                                           policy: Policy, total: int)
    requires policy.Legal() && ByStart(observations, total)
    requires from <= until <= |observations| && Inv(s, initial, observations, from, policy)
    ensures Inv(ObserveAll(s, observations, from, until, silence, policy), initial, observations, until, policy)
    decreases until
  {
    if from < until {
      ObserveAllKeeps(s, initial, observations, from, until - 1, silence, policy, total);
      ObserveKeeps(ObserveAll(s, observations, from, until - 1, silence, policy), initial, observations, until - 1,
                   silence, policy, total);
    }
  }

  // ----- When the language switches -----

  /** How many observations in a row, up to the n-th and after a given one, name the language. */
  function Streak(observations: seq<Observation>, threshold: real, since: int, n: nat, l: Language): nat
    requires n <= |observations|
  {
    if n > 0 && n > since + 1 && observations[n - 1].Names(l, threshold)
    then 1 + Streak(observations, threshold, since, n - 1, l)
    else 0
  }

  /** What is left of a streak once full groups are taken off. */
  function Leftover(streak: nat, group: nat): nat
    requires group > 0
  {
    if streak < group then streak else Leftover(streak - group, group)
  }

  /** How many switches came at earlier observations. */
  function Earlier(switches: seq<Switch>, i: nat): (k: nat)
    ensures k <= |switches|
  {
    if switches == [] || switches[|switches| - 1].index < i then |switches| else Earlier(switches[..|switches| - 1], i)
  }

  /** The observation at which counting began anew: that of the last switch, or the one that settled the first
      language. */
  function Since(switches: seq<Switch>, stable: nat): nat {
    if switches == [] then stable else switches[|switches| - 1].index
  }

  /** Another language than the one in force has been named by full groups of observations in a row, the last just
      now. */
  predicate Due(observations: seq<Observation>, policy: Policy, before: seq<Switch>, initial: Language, stable: nat,
                i: nat,
                l: Language)
    requires i < |observations| && policy.group > 0
  {
    var streak := Streak(observations, policy.threshold, Since(before, stable), i + 1, l);
    l != LastLanguage(initial, before) && streak > 0 && Leftover(streak, policy.group) == 0
  }

  /** The latest silence after the last boundary and by the observation, or else the fallback. */
  ghost predicate CutAt(silence: seq<int>, after: int, until: int, fallback: int, at: int) {
    || (at in silence && after < at <= until && forall p :: p in silence && after < p <= until ==> p <= at)
    || (at == fallback && forall p :: p in silence ==> !(after < p <= until))
  }

  lemma RecentSilenceCuts(silence: seq<int>, after: int, until: int, fallback: int, at: int)
    ensures CutAt(silence, after, until, fallback, at) <==> at == RecentSilence(silence, after, until, fallback)
  {
    RecentSilenceMeans(silence, after, until, fallback);
    if AnyEligible(silence, after, until) {
      var k :| 0 <= k < |silence| && after < silence[k] <= until;
      assert silence[k] in silence;
    }
  }

  /** The switch of an observation, by the switches before it. */
  ghost predicate SwitchDue(observations: seq<Observation>, policy: Policy, silence: seq<int>, before: seq<Switch>,
                            initial: Language, stable: nat, i: nat, w: Switch)
    requires i < |observations| && policy.group > 0
  {
    && w.index == i && w.from == LastLanguage(initial, before)
        && Due(observations, policy, before, initial, stable, i, w.to)
    && policy.group <= i + 1
    && CutAt(silence, LastBoundary(before), observations[i].span.start, observations[i + 1 - policy.group].span.start,
             w.boundary)
    && w.boundary > LastBoundary(before)
  }

  /** At an observation there is the switch that is due, if one is due, and none otherwise. */
  ghost predicate Decided(observations: seq<Observation>, policy: Policy, silence: seq<int>, switches: seq<Switch>,
                          initial: Language, stable: nat, i: nat)
    requires i < |observations| && policy.group > 0
  {
    var k := Earlier(switches, i);
    if k < |switches| && switches[k].index == i
    then SwitchDue(observations, policy, silence, switches[..k], initial, stable, i, switches[k])
    else forall w :: !SwitchDue(observations, policy, silence, switches[..k], initial, stable, i, w)
  }

  /** Switches come at later and later observations, up to n, and each observation since the first language is
      decided. */
  ghost predicate AllDecided(observations: seq<Observation>, policy: Policy, silence: seq<int>, switches: seq<Switch>,
                             initial: Language, stable: nat, n: nat)
    requires n <= |observations| && policy.group > 0
  {
    && (forall k :: 0 <= k < |switches| ==> stable < switches[k].index < n)
    && (forall k :: 0 < k < |switches| ==> switches[k - 1].index < switches[k].index)
    && (forall i: nat :: stable < i < n ==> Decided(observations, policy, silence, switches, initial, stable, i))
  }

  /** The pending count is what is left of the streak after its full groups. */
  ghost predicate Counting(observations: seq<Observation>, policy: Policy, s: State, stable: nat, n: nat)
    requires n <= |observations| && policy.group > 0
  {
    forall l :: l != s.current ==>
      Leftover(Streak(observations, policy.threshold, Since(s.switches, stable), n, l), policy.group)
      == if s.pending == Some(l) then s.pendingCount else 0
  }

  lemma {:induction false} CountOn(streak: nat, group: nat)
    requires group > 0
    ensures Leftover(streak, group) < group
    ensures Leftover(streak + 1, group) == if Leftover(streak, group) + 1 < group then Leftover(streak, group) + 1
        else 0
    decreases streak
  {
    if streak >= group { CountOn(streak - group, group); }
  }

  lemma EarlierSame(switches: seq<Switch>, w: Switch, i: nat)
    requires i <= w.index
    ensures Earlier(switches + [w], i) == Earlier(switches, i)
  {
    assert (switches + [w])[..|switches|] == switches;
  }

  lemma {:induction false} EarlierAll(switches: seq<Switch>, i: nat)
    requires switches == [] || switches[|switches| - 1].index < i
    ensures Earlier(switches, i) == |switches|
  {
  }

  lemma DecidedSame(observations: seq<Observation>, policy: Policy, silence: seq<int>, switches: seq<Switch>, w: Switch,
                    initial: Language, stable: nat, i: nat)
    requires i < |observations| && policy.group > 0 && i < w.index
    requires Decided(observations, policy, silence, switches, initial, stable, i)
    ensures Decided(observations, policy, silence, switches + [w], initial, stable, i)
  {
    EarlierSame(switches, w, i);
    var k := Earlier(switches, i);
    assert (switches + [w])[..k] == switches[..k];
  }

  /** An observation that names no other language ends every streak. */
  lemma NothingDue(observations: seq<Observation>, policy: Policy, s: State, silence: seq<int>, initial: Language,
                   stable: nat,
                   n: nat)
    requires stable < n < |observations| && policy.group > 0 && Since(s.switches, stable) < n
    requires s.current == LastLanguage(initial, s.switches)
    requires observations[n].Top() == s.current || observations[n].Of(observations[n].Top()) < policy.threshold
    ensures forall w :: !SwitchDue(observations, policy, silence, s.switches, initial, stable, n, w)
    ensures Counting(observations, policy, s.(pending := None, pendingCount := 0), stable, n + 1)
  {
  }

  ghost predicate OnlyStreak(observations: seq<Observation>, threshold: real, since: int, n: nat, c: Language)
    requires n <= |observations|
  {
    forall l :: l != c ==> Streak(observations, threshold, since, n, l) == 0
  }

  /** An observation that names another language counts one more for it and ends every other streak. */
  lemma StreakOn(observations: seq<Observation>, policy: Policy, s: State, stable: nat, n: nat, c: Language, count: nat)
    requires stable < n < |observations| && policy.group > 0 && Since(s.switches, stable) < n
    requires Counting(observations, policy, s, stable, n) && c != s.current
        && observations[n].Names(c, policy.threshold)
    requires count == (if s.pending == Some(c) then s.pendingCount else 0) + 1 <= policy.group
    ensures var since := Since(s.switches, stable);
      && Streak(observations, policy.threshold, since, n + 1, c) > 0
      && Leftover(Streak(observations, policy.threshold, since, n + 1, c), policy.group)
          == (if count < policy.group then count else 0)
      && OnlyStreak(observations, policy.threshold, since, n + 1, c)
  {
    CountOn(Streak(observations, policy.threshold, Since(s.switches, stable), n, c), policy.group);
  }

  /** What an observation leaves when no switch comes of it. */
  lemma DecidedWithout(observations: seq<Observation>, policy: Policy, silence: seq<int>, switches: seq<Switch>,
                       initial: Language, stable: nat, n: nat)
    requires stable < n < |observations| && policy.group > 0
    requires AllDecided(observations, policy, silence, switches, initial, stable, n)
    requires forall w :: !SwitchDue(observations, policy, silence, switches, initial, stable, n, w)
    ensures AllDecided(observations, policy, silence, switches, initial, stable, n + 1)
  {
    EarlierAll(switches, n);
    assert switches[..|switches|] == switches;
    assert Decided(observations, policy, silence, switches, initial, stable, n);
  }

  lemma DecidedWith(observations: seq<Observation>, policy: Policy, silence: seq<int>, switches: seq<Switch>,
                    initial: Language, stable: nat, n: nat, w: Switch)
    requires stable < n < |observations| && policy.group > 0
    requires AllDecided(observations, policy, silence, switches, initial, stable, n)
    requires SwitchDue(observations, policy, silence, switches, initial, stable, n, w)
    ensures AllDecided(observations, policy, silence, switches + [w], initial, stable, n + 1)
  {
    EarlierAll(switches, n);
    EarlierSame(switches, w, n);
    assert (switches + [w])[..|switches|] == switches;
    forall i: nat | stable < i < n + 1
      ensures Decided(observations, policy, silence, switches + [w], initial, stable, i) {
      if i < n { DecidedSame(observations, policy, silence, switches, w, initial, stable, i); }
    }
  }

  /** All observations up to the n-th are decided, and what the next ones need is at hand. */
  ghost predicate DecidedBy(s: State, observations: seq<Observation>, policy: Policy, silence: seq<int>,
                            initial: Language,
                            stable: nat, n: nat)
    requires n <= |observations| && policy.group > 0
  {
    AllDecided(observations, policy, silence, s.switches, initial, stable, n)
        && Counting(observations, policy, s, stable, n)
  }

  /** Everything a decided state is. */
  ghost predicate Deciding(s: State, observations: seq<Observation>, policy: Policy, silence: seq<int>,
                           initial: Language,
                           stable: nat, n: nat)
    requires n <= |observations| && policy.group > 0
  {
    && AllDecided(observations, policy, silence, s.switches, initial, stable, n)
    && Counting(observations, policy, s, stable, n)
    && s.current == LastLanguage(initial, s.switches) && s.currentStart == LastBoundary(s.switches)
    && PendingInv(s, observations, n, policy)
  }

  lemma ObserveDecides(s: State, observations: seq<Observation>, policy: Policy, silence: seq<int>, initial: Language,
                       stable: nat, n: nat)
    requires stable < n < |observations| && policy.Legal()
    requires Deciding(s, observations, policy, silence, initial, stable, n)
    ensures DecidedBy(Observe(s, observations[n], n, silence, policy), observations, policy, silence, initial, stable,
                      n + 1)
  {
    var o := observations[n];
    var c := o.Top();
    if c == s.current || o.Of(c) < policy.threshold {
      NothingDue(observations, policy, s, silence, initial, stable, n);
      DecidedWithout(observations, policy, silence, s.switches, initial, stable, n);
    } else {
      CandidateDecides(s, observations, policy, silence, initial, stable, n, c);
    }
  }

  lemma CandidateDecides(s: State, observations: seq<Observation>, policy: Policy, silence: seq<int>, initial: Language,
                         stable: nat, n: nat, c: Language)
    requires stable < n < |observations| && policy.Legal()
    requires Deciding(s, observations, policy, silence, initial, stable, n)
    requires c != s.current && observations[n].Names(c, policy.threshold)
    ensures DecidedBy(Observe(s, observations[n], n, silence, policy), observations, policy, silence, initial, stable,
                      n + 1)
  {
    var count := (if s.pending == Some(c) then s.pendingCount else 0) + 1;
    StreakOn(observations, policy, s, stable, n, c, count);
    if count < policy.group {
      StillObserved(s, observations[n], silence, policy, n, c, count);
      StillCounting(s, Observe(s, observations[n], n, silence, policy), observations, policy, silence, initial, stable,
                    n, c,
                    count);
    } else {
      FullGroup(s, observations, policy, silence, initial, stable, n, c);
    }
  }

  lemma StillCounting(s: State, t: State, observations: seq<Observation>, policy: Policy, silence: seq<int>,
                      initial: Language,
                      stable: nat, n: nat, c: Language, count: nat)
    requires stable < n < |observations| && 0 < count < policy.group
    requires AllDecided(observations, policy, silence, s.switches, initial, stable, n)
    requires t.switches == s.switches && t.pending == Some(c) && t.pendingCount == count
    requires Leftover(Streak(observations, policy.threshold, Since(s.switches, stable), n + 1, c), policy.group)
        == count
    requires OnlyStreak(observations, policy.threshold, Since(s.switches, stable), n + 1, c)
    ensures DecidedBy(t, observations, policy, silence, initial, stable, n + 1)
  {
    NotYetDue(observations, policy, silence, s.switches, initial, stable, n, c);
    DecidedWithout(observations, policy, silence, s.switches, initial, stable, n);
    CountingOn(observations, policy, t, stable, n + 1, c);
  }

  /** What an observation of an incomplete group makes of the state. */
  lemma StillObserved(s: State, o: Observation, silence: seq<int>, policy: Policy, n: nat, c: Language, count: nat)
    requires c != s.current && o.Names(c, policy.threshold)
    requires count == (if s.pending == Some(c) then s.pendingCount else 0) + 1 < policy.group
    ensures var t := Observe(s, o, n, silence, policy);
      t.switches == s.switches && t.current == s.current && t.pending == Some(c) && t.pendingCount == count
  {
  }

  lemma NotYetDue(observations: seq<Observation>, policy: Policy, silence: seq<int>, switches: seq<Switch>,
                  initial: Language,
                  stable: nat, n: nat, c: Language)
    requires n < |observations| && policy.group > 0
    requires Leftover(Streak(observations, policy.threshold, Since(switches, stable), n + 1, c), policy.group) != 0
    requires OnlyStreak(observations, policy.threshold, Since(switches, stable), n + 1, c)
    ensures forall w :: !SwitchDue(observations, policy, silence, switches, initial, stable, n, w)
  {
  }

  lemma CountingOn(observations: seq<Observation>, policy: Policy, s: State, stable: nat, n: nat, c: Language)
    requires n <= |observations| && policy.group > 0 && s.pending == Some(c)
    requires Leftover(Streak(observations, policy.threshold, Since(s.switches, stable), n, c), policy.group)
        == s.pendingCount
    requires OnlyStreak(observations, policy.threshold, Since(s.switches, stable), n, c)
    ensures Counting(observations, policy, s, stable, n)
  {
  }

  lemma FullGroup(s: State, observations: seq<Observation>, policy: Policy, silence: seq<int>, initial: Language,
                  stable: nat, n: nat, c: Language)
    requires stable < n < |observations| && policy.Legal() && c != s.current
        && observations[n].Names(c, policy.threshold)
    requires AllDecided(observations, policy, silence, s.switches, initial, stable, n)
        && PendingInv(s, observations, n, policy)
    requires s.current == LastLanguage(initial, s.switches) && s.currentStart == LastBoundary(s.switches)
    requires s.pending == Some(c) && s.pendingCount + 1 == policy.group
    requires Due(observations, policy, s.switches, initial, stable, n, c)
    requires OnlyStreak(observations, policy.threshold, Since(s.switches, stable), n + 1, c)
    ensures DecidedBy(Observe(s, observations[n], n, silence, policy), observations, policy, silence, initial, stable,
                      n + 1)
  {
    var first := observations[n + 1 - policy.group].span.start;
    var boundary := RecentSilence(silence, s.currentStart, observations[n].span.start, first);
    GroupDecides(s, observations, policy, silence, initial, stable, n, c, first);
    GroupObserved(s, observations[n], silence, policy, n, c, first);
    CountAnew(observations, policy, s.(pending := None, pendingCount := 0, pendingStart := first), stable, n, c);
    assert s.pendingStart == first;
    if boundary > s.currentStart { CountSwitched(observations, policy, s, boundary, stable, n, c, first); }
  }

  lemma CountSwitched(observations: seq<Observation>, policy: Policy, s: State, boundary: int, stable: nat, n: nat,
                      c: Language,
                      first: int)
    requires n < |observations| && policy.group > 0
    ensures Counting(observations, policy,
                     State(c, boundary, None, 0, first, s.switches + [Switch(boundary, s.current, c, n)]), stable,
                         n + 1)
  {
    assert Since(s.switches + [Switch(boundary, s.current, c, n)], stable) == n;
  }

  /** What a full group makes of the state. */
  lemma GroupObserved(s: State, o: Observation, silence: seq<int>, policy: Policy, n: nat, c: Language, first: int)
    requires c != s.current && o.Names(c, policy.threshold)
    requires (if s.pending == Some(c) then s.pendingCount else 0) + 1 >= policy.group
    requires first == if s.pending == Some(c) then s.pendingStart else o.span.start
    ensures var boundary, t := RecentSilence(silence, s.currentStart, o.span.start, first),
        Observe(s, o, n, silence, policy);
      t == if boundary > s.currentStart
           then State(c, boundary, None, 0, first, s.switches + [Switch(boundary, s.current, c, n)])
           else s.(pending := None, pendingCount := 0, pendingStart := first)
  {
  }

  /** A full group without a switch leaves nothing counted. */
  lemma CountAnew(observations: seq<Observation>, policy: Policy, s: State, stable: nat, n: nat, c: Language)
    requires n < |observations| && policy.group > 0 && s.pending.None?
    requires OnlyStreak(observations, policy.threshold, Since(s.switches, stable), n + 1, c)
    requires Leftover(Streak(observations, policy.threshold, Since(s.switches, stable), n + 1, c), policy.group) == 0
    ensures Counting(observations, policy, s, stable, n + 1)
  {
  }

  /** A full group. */
  lemma GroupDecides(s: State, observations: seq<Observation>, policy: Policy, silence: seq<int>, initial: Language,
                     stable: nat, n: nat, c: Language, first: int)
    requires stable < n < |observations| && 0 < policy.group <= n + 1
    requires AllDecided(observations, policy, silence, s.switches, initial, stable, n)
    requires s.current == LastLanguage(initial, s.switches) && s.currentStart == LastBoundary(s.switches)
    requires first == observations[n + 1 - policy.group].span.start
    requires Due(observations, policy, s.switches, initial, stable, n, c)
    requires OnlyStreak(observations, policy.threshold, Since(s.switches, stable), n + 1, c)
    ensures var boundary := RecentSilence(silence, s.currentStart, observations[n].span.start, first);
      AllDecided(observations, policy, silence,
                 if boundary > s.currentStart then s.switches + [Switch(boundary, s.current, c, n)] else s.switches,
                 initial, stable, n + 1)
  {
    var boundary := RecentSilence(silence, s.currentStart, observations[n].span.start, first);
    RecentSilenceCuts(silence, s.currentStart, observations[n].span.start, first, boundary);
    if boundary > s.currentStart {
      DecidedWith(observations, policy, silence, s.switches, initial, stable, n, Switch(boundary, s.current, c, n));
    } else {
      NotPast(observations, policy, silence, s.switches, initial, stable, n, c, boundary);
      DecidedWithout(observations, policy, silence, s.switches, initial, stable, n);
    }
  }

  /** No switch is due whose boundary would not be past the last one. */
  lemma NotPast(observations: seq<Observation>, policy: Policy, silence: seq<int>, switches: seq<Switch>,
                initial: Language,
                stable: nat, n: nat, c: Language, boundary: int)
    requires n < |observations| && 0 < policy.group <= n + 1
    requires OnlyStreak(observations, policy.threshold, Since(switches, stable), n + 1, c)
    requires boundary == RecentSilence(silence, LastBoundary(switches), observations[n].span.start,
                                       observations[n + 1 - policy.group].span.start)
    requires boundary <= LastBoundary(switches)
    ensures forall w :: !SwitchDue(observations, policy, silence, switches, initial, stable, n, w)
  {
    forall w ensures !SwitchDue(observations, policy, silence, switches, initial, stable, n, w) {
      RecentSilenceCuts(silence, LastBoundary(switches), observations[n].span.start,
                        observations[n + 1 - policy.group].span.start, w.boundary);
    }
  }

  lemma BeginDecides(observations: seq<Observation>, policy: Policy, silence: seq<int>, initial: Language, stable: nat)
    returns (s: State)
    requires stable < |observations| && policy.Legal()
    ensures s == ObserveAll(State(initial, 0, None, 0, 0, []), observations, stable + 1, stable + 1, silence, policy)
    ensures DecidedBy(s, observations, policy, silence, initial, stable, stable + 1)
  {
    s := State(initial, 0, None, 0, 0, []);
  }

  lemma {:induction false} ObserveAllDecides(observations: seq<Observation>, policy: Policy, silence: seq<int>,
                                             initial: Language, stable: nat, n: nat, total: int)
    returns (s: State)
    requires stable < n <= |observations| && policy.Legal() && ByStart(observations, total)
    ensures s == ObserveAll(State(initial, 0, None, 0, 0, []), observations, stable + 1, n, silence, policy)
    ensures DecidedBy(s, observations, policy, silence, initial, stable, n)
  {
    if n == stable + 1 {
      s := BeginDecides(observations, policy, silence, initial, stable);
    } else {
      var before := ObserveAllDecides(observations, policy, silence, initial, stable, n - 1, total);
      s := DecidedStep(before, observations, policy, silence, initial, stable, n, total);
    }
  }

  lemma DecidedStep(before: State, observations: seq<Observation>, policy: Policy, silence: seq<int>, initial: Language,
                    stable: nat, n: nat, total: int)
    returns (s: State)
    requires stable < n - 1 < |observations| && policy.Legal() && ByStart(observations, total)
    requires before == ObserveAll(State(initial, 0, None, 0, 0, []), observations, stable + 1, n - 1, silence, policy)
    requires DecidedBy(before, observations, policy, silence, initial, stable, n - 1)
    ensures s == ObserveAll(State(initial, 0, None, 0, 0, []), observations, stable + 1, n, silence, policy)
    ensures DecidedBy(s, observations, policy, silence, initial, stable, n)
  {
    var begin := State(initial, 0, None, 0, 0, []);
    ObserveAllKeeps(begin, initial, observations, stable + 1, n - 1, silence, policy, total);
    s := OneMore(before, observations, policy, silence, initial, stable, n - 1, n);
    assert s == ObserveAll(begin, observations, stable + 1, n, silence, policy);
  }

  lemma OneMore(before: State, observations: seq<Observation>, policy: Policy, silence: seq<int>, initial: Language,
                stable: nat, n: nat, next: nat)
    returns (s: State)
    requires stable < n < |observations| && next == n + 1 && policy.Legal()
        && Inv(before, initial, observations, n, policy)
    requires DecidedBy(before, observations, policy, silence, initial, stable, n)
    ensures s == Observe(before, observations[n], n, silence, policy)
    ensures DecidedBy(s, observations, policy, silence, initial, stable, next)
  {
    InvDecides(before, observations, policy, silence, initial, stable, n);
    ObserveDecides(before, observations, policy, silence, initial, stable, n);
    s := Observe(before, observations[n], n, silence, policy);
  }

  lemma InvDecides(s: State, observations: seq<Observation>, policy: Policy, silence: seq<int>, initial: Language,
                   stable: nat, n: nat)
    requires n <= |observations| && policy.group > 0 && Inv(s, initial, observations, n, policy)
    requires AllDecided(observations, policy, silence, s.switches, initial, stable, n)
    requires Counting(observations, policy, s, stable, n)
    ensures Deciding(s, observations, policy, silence, initial, stable, n)
  {
  }

  // ----- Spans -----

  datatype LanguageSpan = LanguageSpan(start: int, end: int, language: Language)

  /** The spans before the last boundary; empty ones are passed over. */
  function ClosedSpans(initial: Language, switches: seq<Switch>): seq<LanguageSpan> {
    if switches == [] then []
    else
      var front, last := switches[..|switches| - 1], switches[|switches| - 1];
      ClosedSpans(initial, front)
          + Shown(LanguageSpan(LastBoundary(front), last.boundary, LastLanguage(initial, front)))
  }

  function Shown(s: LanguageSpan): seq<LanguageSpan> { if s.end <= s.start then [] else [s] }

  function Spans(initial: Language, switches: seq<Switch>, total: int): seq<LanguageSpan> {
    ClosedSpans(initial, switches) + Shown(LanguageSpan(LastBoundary(switches), total, LastLanguage(initial, switches)))
  }

  /** Non-empty, end to end from 0, neighbours in different languages. */
  predicate Routed(spans: seq<LanguageSpan>, end: int) {
    && (forall i :: 0 <= i < |spans| ==> spans[i].start < spans[i].end)
    && (forall i :: 0 < i < |spans| ==>
        spans[i - 1].end == spans[i].start && spans[i - 1].language != spans[i].language)
    && (if spans == [] then end == 0 else spans[0].start == 0 && spans[|spans| - 1].end == end)
  }

  lemma {:induction false} ClosedSpansRouted(initial: Language, switches: seq<Switch>, observations: seq<Observation>,
                                             policy: Policy)
    requires Chain(switches, initial, observations, policy)
    ensures Routed(ClosedSpans(initial, switches), LastBoundary(switches))
    ensures switches != [] ==> EndsIn(ClosedSpans(initial, switches), switches[|switches| - 1].from)
  {
    if switches != [] {
      var front, last := switches[..|switches| - 1], switches[|switches| - 1];
      assert Linked(switches, |switches| - 1, initial, observations, policy);
      forall i | 0 <= i < |front| ensures Linked(front, i, initial, observations, policy) {
        assert Linked(switches, i, initial, observations, policy) && front[..i] == switches[..i];
      }
      ClosedSpansRouted(initial, front, observations, policy);
      if front != [] { assert Linked(front, |front| - 1, initial, observations, policy); }
      assert switches[..|switches| - 1] == front;
    }
  }

  predicate EndsIn(spans: seq<LanguageSpan>, l: Language) {
    spans != [] && spans[|spans| - 1].language == l
  }

  lemma SpansRouted(initial: Language, switches: seq<Switch>, observations: seq<Observation>, policy: Policy,
                    total: int)
    requires Chain(switches, initial, observations, policy) && ByStart(observations, total) && total > 0
    ensures Routed(Spans(initial, switches, total), total)
  {
    ClosedSpansRouted(initial, switches, observations, policy);
    if switches != [] {
      var last := switches[|switches| - 1];
      assert Linked(switches, |switches| - 1, initial, observations, policy);
      assert last.boundary <= observations[last.index].span.start <= total;
    }
  }

  /** Boundaries rise, the first past the start. */
  predicate Rising(switches: seq<Switch>) { forall k: nat :: k < |switches| ==> RisesAt(switches, k) }

  predicate RisesAt(switches: seq<Switch>, k: nat)
    requires k < |switches|
  {
    (if k == 0 then 0 else switches[k - 1].boundary) < switches[k].boundary
  }

  /** The language at a sample: that of the last switch whose boundary is not past it, or the first language. */
  predicate Speaks(initial: Language, switches: seq<Switch>, t: int, l: Language) {
    || (l == initial && forall k :: 0 <= k < |switches| ==> t < switches[k].boundary)
    || (exists k :: 0 <= k < |switches| && l == switches[k].to && InForce(switches, k, t))
  }

  predicate InForce(switches: seq<Switch>, k: nat, t: int)
    requires k < |switches|
  {
    switches[k].boundary <= t && (k + 1 < |switches| ==> t < switches[k + 1].boundary)
  }

  /** Some span holds the sample, in the language in force there. */
  ghost predicate SpokenAt(spans: seq<LanguageSpan>, initial: Language, switches: seq<Switch>, t: int) {
    exists j :: 0 <= j < |spans| && spans[j].start <= t < spans[j].end && Speaks(initial, switches, t,
        spans[j].language)
  }

  lemma LastSpeaks(initial: Language, switches: seq<Switch>, t: int)
    requires Rising(switches) && LastBoundary(switches) <= t
    ensures Speaks(initial, switches, t, LastLanguage(initial, switches))
  {
    if switches != [] { assert InForce(switches, |switches| - 1, t); }
  }

  lemma SpeaksMore(initial: Language, switches: seq<Switch>, w: Switch, t: int, l: Language)
    requires Speaks(initial, switches, t, l) && t < w.boundary
    ensures Speaks(initial, switches + [w], t, l)
  {
    var all := switches + [w];
    if k :| 0 <= k < |switches| && l == switches[k].to && InForce(switches, k, t) {
      assert all[k] == switches[k] && InForce(all, k, t);
    } else {
      forall k | 0 <= k < |all| ensures t < all[k].boundary { if k < |switches| { assert all[k] == switches[k]; } }
    }
  }

  lemma RisingFront(switches: seq<Switch>)
    requires Rising(switches) && switches != []
    ensures Rising(switches[..|switches| - 1])
  {
    var front := switches[..|switches| - 1];
    forall k: nat | k < |front| ensures RisesAt(front, k) { assert RisesAt(switches, k); }
  }

  lemma {:induction false} ClosedSpokenAt(initial: Language, switches: seq<Switch>, t: int)
    requires Rising(switches) && 0 <= t < LastBoundary(switches)
    ensures SpokenAt(ClosedSpans(initial, switches), initial, switches, t)
  {
    var front, last := switches[..|switches| - 1], switches[|switches| - 1];
    var spans := ClosedSpans(initial, front);
    RisingFront(switches);
    assert switches == front + [last];
    var j: nat;
    if t < LastBoundary(front) {
      ClosedSpokenAt(initial, front, t);
      j :| j < |spans| && spans[j].start <= t < spans[j].end && Speaks(initial, front, t, spans[j].language);
    } else {
      LastSpeaks(initial, front, t);
      j := |spans|;
    }
    var all := ClosedSpans(initial, switches);
    assert all[j].start <= t < all[j].end && Speaks(initial, front, t, all[j].language);
    SpeaksMore(initial, front, last, t, all[j].language);
  }

  /** Every sample of the audio is in a span of the language in force there. */
  lemma SpansSpeak(initial: Language, switches: seq<Switch>, total: int, t: int)
    requires Rising(switches) && 0 <= t < total
    ensures SpokenAt(Spans(initial, switches, total), initial, switches, t)
  {
    var closed, spans := ClosedSpans(initial, switches), Spans(initial, switches, total);
    if t < LastBoundary(switches) {
      ClosedSpokenAt(initial, switches, t);
      var j :| 0 <= j < |closed| && closed[j].start <= t < closed[j].end
          && Speaks(initial, switches, t, closed[j].language);
      assert spans[j] == closed[j];
    } else {
      LastSpeaks(initial, switches, t);
      assert spans[|closed|].start <= t < spans[|closed|].end;
    }
  }

  /** The checks that guard storage: sorted starts and ends, none past the end, and contiguous from the start to the
      end. */
  predicate Persistable(spans: seq<LanguageSpan>, duration: int) {
    && (forall i, j :: 0 <= i < j < |spans| ==> spans[i].start <= spans[j].start && spans[i].end <= spans[j].end)
    && (forall i :: 0 <= i < |spans| ==> spans[i].end <= duration)
    && (spans != [] ==> spans[0].start == 0 && spans[|spans| - 1].end == duration)
    && (forall i :: 0 < i < |spans| ==> spans[i - 1].end == spans[i].start)
  }

  lemma {:induction false} RoutedOrder(spans: seq<LanguageSpan>, end: int, i: nat, j: nat)
    requires Routed(spans, end) && i <= j < |spans|
    ensures spans[i].start <= spans[j].start && spans[i].end <= spans[j].end
    decreases j - i
  {
    if i < j { RoutedOrder(spans, end, i + 1, j); }
  }

  lemma RoutedIsPersistable(spans: seq<LanguageSpan>, end: int)
    requires Routed(spans, end)
    ensures Persistable(spans, end)
  {
    forall i, j | 0 <= i < j < |spans| ensures spans[i].start <= spans[j].start && spans[i].end <= spans[j].end {
      RoutedOrder(spans, end, i, j);
    }
    forall i | 0 <= i < |spans| ensures spans[i].end <= end { RoutedOrder(spans, end, i, |spans| - 1); }
  }

  // ----- The router -----

  datatype Mode = Manual(language: Language) | AutoMixed

  function InsertByStart(observations: seq<Observation>, o: Observation): seq<Observation> {
    if observations == [] || observations[|observations| - 1].span.start <= o.span.start then observations + [o]
    else InsertByStart(observations[..|observations| - 1], o) + [observations[|observations| - 1]]
  }

  function SortedByStart(observations: seq<Observation>): seq<Observation> {
    if observations == [] then []
    else InsertByStart(SortedByStart(observations[..|observations| - 1]), observations[|observations| - 1])
  }

  predicate InOrder(observations: seq<Observation>) {
    forall i, j :: 0 <= i < j < |observations| ==> observations[i].span.start <= observations[j].span.start
  }

  predicate StartBy(observations: seq<Observation>, bound: int) {
    forall k :: 0 <= k < |observations| ==> observations[k].span.start <= bound
  }

  lemma {:induction false} InsertByStartKeeps(observations: seq<Observation>, o: Observation, bound: int)
    requires InOrder(observations) && o.span.start <= bound && StartBy(observations, bound)
    ensures InOrder(InsertByStart(observations, o)) && StartBy(InsertByStart(observations, o), bound)
  {
    if observations == [] || observations[|observations| - 1].span.start <= o.span.start {
    } else {
      InsertByStartKeeps(observations[..|observations| - 1], o, observations[|observations| - 1].span.start);
    }
  }

  lemma {:induction false} SortedInOrder(observations: seq<Observation>)
    ensures InOrder(SortedByStart(observations))
  {
    if observations != [] {
      var front, last := SortedByStart(observations[..|observations| - 1]), observations[|observations| - 1];
      SortedInOrder(observations[..|observations| - 1]);
      var bound := if front == [] then last.span.start else Max(last.span.start, front[|front| - 1].span.start);
      forall k | 0 <= k < |front| ensures front[k].span.start <= bound {
        if k < |front| - 1 { assert front[k].span.start <= front[|front| - 1].span.start; }
      }
      InsertByStartKeeps(front, last, bound);
    }
  }

  predicate WithinAudio(observations: seq<Observation>, total: int) {
    forall i :: 0 <= i < |observations| ==> observations[i].span.end <= total
  }

  predicate Proper(observations: seq<Observation>) {
    forall i :: 0 <= i < |observations| ==> 0 <= observations[i].span.start <= observations[i].span.end
  }

  /** The routing behind the spans: a first language; from then on, at each observation, the switch that is due or
      none; and at each sample the language in force. */
  ghost predicate Explained(spans: seq<LanguageSpan>, ordered: seq<Observation>, silence: seq<int>, policy: Policy,
                            total: int)
    requires policy.Legal()
  {
    exists initial, stable, switches :: Explains(spans, ordered, silence, policy, total, initial, stable, switches)
  }

  ghost predicate Explains(spans: seq<LanguageSpan>, ordered: seq<Observation>, silence: seq<int>, policy: Policy,
                           total: int,
                           initial: Language, stable: nat, switches: seq<Switch>)
    requires policy.Legal()
  {
    && Begins(ordered, policy.group, policy.threshold, initial, stable)
    && AllDecided(ordered, policy, silence, switches, initial, stable, |ordered|)
    && Chain(switches, initial, ordered, policy)
    && forall t :: 0 <= t < total ==> SpokenAt(spans, initial, switches, t)
  }

  /**
   * Automatic routing stores whatever was observed, unless an observation is past the audio or none is reliable. The
   * spans tile the audio with changing languages, and they switch exactly where full groups of observations say so.
   */
  method Route(mode: Mode, total: int, observations: seq<Observation>, silence: seq<int>, policy: Policy)
    returns (result: Result<seq<LanguageSpan>>)
    requires policy.Legal() && Proper(observations)
    ensures result.Ok? ==> Routed(result.value, total) && Persistable(result.value, total)
    ensures total < 0 ==> result.Err?
    ensures total == 0 ==> result == Ok([])
    ensures total > 0 && mode.Manual? ==> result == Ok([LanguageSpan(0, total, mode.language)])
    ensures total > 0 && mode.AutoMixed? ==>
      (result.Ok? <==> (forall o :: o in observations ==> o.span.end <= total)
                       && exists o :: o in observations && Reliable(o, policy.threshold))
    ensures total > 0 && mode.AutoMixed? && result.Ok? ==>
      Explained(result.value, SortedByStart(observations), silence, policy, total)
  {
    if total < 0 { return Err("total samples must be non-negative"); }
    if total == 0 { return Ok([]); }
    if mode.Manual? { return Ok([LanguageSpan(0, total, mode.language)]); }
    var ordered := SortedByStart(observations);
    SortedProper(observations);
    result := RouteMixed(total, ordered, silence, policy);
    if result.Ok? { RoutedIsPersistable(result.value, total); }
    WithinSorted(observations, total);
  }

  lemma WithinSorted(observations: seq<Observation>, total: int)
    ensures WithinAudio(SortedByStart(observations), total) <==> forall o :: o in observations ==> o.span.end <= total
    ensures forall o :: o in SortedByStart(observations) <==> o in observations
  {
    var ordered := SortedByStart(observations);
    SortedMembers(observations);
    if WithinAudio(ordered, total) {
      forall o | o in observations ensures o.span.end <= total {
        assert o in ordered;
        var k :| 0 <= k < |ordered| && ordered[k] == o;
      }
    }
    if forall o :: o in observations ==> o.span.end <= total {
      forall k | 0 <= k < |ordered| ensures ordered[k].span.end <= total { assert ordered[k] in observations; }
    }
  }

  method RouteMixed(total: int, ordered: seq<Observation>, silence: seq<int>, policy: Policy)
    returns (result: Result<seq<LanguageSpan>>)
    requires policy.Legal() && total > 0 && InOrder(ordered) && Proper(ordered)
    ensures result.Ok? <==> WithinAudio(ordered, total) && exists o :: o in ordered && Reliable(o, policy.threshold)
    ensures result.Ok? ==> Routed(result.value, total) && Explained(result.value, ordered, silence, policy, total)
  {
    var valid := Validate(ordered, total);
    if !valid { return Err("LID observations must be ordered and within the audio range"); }
    if ordered == [] { return Err("automatic/mixed mode requires LID observations"); }
    var start := Initial(ordered, policy.group, policy.threshold);
    InitialMeans(ordered, policy.group, policy.threshold);
    if start.None? { return Err("language undetermined"); }
    var initial, stable := start.value.0, start.value.1;
    var switches := Switches(ordered, initial, stable, silence, policy, total);
    SpansRouted(initial, switches, ordered, policy, total);
    var spans := BuildSpans(initial, switches, total);
    SwitchesExplain(ordered, silence, policy, total, initial, stable, switches);
    result := Ok(spans);
  }

  lemma SwitchesExplain(ordered: seq<Observation>, silence: seq<int>, policy: Policy, total: int, initial: Language,
                        stable: nat,
                        switches: seq<Switch>)
    requires policy.Legal() && Begins(ordered, policy.group, policy.threshold, initial, stable)
    requires AllDecided(ordered, policy, silence, switches, initial, stable, |ordered|)
    requires Chain(switches, initial, ordered, policy)
    ensures Explained(Spans(initial, switches, total), ordered, silence, policy, total)
  {
    forall k: nat | k < |switches| ensures RisesAt(switches, k) {
      assert Linked(switches, k, initial, ordered, policy);
    }
    forall t | 0 <= t < total ensures SpokenAt(Spans(initial, switches, total), initial, switches, t) {
      SpansSpeak(initial, switches, total, t);
    }
    assert Explains(Spans(initial, switches, total), ordered, silence, policy, total, initial, stable, switches);
  }

  method Validate(ordered: seq<Observation>, total: int) returns (valid: bool)
    requires InOrder(ordered) && Proper(ordered)
    ensures valid <==> WithinAudio(ordered, total)
  {
    var previousStart := -1;
    for i := 0 to |ordered|
      invariant WithinAudio(ordered[..i], total)
      invariant previousStart == if i == 0 then -1 else ordered[i - 1].span.start
    {
      if ordered[i].span.start < previousStart || ordered[i].span.end > total { return false; }
      previousStart := ordered[i].span.start;
    }
    return true;
  }

  lemma {:induction false} SortedMembers(observations: seq<Observation>)
    ensures forall o :: o in SortedByStart(observations) <==> o in observations
  {
    if observations != [] {
      var front, last := observations[..|observations| - 1], observations[|observations| - 1];
      SortedMembers(front);
      InsertMembersByStart(SortedByStart(front), last);
      assert observations == front + [last];
    }
  }

  lemma {:induction false} InsertMembersByStart(observations: seq<Observation>, o: Observation)
    ensures forall p :: p in InsertByStart(observations, o) <==> p in observations || p == o
  {
    if observations == [] || observations[|observations| - 1].span.start <= o.span.start {
    } else {
      InsertMembersByStart(observations[..|observations| - 1], o);
      assert observations == observations[..|observations| - 1] + [observations[|observations| - 1]];
    }
  }

  function AtStart(observations: seq<Observation>, start: int): seq<Observation> {
    if observations == [] then []
    else
      var last := observations[|observations| - 1];
      AtStart(observations[..|observations| - 1], start) + if last.span.start == start then [last] else []
  }

  lemma {:induction false} InsertAtStart(observations: seq<Observation>, o: Observation, start: int)
    ensures AtStart(InsertByStart(observations, o), start)
         == AtStart(observations, start) + if o.span.start == start then [o] else []
  {
    if observations == [] || observations[|observations| - 1].span.start <= o.span.start {
      assert (observations + [o])[..|observations|] == observations;
    } else {
      var front, last := observations[..|observations| - 1], observations[|observations| - 1];
      InsertAtStart(front, o, start);
      var inserted := InsertByStart(front, o);
      assert (inserted + [last])[..|inserted|] == inserted;
    }
  }

  /** Sorting keeps the observations, and the order of those that start together. */
  lemma {:induction false} SortedStably(observations: seq<Observation>, start: int)
    ensures AtStart(SortedByStart(observations), start) == AtStart(observations, start)
  {
    if observations != [] {
      SortedStably(observations[..|observations| - 1], start);
      InsertAtStart(SortedByStart(observations[..|observations| - 1]), observations[|observations| - 1], start);
    }
  }

  lemma SortedProper(observations: seq<Observation>)
    requires Proper(observations)
    ensures InOrder(SortedByStart(observations)) && Proper(SortedByStart(observations))
  {
    var ordered := SortedByStart(observations);
    SortedInOrder(observations);
    SortedMembers(observations);
    forall i | 0 <= i < |ordered| ensures 0 <= ordered[i].span.start <= ordered[i].span.end {
      assert ordered[i] in observations;
    }
  }

  method Switches(ordered: seq<Observation>, initial: Language, stable: nat, silence: seq<int>, policy: Policy,
                  total: int)
    returns (switches: seq<Switch>)
    requires policy.Legal() && ByStart(ordered, total) && stable < |ordered|
    ensures Chain(switches, initial, ordered, policy)
    ensures AllDecided(ordered, policy, silence, switches, initial, stable, |ordered|)
    ensures switches == ObserveAll(State(initial, 0, None, 0, 0, []), ordered, stable + 1, |ordered|, silence,
                                   policy).switches
  {
    var current := initial;
    switches := [];
    var pending: Option<Language>, pendingCount: nat, pendingStart, currentStart := None, 0, 0, 0;
    ghost var begin := State(initial, 0, None, 0, 0, []);
    for index := stable + 1 to |ordered|
      invariant State(current, currentStart, pending, pendingCount, pendingStart, switches)
             == ObserveAll(begin, ordered, stable + 1, index, silence, policy)
    {
      var o := ordered[index];
      var candidate := o.Top();
      if candidate == current || o.Of(candidate) < policy.threshold {
        pending, pendingCount := None, 0;
        continue;
      }
      if pending == Some(candidate) {
        pendingCount := pendingCount + 1;
      } else {
        pending, pendingCount, pendingStart := Some(candidate), 1, o.span.start;
      }
      if pendingCount < policy.group { continue; }
      var boundary := RecentSilence(silence, currentStart, o.span.start, pendingStart);
      if boundary > currentStart {
        switches := switches + [Switch(boundary, current, candidate, index)];
        currentStart, current := boundary, candidate;
      }
      pending, pendingCount := None, 0;
    }
    ObserveAllKeeps(begin, initial, ordered, stable + 1, |ordered|, silence, policy, total);
    ghost var last := ObserveAllDecides(ordered, policy, silence, initial, stable, |ordered|, total);
  }

  method BuildSpans(initial: Language, switches: seq<Switch>, total: int) returns (spans: seq<LanguageSpan>)
    ensures spans == Spans(initial, switches, total)
  {
    spans := [];
    for i := 0 to |switches|
      invariant spans == ClosedSpans(initial, switches[..i])
    {
      assert switches[..i + 1][..i] == switches[..i];
      var span := LanguageSpan(LastBoundary(switches[..i]), switches[i].boundary, LastLanguage(initial, switches[..i]));
      if span.end <= span.start { continue; }
      spans := spans + [span];
    }
    assert switches[..|switches|] == switches;
    var last := LanguageSpan(LastBoundary(switches), total, LastLanguage(initial, switches));
    if last.end > last.start { spans := spans + [last]; }
  }
}
