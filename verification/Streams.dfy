/** What all three workers' streams do with pushed audio; PCM is modelled as a sequence of samples. */
module Audio {

  /** The samples of several pushes in a row. */
  function Joined(chunks: seq<seq<int>>): seq<int> {
    if chunks == [] then [] else Joined(chunks[..|chunks| - 1]) + chunks[|chunks| - 1]
  }
}

/** The streaming VAD: overlapping frames out of pushes of any size. */
module FrameStream {
  import opened Audio

  const FRAME: nat := 400
  const HOP: nat := 160

  /** How many frames fit. */
  function Count(n: nat): nat { if n < FRAME then 0 else (n - FRAME) / HOP + 1 }

  /** The i-th frame ends inside the audio. */
  predicate Fits(i: nat, n: nat) { i * HOP + FRAME <= n }

  lemma CountMeans(n: nat, i: nat)
    ensures i < Count(n) <==> Fits(i, n)
  {
  }

  /** The frame that begins at the i-th hop. */
  function Window(pushed: seq<int>, i: nat): seq<int>
    requires i < Count(|pushed|)
  {
    pushed[i * HOP..i * HOP + FRAME]
  }

  function Windows(pushed: seq<int>, n: nat): seq<seq<int>>
    requires n <= Count(|pushed|)
  {
    seq(n, i requires 0 <= i < n => Window(pushed, i))
  }

  /** A call may end early: a frame call fails, or finishes while the request is cancelled. */
  datatype Stop = Never | FailsAt(frame: nat) | CancelledAt(frame: nat)

  datatype State = State(pcm: seq<int>, offset: nat, frames: seq<seq<int>>)

  /** The frame calls a request completes: a cancelled one still finishes its frame. */
  function Completed(available: nat, stop: Stop): (n: nat)
    ensures n <= available
  {
    match stop
    case Never => available
    case FailsAt(k) => if k < available then k else available
    case CancelledAt(k) => if k < available then k + 1 else available
  }

  function Push(s: State, chunk: seq<int>, stop: Stop): State {
    var pcm := s.pcm + chunk;
    var n := Completed(Count(|pcm|), stop);
    State(pcm[n * HOP..], s.offset + n * HOP, s.frames + Windows(pcm, n))
  }

  const START := State([], 0, [])

  function Run(chunks: seq<seq<int>>, stops: seq<Stop>): State
    requires |chunks| == |stops|
  {
    if chunks == [] then START
    else Push(Run(chunks[..|chunks| - 1], stops[..|stops| - 1]), chunks[|chunks| - 1], stops[|stops| - 1])
  }

  /** The stream has given out the first frames of everything pushed, and holds the rest. */
  ghost predicate Consumed(s: State, pushed: seq<int>) {
    && s.offset == |s.frames| * HOP <= |pushed|
    && s.pcm == pushed[s.offset..]
    && |s.frames| <= Count(|pushed|) && s.frames == Windows(pushed, |s.frames|)
  }

  lemma WindowShift(pushed: seq<int>, done: nat, i: nat)
    requires done * HOP <= |pushed| && i < Count(|pushed| - done * HOP)
    ensures done + i < Count(|pushed|)
    ensures Window(pushed[done * HOP..], i) == Window(pushed, done + i)
  {
    assert (done + i) * HOP == done * HOP + i * HOP;
  }

  lemma WindowExtends(pushed: seq<int>, chunk: seq<int>, i: nat)
    requires i < Count(|pushed|)
    ensures i < Count(|pushed + chunk|) && Window(pushed + chunk, i) == Window(pushed, i)
  {
  }

  lemma WindowsExtend(pushed: seq<int>, chunk: seq<int>, n: nat)
    requires n <= Count(|pushed|)
    ensures n <= Count(|pushed + chunk|) && Windows(pushed + chunk, n) == Windows(pushed, n)
  {
    forall i: nat | i < n ensures Window(pushed + chunk, i) == Window(pushed, i) { WindowExtends(pushed, chunk, i); }
  }

  lemma WindowsAppend(pushed: seq<int>, done: nat, n: nat)
    requires done * HOP <= |pushed| && n <= Count(|pushed| - done * HOP) && done <= Count(|pushed|)
    ensures done + n <= Count(|pushed|)
    ensures Windows(pushed, done) + Windows(pushed[done * HOP..], n) == Windows(pushed, done + n)
  {
    forall i: nat | i < n ensures Window(pushed[done * HOP..], i) == Window(pushed, done + i) {
      WindowShift(pushed, done, i);
    }
  }

  lemma PushKeeps(s: State, pushed: seq<int>, chunk: seq<int>, stop: Stop)
    requires Consumed(s, pushed)
    ensures Consumed(Push(s, chunk, stop), pushed + chunk)
    ensures stop == Never ==> |Push(s, chunk, stop).frames| == Count(|pushed + chunk|)
  {
    var all, done := pushed + chunk, |s.frames|;
    var pcm := s.pcm + chunk;
    assert pcm == all[s.offset..];
    var n := Completed(Count(|pcm|), stop);
    WindowsExtend(pushed, chunk, done);
    WindowsAppend(all, done, n);
    assert pcm[n * HOP..] == all[(done + n) * HOP..];
  }

  /** After any run of pushes, whole or cut short, the frames given out are the first ones of the joined audio. */
  lemma {:induction false} RunConsumes(chunks: seq<seq<int>>, stops: seq<Stop>)
    requires |chunks| == |stops|
    ensures Consumed(Run(chunks, stops), Joined(chunks))
    ensures chunks != [] && stops[|stops| - 1] == Never ==> |Run(chunks, stops).frames| == Count(|Joined(chunks)|)
  {
    if chunks != [] {
      RunConsumes(chunks[..|chunks| - 1], stops[..|stops| - 1]);
      var front, s := chunks[..|chunks| - 1], Run(chunks[..|chunks| - 1], stops[..|stops| - 1]);
      PushKeeps(s, Joined(front), chunks[|chunks| - 1], stops[|stops| - 1]);
    }
  }

  /** How the audio was cut into pushes, and which calls failed on the way, leaves no trace once a call succeeds. */
  lemma PushSizesDoNotMatter(a: seq<seq<int>>, b: seq<seq<int>>, stopsA: seq<Stop>, stopsB: seq<Stop>)
    requires a != [] && b != [] && |a| == |stopsA| && |b| == |stopsB| && Joined(a) == Joined(b)
    requires stopsA[|stopsA| - 1] == Never && stopsB[|stopsB| - 1] == Never
    ensures Run(a, stopsA) == Run(b, stopsB)
    ensures Run(a, stopsA).frames == Windows(Joined(a), Count(|Joined(a)|))
    ensures forall i: nat :: Fits(i, |Joined(a)|) <==> i < |Run(a, stopsA).frames|
  {
    RunConsumes(a, stopsA);
    RunConsumes(b, stopsB);
    forall i: nat ensures Fits(i, |Joined(a)|) <==> i < Count(|Joined(a)|) { CountMeans(|Joined(a)|, i); }
  }

  class Stream {
    var pcm: seq<int>
    var offset: nat
    ghost var frames: seq<seq<int>>

    ghost function View(): State reads this { State(pcm, offset, frames) }

    constructor ()
      ensures View() == START
    {
      pcm, offset, frames := [], 0, [];
    }

    /** The frame loop; what was completed is consumed however the call ends. */
    method StreamVad(chunk: seq<int>, stop: Stop) returns (processed: nat, ok: bool)
      modifies this
      ensures View() == Push(old(View()), chunk, stop)
      ensures ok ==> processed == Count(|old(pcm) + chunk|)
      ensures ok <==> stop.Never? || stop.frame >= Count(|old(pcm) + chunk|)
    {
      pcm := pcm + chunk;
      ghost var all, available := pcm, Count(|pcm|);
      var position, completed: nat := 0, 0;
      ghost var given: seq<seq<int>> := [];
      processed, ok := 0, true;
      while ok && position + FRAME <= |pcm|
        invariant pcm == all && offset == old(offset) && frames == old(frames)
        invariant completed <= available && given == Windows(all, completed)
        invariant ok ==> position == completed * HOP && processed == completed
        invariant ok ==> completed <= Completed(available, stop) && (stop.Never? || completed <= stop.frame)
        invariant !ok ==> completed == Completed(available, stop) && !stop.Never? && stop.frame < available
        decreases |pcm| - position, ok
      {
        if stop == FailsAt(completed) {
          ok := false;
        } else {
          given := given + [Window(all, completed)];
          if stop == CancelledAt(completed) { ok := false; }
          else { processed := processed + 1; position := position + HOP; }
          completed := completed + 1;
        }
      }
      pcm := pcm[completed * HOP..];
      offset := offset + completed * HOP;
      frames := frames + given;
    }
  }
}

/** The cached decoder: fixed-size blocks out of pushes of any size. */
module BlockStream {
  import opened Audio

  datatype State = State(pending: seq<int>, decoded: nat, blocks: seq<seq<int>>)

  /** Takes whole blocks off the pending samples, at most a given number of them. */
  function Drain(s: State, threshold: nat, most: nat): State
    requires threshold > 0
    decreases |s.pending|
  {
    if |s.pending| < threshold || most == 0 then s
    else Drain(State(s.pending[threshold..], s.decoded + threshold, s.blocks + [s.pending[..threshold]]), threshold,
               most - 1)
  }

  /** A push; a decode that fails or is cancelled ends the call with its block already taken. */
  function Push(s: State, chunk: seq<int>, threshold: nat, failsAt: nat): State
    requires threshold > 0
  {
    Drain(s.(pending := s.pending + chunk), threshold, failsAt + 1)
  }

  /** The last, short block of a confirmed utterance. */
  function Flush(s: State): State {
    State([], s.decoded + |s.pending|, s.blocks + [s.pending])
  }

  datatype Event = Pushed(chunk: seq<int>, failsAt: nat) | Flushed

  const START := State([], 0, [])

  function Step(s: State, e: Event, threshold: nat): State
    requires threshold > 0
  {
    match e
    case Pushed(chunk, failsAt) => Push(s, chunk, threshold, failsAt)
    case Flushed => Flush(s)
  }

  function Run(events: seq<Event>, threshold: nat): State
    requires threshold > 0
  {
    if events == [] then START else Step(Run(events[..|events| - 1], threshold), events[|events| - 1], threshold)
  }

  function AllPushed(events: seq<Event>): seq<int> {
    if events == [] then []
    else AllPushed(events[..|events| - 1]) + Given(events[|events| - 1])
  }

  function Given(e: Event): seq<int> { if e.Pushed? then e.chunk else [] }

  /** Every sample pushed is in one block or pending, in order; the count of decoded samples is that of the blocks. */
  ghost predicate Accounted(s: State, pushed: seq<int>) {
    Joined(s.blocks) + s.pending == pushed && s.decoded == |Joined(s.blocks)|
  }

  predicate AllFull(blocks: seq<seq<int>>, threshold: nat) {
    forall k :: 0 <= k < |blocks| ==> |blocks[k]| == threshold
  }

  lemma JoinedMore(blocks: seq<seq<int>>, block: seq<int>)
    ensures Joined(blocks + [block]) == Joined(blocks) + block
  {
    assert (blocks + [block])[..|blocks|] == blocks;
  }

  lemma {:induction false} DrainKeeps(s: State, threshold: nat, most: nat, pushed: seq<int>)
    requires threshold > 0 && Accounted(s, pushed)
    ensures Accounted(Drain(s, threshold, most), pushed)
    ensures AllFull(s.blocks, threshold) ==> AllFull(Drain(s, threshold, most).blocks, threshold)
    decreases |s.pending|
  {
    if |s.pending| >= threshold && most > 0 {
      var block, rest := s.pending[..threshold], s.pending[threshold..];
      JoinedMore(s.blocks, block);
      assert s.pending == block + rest;
      assert Joined(s.blocks) + block + rest == Joined(s.blocks) + (block + rest);
      DrainKeeps(State(rest, s.decoded + threshold, s.blocks + [block]), threshold, most - 1, pushed);
    }
  }

  lemma PushKeeps(s: State, chunk: seq<int>, failsAt: nat, threshold: nat, pushed: seq<int>)
    requires threshold > 0 && Accounted(s, pushed)
    ensures Accounted(Push(s, chunk, threshold, failsAt), pushed + chunk)
    ensures AllFull(s.blocks, threshold) ==> AllFull(Push(s, chunk, threshold, failsAt).blocks, threshold)
  {
    var t := s.(pending := s.pending + chunk);
    assert Joined(s.blocks) + (s.pending + chunk) == Joined(s.blocks) + s.pending + chunk;
    DrainKeeps(t, threshold, failsAt + 1, pushed + chunk);
  }

  lemma FlushKeeps(s: State, pushed: seq<int>)
    requires Accounted(s, pushed)
    ensures Accounted(Flush(s), pushed)
  {
    JoinedMore(s.blocks, s.pending);
    assert Joined(s.blocks) + s.pending + [] == pushed;
  }

  /** Nothing is lost or decoded twice, whatever fails. */
  lemma {:induction false} RunAccounts(events: seq<Event>, threshold: nat)
    requires threshold > 0
    ensures Accounted(Run(events, threshold), AllPushed(events))
    ensures Pushes(events) ==> AllFull(Run(events, threshold).blocks, threshold)
  {
    if events != [] {
      var front, s, last := events[..|events| - 1], Run(events[..|events| - 1], threshold), events[|events| - 1];
      RunAccounts(front, threshold);
      if last.Pushed? {
        PushKeeps(s, last.chunk, last.failsAt, threshold, AllPushed(front));
      } else {
        FlushKeeps(s, AllPushed(front));
        assert AllPushed(front) + [] == AllPushed(front);
      }
    }
  }

  /** Full blocks and a short rest are determined by what they join to. */
  lemma {:induction false} BlocksUnique(a: seq<seq<int>>, restA: seq<int>, b: seq<seq<int>>, restB: seq<int>,
                                        threshold: nat)
    requires AllFull(a, threshold) && AllFull(b, threshold) && |restA| < threshold && |restB| < threshold
    requires Joined(a) + restA == Joined(b) + restB
    ensures a == b && restA == restB
    decreases |a|
  {
    JoinedLength(a, threshold);
    JoinedLength(b, threshold);
    SameQuotient(|a|, |restA|, |b|, |restB|, threshold);
    assert Joined(a) == (Joined(a) + restA)[..|Joined(a)|];
    assert restA == (Joined(a) + restA)[|Joined(a)|..];
    JoinedInjective(a, b, threshold);
  }

  lemma {:induction false} SameQuotient(a: nat, x: nat, b: nat, y: nat, threshold: nat)
    requires x < threshold && y < threshold && a * threshold + x == b * threshold + y
    ensures a == b && x == y
  {
    if a > 0 { OneLess(a, threshold); }
    if b > 0 { OneLess(b, threshold); }
    if a > 0 && b > 0 { SameQuotient(a - 1, x, b - 1, y, threshold); }
  }

  lemma OneLess(a: nat, threshold: nat)
    requires a > 0
    ensures a * threshold == (a - 1) * threshold + threshold && (a - 1) * threshold >= 0
  {
  }

  lemma {:induction false} JoinedLength(blocks: seq<seq<int>>, threshold: nat)
    requires AllFull(blocks, threshold)
    ensures |Joined(blocks)| == |blocks| * threshold
  {
    if blocks != [] {
      JoinedLength(blocks[..|blocks| - 1], threshold);
      OneLess(|blocks|, threshold);
    }
  }

  lemma {:induction false} JoinedInjective(a: seq<seq<int>>, b: seq<seq<int>>, threshold: nat)
    requires AllFull(a, threshold) && AllFull(b, threshold) && |a| == |b| && Joined(a) == Joined(b)
    ensures a == b
  {
    if a != [] {
      var frontA, frontB := a[..|a| - 1], b[..|b| - 1];
      JoinedLength(frontA, threshold);
      JoinedLength(frontB, threshold);
      assert Joined(frontA) == Joined(a)[..|Joined(frontA)|] && Joined(frontB) == Joined(b)[..|Joined(frontA)|];
      assert a[|a| - 1] == Joined(a)[|Joined(frontA)|..] && b[|b| - 1] == Joined(b)[|Joined(frontA)|..];
      JoinedInjective(frontA, frontB, threshold);
      assert a == frontA + [a[|a| - 1]] && b == frontB + [b[|b| - 1]];
    }
  }

  predicate Pushes(events: seq<Event>) { forall k :: 0 <= k < |events| ==> events[k].Pushed? }

  /** The blocks do not depend on how the audio was cut into pushes, once no whole block is pending. */
  lemma PushSizesDoNotMatter(a: seq<Event>, b: seq<Event>, threshold: nat)
    requires threshold > 0 && Pushes(a) && Pushes(b) && AllPushed(a) == AllPushed(b)
    requires |Run(a, threshold).pending| < threshold && |Run(b, threshold).pending| < threshold
    ensures Run(a, threshold) == Run(b, threshold)
  {
    RunAccounts(a, threshold);
    RunAccounts(b, threshold);
    BlocksUnique(Run(a, threshold).blocks, Run(a, threshold).pending, Run(b, threshold).blocks,
                 Run(b, threshold).pending, threshold);
  }

  lemma {:induction false} DrainShort(s: State, threshold: nat, most: nat)
    requires threshold > 0 && |s.pending| < most * threshold
    ensures |Drain(s, threshold, most).pending| < threshold
    decreases |s.pending|
  {
    if |s.pending| >= threshold {
      assert (most - 1) * threshold == most * threshold - threshold;
      DrainShort(State(s.pending[threshold..], s.decoded + threshold, s.blocks + [s.pending[..threshold]]), threshold,
                 most - 1);
    }
  }

  /** The last event is a push that is done before the decode that would fail. */
  predicate EndsWell(events: seq<Event>, threshold: nat)
    requires threshold > 0
  {
    && events != [] && events[|events| - 1].Pushed?
    && var last := events[|events| - 1];
       |Run(events[..|events| - 1], threshold).pending + last.chunk| < (last.failsAt + 1) * threshold
  }

  lemma EndsWellDrains(events: seq<Event>, threshold: nat)
    requires threshold > 0 && EndsWell(events, threshold)
    ensures |Run(events, threshold).pending| < threshold
  {
    var s, last := Run(events[..|events| - 1], threshold), events[|events| - 1];
    DrainShort(s.(pending := s.pending + last.chunk), threshold, last.failsAt + 1);
  }

  /** So once a push succeeds, neither the cutting nor any earlier failure leaves a trace. */
  lemma SuccessLeavesNoTrace(a: seq<Event>, b: seq<Event>, threshold: nat)
    requires threshold > 0 && Pushes(a) && Pushes(b) && AllPushed(a) == AllPushed(b)
    requires EndsWell(a, threshold) && EndsWell(b, threshold)
    ensures Run(a, threshold) == Run(b, threshold)
  {
    EndsWellDrains(a, threshold);
    EndsWellDrains(b, threshold);
    PushSizesDoNotMatter(a, b, threshold);
  }

  class Stream {
    const threshold: nat
    var pending: seq<int>
    var decoded: nat
    ghost var blocks: seq<seq<int>>

    ghost function View(): State reads this { State(pending, decoded, blocks) }

    constructor (threshold: nat)
      requires threshold > 0
      ensures this.threshold == threshold && View() == START
    {
      this.threshold := threshold;
      pending, decoded, blocks := [], 0, [];
    }

    /** The decode numbered failsAt raises, if the loop gets that far. */
    method PushPcm(chunk: seq<int>, base: int, failsAt: nat) returns (ok: bool, end: int)
      requires threshold > 0
      modifies this`pending, this`decoded, this`blocks
      ensures View() == Push(old(View()), chunk, threshold, failsAt)
      ensures ok ==> |pending| < threshold
      ensures ok && decoded > old(decoded) ==> end == base + decoded
    {
      pending := pending + chunk;
      ok, end := true, base;
      var calls: nat := 0;
      while ok && |pending| >= threshold
        invariant ok ==> calls <= failsAt && Drain(View(), threshold, failsAt + 1 - calls) == Push(old(View()), chunk,
            threshold, failsAt)
        invariant !ok ==> View() == Push(old(View()), chunk, threshold, failsAt)
        invariant decoded >= old(decoded) && (decoded > old(decoded) ==> end == base + decoded)
        decreases |pending|, ok
      {
        blocks := blocks + [pending[..threshold]];
        pending := pending[threshold..];
        decoded := decoded + threshold;
        end := base + decoded;
        ok := calls != failsAt;
        calls := calls + 1;
      }
    }

    /** The fast confirmation: the rest, padded with silence to a block, and nothing pending. */
    method FlushFast() returns (padded: seq<int>)
      requires threshold > 0
      modifies this`pending, this`decoded, this`blocks
      ensures View() == Flush(old(View()))
      ensures old(pending) <= padded && |padded| == if |old(pending)| < threshold then threshold else |old(pending)|
      ensures forall i :: |old(pending)| <= i < |padded| ==> padded[i] == 0
    {
      var actual := |pending|;
      padded := pending + if actual < threshold then seq(threshold - actual, i => 0) else [];
      blocks := blocks + [pending];
      pending := [];
      decoded := decoded + actual;
    }
  }
}

/** The batch decoder used for streaming: it redecodes everything, ever more rarely. */
module Redecoding {
  import opened Common

  const FOUR_SECONDS: nat := 4 * SAMPLE_RATE

  /** New samples needed before the next interim decode. */
  function Threshold(base: nat, previous: nat): nat { Max(base, Min(FOUR_SECONDS, previous / 2)) }

  /** All samples, the length last decoded, and every length decoded so far. */
  datatype State = State(samples: nat, decoded: nat, decodes: seq<nat>)

  /** A push of some samples; a decode that fails is not recorded. */
  function Push(s: State, count: nat, base: nat, succeeds: bool): State {
    var samples := s.samples + count;
    if samples - s.decoded < Threshold(base, s.decoded) || !succeeds then s.(samples := samples)
    else State(samples, samples, s.decodes + [samples])
  }

  const START := State(0, 0, [])

  /** The samples and the outcome of each push. */
  function Run(pushes: seq<(nat, bool)>, base: nat): State {
    if pushes == [] then START
    else Push(Run(pushes[..|pushes| - 1], base), pushes[|pushes| - 1].0, base, pushes[|pushes| - 1].1)
  }

  /** Each length exceeds the one before by at least its threshold. */
  predicate Spaced(decodes: seq<nat>, base: nat) {
    && (decodes != [] ==> decodes[0] >= base)
    && forall i :: 0 < i < |decodes| ==> decodes[i] >= decodes[i - 1] + Threshold(base, decodes[i - 1])
  }

  predicate Inv(s: State, base: nat) {
    Spaced(s.decodes, base) && s.decoded <= s.samples && s.decoded == if s.decodes == [] then 0
        else s.decodes[|s.decodes| - 1]
  }

  lemma PushSpaces(s: State, count: nat, base: nat, succeeds: bool)
    requires Inv(s, base)
    ensures Inv(Push(s, count, base, succeeds), base)
  {
    var after := Push(s, count, base, succeeds);
    forall i | 0 < i < |after.decodes|
      ensures after.decodes[i] >= after.decodes[i - 1] + Threshold(base, after.decodes[i - 1]) {
      if i < |s.decodes| { assert after.decodes[i] == s.decodes[i] && after.decodes[i - 1] == s.decodes[i - 1]; }
    }
  }

  lemma {:induction false} RunSpaces(pushes: seq<(nat, bool)>, base: nat)
    ensures Inv(Run(pushes, base), base)
  {
    if pushes != [] {
      RunSpaces(pushes[..|pushes| - 1], base);
      PushSpaces(Run(pushes[..|pushes| - 1], base), pushes[|pushes| - 1].0, base, pushes[|pushes| - 1].1);
    }
  }

  /** At least the base is new; after two decoded seconds or more at least half of what was decoded, four seconds at
      most. */
  predicate EnoughIsNew(decoded: nat, samples: nat, base: nat) {
    && samples >= decoded + base
    && (samples >= decoded + decoded / 2 || samples >= decoded + 64000)
  }

  /** A push decodes everything exactly when enough is new and the decode succeeds; else it only collects. */
  lemma PushDecodesIff(s: State, count: nat, base: nat, succeeds: bool)
    requires Inv(s, base)
    ensures var t := Push(s, count, base, succeeds);
      && t.samples == s.samples + count
      && (if succeeds && EnoughIsNew(s.decoded, t.samples, base)
          then t.decoded == t.samples && t.decodes == s.decodes + [t.samples]
          else t.decoded == s.decoded && t.decodes == s.decodes)
  {
  }

  /** After any run that ends with a push that did not fail, the interim result keeps up with the speech: all of it is
      covered, or not enough is new. */
  lemma KeepsUp(pushes: seq<(nat, bool)>, base: nat)
    requires pushes != [] && pushes[|pushes| - 1].1
    ensures var s := Run(pushes, base); s.decoded == s.samples || !EnoughIsNew(s.decoded, s.samples, base)
  {
    RunSpaces(pushes[..|pushes| - 1], base);
  }

  function Total(decodes: seq<nat>): nat {
    if decodes == [] then 0 else Total(decodes[..|decodes| - 1]) + decodes[|decodes| - 1]
  }

  /** While the speech is at most eight seconds long, redecoding costs at most three times the last decode, and one
      sample each. */
  lemma {:induction false} EarlyDecodesAreLinear(decodes: seq<nat>, base: nat)
    requires Spaced(decodes, base) && decodes != []
    requires AllButLastEarly(decodes)
    ensures Total(decodes) <= 3 * decodes[|decodes| - 1] + |decodes|
  {
    var front, n := decodes[..|decodes| - 1], |decodes|;
    if front != [] {
      EarlyDecodesAreLinear(front, base);
      assert decodes[n - 1] >= decodes[n - 2] + decodes[n - 2] / 2;
    }
  }

  /** The interim cost of any run of pushes whose decodes but the last fell within eight seconds. */
  lemma InterimCostIsLinear(pushes: seq<(nat, bool)>, base: nat)
    requires AllButLastEarly(Run(pushes, base).decodes)
    ensures var s := Run(pushes, base); Total(s.decodes) <= 3 * s.samples + |s.decodes|
  {
    RunSpaces(pushes, base);
    if Run(pushes, base).decodes != [] { EarlyDecodesAreLinear(Run(pushes, base).decodes, base); }
  }

  /** What a decode of p + x samples may add to the total, when x samples are new. */
  lemma CostStep(p: nat, x: nat)
    requires x >= FOUR_SECONDS || 2 * x + 1 >= p
    ensures 2 * FOUR_SECONDS * (p + x) <= (p + x) * (p + x) - p * p + 6 * FOUR_SECONDS * x + 2 * FOUR_SECONDS
  {
    assert (p + x) * (p + x) == p * p + 2 * (p * x) + x * x;
    if x >= FOUR_SECONDS {
      assert p * x >= p * FOUR_SECONDS;
    }
    assert x * x >= 0 && p * x >= 0;
  }

  /** Eight seconds times what some decodes may cost, the last of them of this length. */
  function Budget(last: nat, decodes: nat): nat { last * last + 6 * FOUR_SECONDS * last + 2 * FOUR_SECONDS * decodes }

  lemma BudgetMonotone(a: nat, b: nat, decodes: nat)
    requires a <= b
    ensures Budget(a, decodes) <= Budget(b, decodes)
  {
    assert a * a <= a * b <= b * b;
  }

  /** However long the speech: the total is at most three times the last decode, one sample each, and its square over
      eight seconds. */
  lemma {:induction false} DecodesAreQuadratic(decodes: seq<nat>, base: nat)
    requires Spaced(decodes, base) && decodes != []
    ensures 2 * FOUR_SECONDS * Total(decodes) <= Budget(decodes[|decodes| - 1], |decodes|)
  {
    var front, n := decodes[..|decodes| - 1], |decodes|;
    if front == [] {
      assert Total(decodes) == decodes[0];
      CostStep(0, decodes[0]);
    } else {
      DecodesAreQuadratic(front, base);
      assert decodes[n - 1] >= decodes[n - 2] + Threshold(base, decodes[n - 2]);
      CostStep(decodes[n - 2], decodes[n - 1] - decodes[n - 2]);
    }
  }

  /** The interim cost of every run of pushes. */
  lemma InterimCostIsQuadratic(pushes: seq<(nat, bool)>, base: nat)
    ensures var s := Run(pushes, base); 2 * FOUR_SECONDS * Total(s.decodes) <= Budget(s.samples, |s.decodes|)
  {
    RunSpaces(pushes, base);
    var s := Run(pushes, base);
    if s.decodes != [] {
      DecodesAreQuadratic(s.decodes, base);
      BudgetMonotone(s.decoded, s.samples, |s.decodes|);
    }
  }

  predicate AllButLastEarly(decodes: seq<nat>) {
    forall i :: 0 <= i < |decodes| - 1 ==> decodes[i] <= 2 * FOUR_SECONDS + 1
  }

  /** Past eight seconds, decodes are at least four seconds apart. */
  lemma {:induction false} LateDecodesAreRare(decodes: seq<nat>, base: nat, i: nat, j: nat)
    requires Spaced(decodes, base) && i <= j < |decodes| && decodes[i] >= 2 * FOUR_SECONDS
    ensures decodes[j] >= decodes[i] + FOUR_SECONDS * (j - i)
    decreases j
  {
    if i < j {
      LateDecodesAreRare(decodes, base, i, j - 1);
      assert FOUR_SECONDS * (j - i) == FOUR_SECONDS * (j - 1 - i) + FOUR_SECONDS;
    }
  }

  class Stream {
    const base: nat
    var samples: nat
    var decoded: nat
    /** How many samples the last interim result covers, if there is one. */
    var last: Option<nat>
    ghost var decodes: seq<nat>

    ghost function View(): State reads this { State(samples, decoded, decodes) }

    ghost predicate Valid() reads this {
      Inv(View(), base) && (last == if decodes == [] then None else Some(decoded))
    }

    constructor (base: nat)
      ensures this.base == base && View() == START && Valid()
    {
      this.base := base;
      samples, decoded, last, decodes := 0, 0, None, [];
    }

    method StreamPush(count: nat, succeeds: bool) returns (decodedNow: bool)
      requires Valid()
      modifies this`samples, this`decoded, this`last, this`decodes
      ensures Valid() && View() == Push(old(View()), count, base, succeeds)
      ensures decodedNow <==> samples - old(decoded) >= Threshold(base, old(decoded)) && succeeds
    {
      PushSpaces(View(), count, base, succeeds);
      samples := samples + count;
      var previous := decoded;
      var threshold := Max(base, Min(FOUR_SECONDS, previous / 2));
      if samples - decoded < threshold { return false; }
      if !succeeds { return false; }
      decoded := samples;
      last := Some(samples);
      decodes := decodes + [samples];
      return true;
    }

    /** The text handed out at the end always covers every sample, even when it was decoded before. */
    method StreamFlush(fast: bool) returns (covered: nat)
      requires Valid()
      ensures covered == samples
    {
      if fast && last.Some? && decoded == samples {
        return last.value;
      }
      return samples;
    }
  }
}
