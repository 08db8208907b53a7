/** The streaming voice-activity session, against a description of its regions by speech frames alone. */
module Vad {
  import opened Common

  /** Frames are non-empty and carry a probability. */
  datatype RawFrame = Frame(start: nat, end: nat, probability: real)
  type Frame = f: RawFrame | f.start < f.end && 0.0 <= f.probability <= 1.0 witness Frame(0, 1, 0.0)

  datatype Region = Region(start: nat, end: nat, score: real)

  /** Minimum lengths and padding in samples, as the adapter derives them. */
  datatype Config = Config(threshold: real, minSpeech: nat, minSilence: nat, padding: nat, total: nat) {
    predicate Positive() { 0.0 < threshold <= 1.0 && minSpeech > 0 && minSilence > 0 }
  }

  function MaxScore(a: real, b: real): real { if a >= b then a else b }

  /** What a session is given: frames, and flushes between them. */
  datatype Input = Push(frame: Frame) | Flush

  predicate IsSpeech(c: Config, f: Frame) { f.probability >= c.threshold }

  // ----- Grouping speech frames -----

  /** The groups so far, and whether the last one may still be extended. */
  datatype Grouping = Grouping(groups: seq<Region>, open: bool)

  predicate Joins(c: Config, g: Grouping, f: Frame) {
    g.open && g.groups != [] && f.start - g.groups[|g.groups| - 1].end < c.minSilence
  }

  function AddSpeech(c: Config, g: Grouping, f: Frame): Grouping {
    if Joins(c, g, f) then
      var last := g.groups[|g.groups| - 1];
      Grouping(g.groups[..|g.groups| - 1] + [Region(last.start, f.end, MaxScore(last.score, f.probability))], true)
    else Grouping(g.groups + [Region(f.start, f.end, MaxScore(0.0, f.probability))], true)
  }

  /** Speech frames closer than the minimum silence form one group; a flush ends the group before it;
      silent frames play no part. */
  function Groups(c: Config, inputs: seq<Input>): Grouping {
    if inputs == [] then Grouping([], false)
    else
      var before := Groups(c, inputs[..|inputs| - 1]);
      match inputs[|inputs| - 1]
      case Flush => Grouping(before.groups, false)
      case Push(f) => if IsSpeech(c, f) then AddSpeech(c, before, f) else before
  }

  // ----- Publishing finished groups -----

  function Padded(c: Config, g: Region): Region {
    Region(Max(0, g.start - c.padding), Min(c.total, g.end + c.padding), g.score)
  }

  /** The regions kept, and the ones handed out by the calls that created them. */
  datatype Published = Published(regions: seq<Region>, emitted: seq<Region>)

  predicate Touches(p: Published, candidate: Region) {
    p.regions != [] && candidate.start <= p.regions[|p.regions| - 1].end
  }

  function PublishOne(c: Config, p: Published, g: Region): Published {
    if g.end - g.start < c.minSpeech then p
    else
      var candidate := Padded(c, g);
      if Touches(p, candidate) then
        var last := p.regions[|p.regions| - 1];
        var merged := Region(last.start, Max(last.end, candidate.end), MaxScore(last.score, candidate.score));
        Published(p.regions[..|p.regions| - 1] + [merged], p.emitted)
      else Published(p.regions + [candidate], p.emitted + [candidate])
  }

  function Publish(c: Config, groups: seq<Region>): Published {
    if groups == [] then Published([], [])
    else PublishOne(c, Publish(c, groups[..|groups| - 1]), groups[|groups| - 1])
  }

  // ----- The session -----

  function LastEnd(inputs: seq<Input>): nat {
    if inputs == [] then 0
    else
      match inputs[|inputs| - 1]
      case Push(f) => f.end
      case Flush => LastEnd(inputs[..|inputs| - 1])
  }

  /** Frames arrive in order and inside the audio. */
  predicate Ordered(c: Config, inputs: seq<Input>) {
    inputs == [] || (
      && Ordered(c, inputs[..|inputs| - 1])
      && (inputs[|inputs| - 1].Push? ==>
            LastEnd(inputs[..|inputs| - 1]) <= inputs[|inputs| - 1].frame.start
                && inputs[|inputs| - 1].frame.end <= c.total)
    )
  }

  /** The session's fields say what the groups are: the last one active, or all of them published. */
  ghost predicate Mirrors(c: Config, g: Grouping, lastEnd: nat, start: Option<nat>, end: Option<nat>, score: real,
                          p: Published) {
    && (start.Some? <==> end.Some?)
    && (start.Some? ==>
          && g.open && g.groups != []
          && Region(start.value, end.value, score) == g.groups[|g.groups| - 1]
          && p == Publish(c, g.groups[..|g.groups| - 1]))
    && (start.None? ==>
          && score == 0.0
          && p == Publish(c, g.groups)
          && (g.open ==> g.groups != [] && lastEnd - g.groups[|g.groups| - 1].end >= c.minSilence))
  }

  class StreamingSession {
    const config: Config
    var activeStart: Option<nat>
    var lastSpeechEnd: Option<nat>
    var score: real
    var lastFrameEnd: nat
    var regions: seq<Region>
    ghost var inputs: seq<Input>
    ghost var emitted: seq<Region>

    /** The fields are the groups of the inputs: the last one active, or all of them published. */
    ghost predicate Valid()
      reads this
    {
      && Ordered(config, inputs) && lastFrameEnd == LastEnd(inputs)
      && Mirrors(config, Groups(config, inputs), lastFrameEnd, activeStart, lastSpeechEnd, score,
                 Published(regions, emitted))
    }

    constructor (config: Config)
      ensures Valid() && this.config == config && inputs == [] && emitted == [] && regions == []
    {
      this.config := config;
      activeStart, lastSpeechEnd, score, lastFrameEnd, regions := None, None, 0.0, 0, [];
      inputs, emitted := [], [];
    }

    /** Accepts an ordered frame and returns the regions it completed; anything else is refused. */
    method PushFrame(frame: Frame) returns (ok: bool, out: seq<Region>)
      requires Valid()
      modifies this
      ensures Valid()
      ensures ok <==> Ordered(config, old(inputs) + [Push(frame)])
      ensures ok ==> inputs == old(inputs) + [Push(frame)] && emitted == old(emitted) + out
      ensures !ok ==> inputs == old(inputs) && emitted == old(emitted) && regions == old(regions) && out == []
    {
      ghost var g := Groups(config, inputs);
      if frame.start < lastFrameEnd || frame.end > config.total {
        return false, [];
      }
      lastFrameEnd := frame.end;
      var before := |regions|;
      if activeStart.Some? && lastSpeechEnd.Some? && frame.start - lastSpeechEnd.value >= config.minSilence {
        FinishActive();
      }
      assert Mirrors(config, g, frame.start, activeStart, lastSpeechEnd, score, Published(regions, emitted));
      if frame.probability >= config.threshold {
        if activeStart.None? {
          activeStart := Some(frame.start);
        }
        lastSpeechEnd := Some(frame.end);
        score := MaxScore(score, frame.probability);
      } else if activeStart.Some? && lastSpeechEnd.Some? && frame.end - lastSpeechEnd.value >= config.minSilence {
        FinishActive();
      }
      inputs := inputs + [Push(frame)];
      ok, out := true, regions[before..];
    }

    method FlushSession() returns (out: seq<Region>)
      requires Valid()
      modifies this
      ensures Valid() && inputs == old(inputs) + [Flush] && emitted == old(emitted) + out
      ensures Published(regions, emitted) == Publish(config, Groups(config, inputs).groups)
    {
      assert (inputs + [Flush])[..|inputs|] == inputs;
      var before := |regions|;
      FinishActive();
      inputs := inputs + [Flush];
      out := regions[before..];
    }

    /** Publishes the active group, if any. */
    method FinishActive()
      requires activeStart.Some? <==> lastSpeechEnd.Some?
      requires activeStart.None? ==> score == 0.0
      modifies this`activeStart, this`lastSpeechEnd, this`score, this`regions, this`emitted
      ensures activeStart.None? && lastSpeechEnd.None? && score == 0.0
      ensures Published(regions, emitted) ==
        if old(activeStart).None? then Published(old(regions), old(emitted))
        else PublishOne(config, Published(old(regions), old(emitted)),
                        Region(old(activeStart).value, old(lastSpeechEnd).value, old(score)))
      ensures |regions| >= |old(regions)| && emitted == old(emitted) + regions[|old(regions)|..]
    {
      if activeStart.None? || lastSpeechEnd.None? { return; }
      if lastSpeechEnd.value - activeStart.value >= config.minSpeech {
        var start := Max(0, activeStart.value - config.padding);
        var end := Min(config.total, lastSpeechEnd.value + config.padding);
        var candidate := Region(start, end, score);
        if regions != [] && candidate.start <= regions[|regions| - 1].end {
          var previous := regions[|regions| - 1];
          regions := regions[..|regions| - 1];
          candidate := Region(previous.start, Max(previous.end, end), MaxScore(previous.score, candidate.score));
          regions := regions + [candidate];
        } else {
          regions := regions + [candidate];
          emitted := emitted + [candidate];
        }
      }
      activeStart, lastSpeechEnd, score := None, None, 0.0;
    }
  }

  // ----- What the groups are -----

  /** The input without its silent frames. */
  function SpeechOnly(c: Config, inputs: seq<Input>): seq<Input> {
    if inputs == [] then []
    else
      var last := inputs[|inputs| - 1];
      SpeechOnly(c, inputs[..|inputs| - 1]) + if last.Push? && last.frame.probability < c.threshold then [] else [last]
  }

  /** The regions do not depend on how silence was framed: dropping every silent frame changes nothing. */
  lemma {:induction false} SilenceIsIrrelevant(c: Config, inputs: seq<Input>)
    ensures Groups(c, SpeechOnly(c, inputs)) == Groups(c, inputs)
  {
    if inputs != [] {
      SilenceIsIrrelevant(c, inputs[..|inputs| - 1]);
      var front, last := SpeechOnly(c, inputs[..|inputs| - 1]), inputs[|inputs| - 1];
      if last.Push? && last.frame.probability < c.threshold {
        assert SpeechOnly(c, inputs) == front;
      } else {
        assert SpeechOnly(c, inputs) == front + [last];
        assert (front + [last])[..|front|] == front;
      }
    }
  }

  /** A flush parts the speech before it from the speech after it. */
  lemma {:induction false} FlushParts(c: Config, before: seq<Input>, after: seq<Input>)
    ensures Groups(c, before + [Flush] + after)
         == Grouping(Groups(c, before).groups + Groups(c, after).groups, Groups(c, after).open)
    ensures Groups(c, after).groups == [] ==> !Groups(c, after).open
  {
    var all := before + [Flush] + after;
    if after == [] {
      assert all == before + [Flush] && all[..|all| - 1] == before;
    } else {
      var front := after[..|after| - 1];
      assert all[..|all| - 1] == before + [Flush] + front && all[|all| - 1] == after[|after| - 1];
      FlushParts(c, before, front);
      match after[|after| - 1]
      case Flush =>
      case Push(f) => if IsSpeech(c, f) { SpeechParts(c, Groups(c, before).groups, Groups(c, front), f); }
    }
  }

  /** Groups before a flush do not bear on where a speech frame goes. */
  lemma SpeechParts(c: Config, earlier: seq<Region>, g: Grouping, f: Frame)
    requires g.groups == [] ==> !g.open
    ensures AddSpeech(c, Grouping(earlier + g.groups, g.open), f).groups == earlier + AddSpeech(c, g, f).groups
    ensures AddSpeech(c, Grouping(earlier + g.groups, g.open), f).open == AddSpeech(c, g, f).open
  {
    if Joins(c, g, f) {
      var n := |g.groups|;
      assert (earlier + g.groups)[..|earlier| + n - 1] == earlier + g.groups[..n - 1];
    }
  }

  /** Frames are accepted exactly when each ends inside the audio and no later than any frame after it begins. */
  lemma {:induction false} OrderedMeans(c: Config, inputs: seq<Input>)
    ensures Ordered(c, inputs) <==>
      && (forall i :: 0 <= i < |inputs| && inputs[i].Push? ==> inputs[i].frame.end <= c.total)
      && (forall i, j :: 0 <= i < j < |inputs| && inputs[i].Push? && inputs[j].Push? ==>
            inputs[i].frame.end <= inputs[j].frame.start)
    ensures Ordered(c, inputs) ==> forall i :: 0 <= i < |inputs| && inputs[i].Push? ==>
        inputs[i].frame.end <= LastEnd(inputs)
    ensures LastEnd(inputs) == 0 || exists i ::
        0 <= i < |inputs| && inputs[i].Push? && inputs[i].frame.end == LastEnd(inputs)
  {
    if inputs != [] {
      var front, last := inputs[..|inputs| - 1], inputs[|inputs| - 1];
      OrderedMeans(c, front);
      assert inputs == front + [last];
    }
  }

  function Pushes(frames: seq<Frame>): seq<Input> {
    if frames == [] then [] else Pushes(frames[..|frames| - 1]) + [Push(frames[|frames| - 1])]
  }

  lemma {:induction false} PushesLength(frames: seq<Frame>)
    ensures |Pushes(frames)| == |frames|
    ensures frames != [] ==> Pushes(frames)[..|frames| - 1] == Pushes(frames[..|frames| - 1])
    ensures frames != [] ==> Pushes(frames)[|frames| - 1] == Push(frames[|frames| - 1])
  {
    if frames != [] {
      PushesLength(frames[..|frames| - 1]);
    }
  }

  /** Frame i starts a new run: the silence before it is long enough. */
  predicate Breaks(c: Config, frames: seq<Frame>, i: nat)
    requires i < |frames|
  {
    i == 0 || frames[i].start - frames[i - 1].end >= c.minSilence
  }

  /** The number of the run that frame i belongs to. */
  function RunOf(c: Config, frames: seq<Frame>, i: nat): nat
    requires i < |frames|
  {
    if i == 0 then 0 else RunOf(c, frames, i - 1) + if Breaks(c, frames, i) then 1 else 0
  }

  lemma {:induction false} RunOfMonotone(c: Config, frames: seq<Frame>, i: nat, j: nat)
    requires i <= j < |frames|
    ensures RunOf(c, frames, i) <= RunOf(c, frames, j)
  {
    if i < j {
      RunOfMonotone(c, frames, i, j - 1);
    }
  }

  function RunCount(c: Config, frames: seq<Frame>): nat {
    if frames == [] then 0 else RunOf(c, frames, |frames| - 1) + 1
  }

  ghost predicate BestOf(c: Config, frames: seq<Frame>, k: nat, score: real) {
    exists i :: 0 <= i < |frames| && RunOf(c, frames, i) == k && frames[i].probability == score
  }

  /** The groups of the first n frames, one frame at a time. */
  function GroupFrames(c: Config, frames: seq<Frame>, n: nat): Grouping
    requires n <= |frames|
  {
    if n == 0 then Grouping([], false) else AddSpeech(c, GroupFrames(c, frames, n - 1), frames[n - 1])
  }

  lemma {:induction false} GroupsOfFrames(c: Config, frames: seq<Frame>, n: nat)
    requires n <= |frames| && forall i :: 0 <= i < |frames| ==> frames[i].probability >= c.threshold
    ensures Groups(c, Pushes(frames[..n])) == GroupFrames(c, frames, n)
  {
    PushesLength(frames[..n]);
    if n > 0 {
      assert frames[..n][..n - 1] == frames[..n - 1];
      GroupsOfFrames(c, frames, n - 1);
    }
  }

  /** After n frames there are as many groups as runs, and the last group is the run of frame n - 1. */
  lemma {:induction false} GroupCount(c: Config, frames: seq<Frame>, n: nat)
    requires n <= |frames|
    ensures var g := GroupFrames(c, frames, n);
            && |g.groups| == (if n == 0 then 0 else RunOf(c, frames, n - 1) + 1)
            && (g.open <==> n > 0)
            && (n > 0 ==> g.groups[|g.groups| - 1].end == frames[n - 1].end)
  {
    if n > 0 {
      GroupCount(c, frames, n - 1);
    }
  }

  lemma AddSpeechKeeps(c: Config, g: Grouping, f: Frame, k: nat)
    requires k < |g.groups|
    ensures k < |AddSpeech(c, g, f).groups|
    ensures Settles(g.groups[k], AddSpeech(c, g, f).groups[k], k < |g.groups| - 1 || !Joins(c, g, f))
  {
  }

  lemma SettlesTwice(a: Region, b: Region, d: Region, first: bool, second: bool, both: bool)
    requires Settles(a, b, first) && Settles(b, d, second) && (both ==> first && second)
    ensures Settles(a, d, both)
  {
  }

  /** Once the run of frame n - 1 is over, its group is not the one the next frames extend. */
  lemma LaterRun(c: Config, frames: seq<Frame>, n: nat, m: nat, k: nat)
    requires 0 < n <= m < |frames| && k <= RunOf(c, frames, n - 1) && Breaks(c, frames, n)
    ensures k < |GroupFrames(c, frames, m).groups| - 1 || !Joins(c, GroupFrames(c, frames, m), frames[m])
  {
    GroupCount(c, frames, m);
    if m > n {
      RunOfMonotone(c, frames, n, m - 1);
    }
  }

  /** How a group may still change while later frames arrive. */
  predicate Settles(before: Region, after: Region, done: bool) {
    after.start == before.start && after.score >= before.score && (done ==> after == before)
  }

  /** Later frames only touch the group of their own run. */
  lemma {:induction false} GroupSettled(c: Config, frames: seq<Frame>, n: nat, m: nat, k: nat, group: Region)
    requires 0 < n <= m <= |frames| && k <= RunOf(c, frames, n - 1)
    requires k < |GroupFrames(c, frames, n).groups| && group == GroupFrames(c, frames, n).groups[k]
    ensures k < |GroupFrames(c, frames, m).groups|
    ensures Settles(group, GroupFrames(c, frames, m).groups[k], n == m || Breaks(c, frames, n))
  {
    if n < m {
      GroupSettled(c, frames, n, m - 1, k, group);
      SettledStep(c, frames, n, m, k, group, GroupFrames(c, frames, m - 1));
    }
  }

  lemma SettledStep(c: Config, frames: seq<Frame>, n: nat, m: nat, k: nat, group: Region, g: Grouping)
    requires 0 < n < m <= |frames| && k <= RunOf(c, frames, n - 1) && g == GroupFrames(c, frames, m - 1)
    requires k < |g.groups| && Settles(group, g.groups[k], n == m - 1 || Breaks(c, frames, n))
    ensures k < |GroupFrames(c, frames, m).groups|
        && Settles(group, GroupFrames(c, frames, m).groups[k], Breaks(c, frames, n))
  {
    var f := frames[m - 1];
    var done := k < |g.groups| - 1 || !Joins(c, g, f);
    if Breaks(c, frames, n) {
      LaterRun(c, frames, n, m - 1, k);
    }
    AddSpeechKeeps(c, g, f, k);
    SettlesTwice(group, g.groups[k], AddSpeech(c, g, f).groups[k], n == m - 1 || Breaks(c, frames, n), done,
                 Breaks(c, frames, n));
    assert GroupFrames(c, frames, m) == AddSpeech(c, g, f);
  }

  lemma FrameStarts(c: Config, frames: seq<Frame>, i: nat)
    requires i < |frames|
    ensures var k, here := RunOf(c, frames, i), GroupFrames(c, frames, i + 1).groups;
            && |here| == k + 1
            && here[k].end == frames[i].end && here[k].score >= frames[i].probability
            && (Breaks(c, frames, i) ==> here[k].start == frames[i].start)
  {
    GroupCount(c, frames, i);
    GroupCount(c, frames, i + 1);
  }

  lemma FrameGrouped(c: Config, frames: seq<Frame>, i: nat)
    requires i < |frames|
    ensures FrameInGroup(c, frames, GroupFrames(c, frames, |frames|).groups, i)
  {
    FrameStarts(c, frames, i);
    var k := RunOf(c, frames, i);
    GroupSettled(c, frames, i + 1, |frames|, k, GroupFrames(c, frames, i + 1).groups[k]);
  }

  /** The groups are the maximal runs of speech frames whose gaps are below the minimum silence. */
  lemma GroupsAreRuns(c: Config, frames: seq<Frame>)
    requires forall i :: 0 <= i < |frames| ==> frames[i].probability >= c.threshold
    ensures var groups := Groups(c, Pushes(frames)).groups;
            && |groups| == RunCount(c, frames)
            && (forall i :: 0 <= i < |frames| ==> FrameInGroup(c, frames, groups, i))
            && (forall k :: 0 <= k < |groups| ==> BestOf(c, frames, k, groups[k].score))
  {
    var n := |frames|;
    assert frames[..n] == frames;
    GroupsOfFrames(c, frames, n);
    var groups := GroupFrames(c, frames, n).groups;
    assert |groups| == RunCount(c, frames) by { GroupCount(c, frames, n); }
    forall i | 0 <= i < n ensures FrameInGroup(c, frames, groups, i) {
      FrameGrouped(c, frames, i);
    }
    forall k | 0 <= k < |groups| ensures BestOf(c, frames, k, groups[k].score) {
      ScoreAttained(c, frames, n, k, groups[k].score);
    }
  }

  /** Frame i is in the group of its run, which starts with the run's first frame, ends with its last and
      scores at least as much as every frame. */
  predicate FrameInGroup(c: Config, frames: seq<Frame>, groups: seq<Region>, i: nat)
    requires i < |frames|
  {
    && RunOf(c, frames, i) < |groups|
    && (Breaks(c, frames, i) ==> groups[RunOf(c, frames, i)].start == frames[i].start)
    && (i + 1 == |frames| || Breaks(c, frames, i + 1) ==> groups[RunOf(c, frames, i)].end == frames[i].end)
    && frames[i].probability <= groups[RunOf(c, frames, i)].score
  }

  lemma {:induction false} ScoreAttained(c: Config, frames: seq<Frame>, n: nat, k: nat, score: real)
    requires n <= |frames| && k < |GroupFrames(c, frames, n).groups|
        && score == GroupFrames(c, frames, n).groups[k].score
    ensures BestOf(c, frames, k, score)
  {
    if n > 0 {
      var g := GroupFrames(c, frames, n - 1);
      if k < |g.groups| && score == g.groups[k].score {
        ScoreAttained(c, frames, n - 1, k, score);
      } else {
        GroupCount(c, frames, n);
        assert RunOf(c, frames, n - 1) == k && frames[n - 1].probability == score;
      }
    }
  }

  // ----- What the regions are -----

  /** Finished groups in time order, each within the audio, at least gap apart. */
  predicate Spaced(c: Config, groups: seq<Region>, gap: nat) {
    && (forall k :: 0 <= k < |groups| ==> groups[k].start < groups[k].end <= c.total)
    && (forall j, k :: 0 <= j < k < |groups| ==> groups[j].end + gap <= groups[k].start)
  }

  lemma {:induction false} GroupsSpaced(c: Config, inputs: seq<Input>)
    requires Ordered(c, inputs)
    ensures Spaced(c, Groups(c, inputs).groups, 0)
    ensures EndBy(Groups(c, inputs).groups, LastEnd(inputs))
  {
    if inputs != [] {
      GroupsSpaced(c, inputs[..|inputs| - 1]);
    }
  }

  predicate EndBy(groups: seq<Region>, bound: int) {
    forall k :: 0 <= k < |groups| ==> groups[k].end <= bound
  }

  lemma AddSpeechSpaced(c: Config, g: Grouping, f: Frame)
    requires Spaced(c, g.groups, c.minSilence) && EndBy(g.groups, f.start) && f.end <= c.total
        && (g.groups != [] ==> g.open)
    ensures Spaced(c, AddSpeech(c, g, f).groups, c.minSilence)
  {
    if !Joins(c, g, f) {
      forall j | 0 <= j < |g.groups| ensures g.groups[j].end + c.minSilence <= f.start {
        if j < |g.groups| - 1 { assert g.groups[j].end <= g.groups[|g.groups| - 1].start; }
      }
    }
  }

  /** Without a flush in between, groups are at least the minimum silence apart. */
  lemma {:induction false} GroupsApart(c: Config, inputs: seq<Input>)
    requires Ordered(c, inputs) && forall k :: 0 <= k < |inputs| ==> inputs[k].Push?
    ensures Spaced(c, Groups(c, inputs).groups, c.minSilence)
    ensures Groups(c, inputs).open <==> Groups(c, inputs).groups != []
  {
    if inputs != [] {
      var front, last := inputs[..|inputs| - 1], inputs[|inputs| - 1];
      GroupsApart(c, front);
      GroupsSpaced(c, front);
      if IsSpeech(c, last.frame) { AddSpeechSpaced(c, Groups(c, front), last.frame); }
    }
  }

  predicate Separated(c: Config, regions: seq<Region>) {
    && (forall k :: 0 <= k < |regions| ==> regions[k].start < regions[k].end <= c.total)
    && (forall j, k :: 0 <= j < k < |regions| ==> regions[j].end < regions[k].start)
  }

  ghost predicate Covers(regions: seq<Region>, t: int) {
    exists k :: 0 <= k < |regions| && regions[k].start <= t < regions[k].end
  }

  /** Sample t is within the padding of a group long enough to keep. */
  ghost predicate NearSpeech(c: Config, groups: seq<Region>, t: int) {
    exists k :: 0 <= k < |groups| && groups[k].end - groups[k].start >= c.minSpeech
             && groups[k].start - c.padding <= t < groups[k].end + c.padding
  }

  /** The published regions are strictly separated, stay inside the audio, and cover exactly the samples
      within the padding of a kept group. */
  lemma {:induction false} RegionsCoverSpeech(c: Config, groups: seq<Region>)
    requires Spaced(c, groups, 0)
    ensures RegionsOf(c, groups, Publish(c, groups).regions)
  {
    if groups != [] {
      RegionsCoverSpeech(c, groups[..|groups| - 1]);
      RegionsStep(c, groups, Publish(c, groups[..|groups| - 1]));
    }
  }

  ghost predicate RegionsOf(c: Config, groups: seq<Region>, regions: seq<Region>) {
    && Separated(c, regions)
    && (forall t :: 0 <= t < c.total ==> (Covers(regions, t) <==> NearSpeech(c, groups, t)))
    && (regions != [] ==> groups != [] && regions[|regions| - 1].start <= Padded(c, groups[|groups| - 1]).start)
  }

  lemma RegionsStep(c: Config, groups: seq<Region>, p: Published)
    requires groups != [] && Spaced(c, groups, 0) && RegionsOf(c, groups[..|groups| - 1], p.regions)
    ensures RegionsOf(c, groups, PublishOne(c, p, groups[|groups| - 1]).regions)
  {
    var front, g := groups[..|groups| - 1], groups[|groups| - 1];
    if front != [] {
      assert front[|front| - 1].end <= g.start;
    }
    SeparatedOne(c, p, g);
    forall t | 0 <= t < c.total ensures Covers(PublishOne(c, p, g).regions, t) <==> NearSpeech(c, groups, t) {
      CoversOne(c, p, g, t);
    }
  }

  predicate NearOne(c: Config, g: Region, t: int) {
    g.end - g.start >= c.minSpeech && g.start - c.padding <= t < g.end + c.padding
  }

  lemma SeparatedOne(c: Config, p: Published, g: Region)
    requires Separated(c, p.regions) && g.start < g.end <= c.total
    requires p.regions != [] ==> p.regions[|p.regions| - 1].start <= Padded(c, g).start
    ensures Separated(c, PublishOne(c, p, g).regions)
  {
  }

  lemma CoversOne(c: Config, p: Published, g: Region, t: int)
    requires 0 <= t < c.total && g.start < g.end <= c.total
    requires p.regions != [] ==> p.regions[|p.regions| - 1].start <= Padded(c, g).start
    ensures Covers(PublishOne(c, p, g).regions, t) <==> Covers(p.regions, t) || NearOne(c, g, t)
  {
    var after, n := PublishOne(c, p, g).regions, |p.regions|;
    if Covers(p.regions, t) {
      var k :| 0 <= k < n && p.regions[k].start <= t < p.regions[k].end;
      assert after[k].start <= t < after[k].end;
    }
    if NearOne(c, g, t) {
      assert after[|after| - 1].start <= t < after[|after| - 1].end;
    }
    if Covers(after, t) && !NearOne(c, g, t) {
      var k :| 0 <= k < |after| && after[k].start <= t < after[k].end;
      assert p.regions[k].start <= t < p.regions[k].end;
    }
  }

  // ----- What the calls hand out -----

  function Kept(c: Config, groups: seq<Region>): seq<Region> {
    if groups == [] then []
    else
      var last := groups[|groups| - 1];
      Kept(c, groups[..|groups| - 1]) + if last.end - last.start >= c.minSpeech then [last] else []
  }

  /** Two groups touch after padding. */
  predicate Near(c: Config, a: Region, b: Region) { Padded(c, b).start <= Padded(c, a).end }

  /** The best score among the last group and those before it that touch one another. */
  function ClusterScore(c: Config, kept: seq<Region>): real
    requires kept != []
  {
    var last := kept[|kept| - 1];
    if |kept| == 1 || !Near(c, kept[|kept| - 2], last) then last.score
    else MaxScore(ClusterScore(c, kept[..|kept| - 1]), last.score)
  }

  /** A group that does not touch the one before it, or ends no later after padding and scores no higher than its
      cluster. */
  predicate Idle(c: Config, kept: seq<Region>, g: Region) {
    kept != [] && Near(c, kept[|kept| - 1], g)
    ==> Padded(c, g).end <= Padded(c, kept[|kept| - 1]).end && g.score <= ClusterScore(c, kept)
  }

  ghost predicate AllIdle(c: Config, kept: seq<Region>) {
    forall j :: 0 <= j < |kept| ==> Idle(c, kept[..j], kept[j])
  }

  lemma {:induction false} PublishKept(c: Config, groups: seq<Region>)
    ensures Publish(c, Kept(c, groups)) == Publish(c, groups)
  {
    if groups != [] {
      var front, last := groups[..|groups| - 1], groups[|groups| - 1];
      PublishKept(c, front);
      if last.end - last.start >= c.minSpeech {
        assert Kept(c, groups)[..|Kept(c, front)|] == Kept(c, front);
      } else {
        assert Kept(c, groups) == Kept(c, front);
      }
    }
  }

  /** In time order, inside the audio and long enough to keep. */
  predicate Tidy(c: Config, kept: seq<Region>) {
    && (forall k :: 0 <= k < |kept| ==>
        kept[k].start < kept[k].end <= c.total && kept[k].end - kept[k].start >= c.minSpeech)
    && (forall k :: 0 < k < |kept| ==> kept[k - 1].end <= kept[k].start)
  }

  lemma TidyMore(c: Config, kept: seq<Region>, g: Region)
    requires Tidy(c, kept) && g.start < g.end <= c.total && g.end - g.start >= c.minSpeech
    requires kept != [] ==> kept[|kept| - 1].end <= g.start
    ensures Tidy(c, kept + [g])
  {
  }

  lemma {:induction false} KeptTidy(c: Config, groups: seq<Region>)
    requires Spaced(c, groups, 0)
    ensures Tidy(c, Kept(c, groups))
    ensures Kept(c, groups) != [] ==>
        groups != [] && Kept(c, groups)[|Kept(c, groups)| - 1].end <= groups[|groups| - 1].end
  {
    if groups != [] {
      var front := groups[..|groups| - 1];
      KeptTidy(c, front);
      if front != [] { assert front[|front| - 1].end <= groups[|groups| - 1].start; }
      if groups[|groups| - 1].end - groups[|groups| - 1].start >= c.minSpeech {
        TidyMore(c, Kept(c, front), groups[|groups| - 1]);
      } else {
        assert Kept(c, groups) == Kept(c, front);
      }
    }
  }

  /** The last region ends as the last kept group does and has its cluster's score. */
  ghost predicate EndsAs(c: Config, kept: seq<Region>, p: Published) {
    if kept == [] then p.regions == []
    else
      && p.regions != []
      && p.regions[|p.regions| - 1].end == Padded(c, kept[|kept| - 1]).end
      && p.regions[|p.regions| - 1].score == ClusterScore(c, kept)
  }

  /** A region made of the kept groups from a to b, each touching the one before: as long as they are, and scored by
      the best. */
  ghost predicate MadeOf(c: Config, kept: seq<Region>, a: nat, b: nat, r: Region) {
    && a < b <= |kept|
    && r.start == Padded(c, kept[a]).start && r.end == Padded(c, kept[b - 1]).end
    && (forall j :: a < j < b ==> Near(c, kept[j - 1], kept[j]))
    && (forall j :: a <= j < b ==> kept[j].score <= r.score)
    && (exists j :: a <= j < b && kept[j].score == r.score)
  }

  /** The regions divide up the kept groups wherever two neighbours do not touch. */
  ghost predicate Divides(c: Config, kept: seq<Region>, cuts: seq<nat>, regions: seq<Region>) {
    && |cuts| == |regions| + 1 && cuts[0] == 0 && cuts[|regions|] == |kept|
    && (forall k :: 0 <= k < |regions| ==> MadeOf(c, kept, cuts[k], cuts[k + 1], regions[k]))
    && (forall k :: 0 < k < |regions| ==> Apart(c, kept, cuts[k]))
  }

  predicate Apart(c: Config, kept: seq<Region>, at: nat) {
    0 < at < |kept| && !Near(c, kept[at - 1], kept[at])
  }

  lemma MadeOfMore(c: Config, kept: seq<Region>, g: Region, a: nat, b: nat, r: Region)
    requires MadeOf(c, kept, a, b, r)
    ensures MadeOf(c, kept + [g], a, b, r)
  {
    var j :| a <= j < b && kept[j].score == r.score;
    assert (kept + [g])[j] == kept[j];
  }

  lemma MadeOfJoined(c: Config, kept: seq<Region>, g: Region, a: nat, r: Region)
    requires MadeOf(c, kept, a, |kept|, r) && Tidy(c, kept + [g]) && Near(c, kept[|kept| - 1], g)
    ensures MadeOf(c, kept + [g], a, |kept| + 1,
                   Region(r.start, Max(r.end, Padded(c, g).end), MaxScore(r.score, g.score)))
  {
    var all, score := kept + [g], MaxScore(r.score, g.score);
    assert all[|kept| - 1].end <= all[|kept|].start;
    var j :| a <= j < |kept| && kept[j].score == r.score;
    assert all[if score == r.score then j else |kept|].score == score;
  }

  lemma MadeOfAlone(c: Config, kept: seq<Region>, g: Region)
    ensures MadeOf(c, kept + [g], |kept|, |kept| + 1, Padded(c, g))
  {
    assert (kept + [g])[|kept|] == g;
  }

  lemma ApartMore(c: Config, kept: seq<Region>, g: Region, at: nat)
    requires Apart(c, kept, at)
    ensures Apart(c, kept + [g], at)
  {
  }

  lemma DividesJoined(c: Config, kept: seq<Region>, g: Region, cuts: seq<nat>, regions: seq<Region>, merged: Region)
    requires Divides(c, kept, cuts, regions) && regions != []
    requires MadeOf(c, kept + [g], cuts[|regions| - 1], |kept| + 1, merged)
    ensures Divides(c, kept + [g], cuts[..|regions|] + [|kept| + 1], regions[..|regions| - 1] + [merged])
  {
    var n, all := |regions|, kept + [g];
    var cuts', regions' := cuts[..n] + [|kept| + 1], regions[..n - 1] + [merged];
    forall k | 0 <= k < n ensures MadeOf(c, all, cuts'[k], cuts'[k + 1], regions'[k]) {
      if k < n - 1 {
        MadeOfMore(c, kept, g, cuts[k], cuts[k + 1], regions[k]);
        assert cuts'[k] == cuts[k] && cuts'[k + 1] == cuts[k + 1] && regions'[k] == regions[k];
      } else {
        assert cuts'[k] == cuts[k] && cuts'[k + 1] == |kept| + 1 && regions'[k] == merged;
      }
    }
    forall k | 0 < k < n ensures Apart(c, all, cuts'[k]) {
      ApartMore(c, kept, g, cuts[k]);
      assert cuts'[k] == cuts[k];
    }
  }

  lemma DividesAppended(c: Config, kept: seq<Region>, g: Region, cuts: seq<nat>, regions: seq<Region>)
    requires Divides(c, kept, cuts, regions) && (regions != [] ==> kept != [] && !Near(c, kept[|kept| - 1], g))
    ensures Divides(c, kept + [g], cuts + [|kept| + 1], regions + [Padded(c, g)])
  {
    var n, all := |regions|, kept + [g];
    var cuts', regions' := cuts + [|kept| + 1], regions + [Padded(c, g)];
    MadeOfAlone(c, kept, g);
    forall k | 0 <= k <= n ensures MadeOf(c, all, cuts'[k], cuts'[k + 1], regions'[k]) {
      if k < n { MadeOfMore(c, kept, g, cuts[k], cuts[k + 1], regions[k]); }
    }
    forall k | 0 < k <= n ensures Apart(c, all, cuts'[k]) {
      if k < n { ApartMore(c, kept, g, cuts[k]); }
    }
  }

  lemma {:induction false} KeptDivided(c: Config, kept: seq<Region>) returns (cuts: seq<nat>)
    requires Tidy(c, kept)
    ensures Divides(c, kept, cuts, Publish(c, kept).regions)
  {
    if kept == [] { return [0]; }
    var front, g := kept[..|kept| - 1], kept[|kept| - 1];
    assert Tidy(c, front) && kept == front + [g];
    cuts := KeptDivided(c, front);
    EmittedIff(c, front);
    cuts := DividedStep(c, front, g, cuts, Publish(c, front));
  }

  lemma TouchesIff(c: Config, kept: seq<Region>, g: Region, p: Published)
    requires EndsAs(c, kept, p)
    ensures (p.regions == [] <==> kept == [])
    ensures Touches(p, Padded(c, g)) <==> kept != [] && Near(c, kept[|kept| - 1], g)
  {
  }

  lemma PublishedJoins(c: Config, p: Published, g: Region)
    requires g.end - g.start >= c.minSpeech && Touches(p, Padded(c, g))
    ensures var last := p.regions[|p.regions| - 1];
      PublishOne(c, p, g).regions == p.regions[..|p.regions| - 1]
                                     + [Region(last.start, Max(last.end, Padded(c, g).end),
                                               MaxScore(last.score, g.score))]
  {
  }

  lemma DividedStep(c: Config, kept: seq<Region>, g: Region, before: seq<nat>, p: Published) returns (cuts: seq<nat>)
    requires Tidy(c, kept + [g]) && EndsAs(c, kept, p) && Divides(c, kept, before, p.regions)
    requires g.end - g.start >= c.minSpeech
    ensures Divides(c, kept + [g], cuts, PublishOne(c, p, g).regions)
  {
    var n := |p.regions|;
    TouchesIff(c, kept, g, p);
    if Touches(p, Padded(c, g)) {
      var last := p.regions[n - 1];
      MadeOfJoined(c, kept, g, before[n - 1], last);
      var merged := Region(last.start, Max(last.end, Padded(c, g).end), MaxScore(last.score, g.score));
      DividesJoined(c, kept, g, before, p.regions, merged);
      PublishedJoins(c, p, g);
      cuts := before[..n] + [|kept| + 1];
    } else {
      DividesAppended(c, kept, g, before, p.regions);
      cuts := before + [|kept| + 1];
    }
  }

  /** Each region is the kept groups that touch one another after padding, from the first to the last, with their
      best score. */
  lemma RegionsScoreBest(c: Config, groups: seq<Region>) returns (cuts: seq<nat>)
    requires Spaced(c, groups, 0)
    ensures Divides(c, Kept(c, groups), cuts, Publish(c, groups).regions)
  {
    KeptTidy(c, groups);
    PublishKept(c, groups);
    cuts := KeptDivided(c, Kept(c, groups));
  }

  /** What was handed out only ever grows. */
  ghost predicate Grown(p: Published) {
    |p.emitted| == |p.regions| && forall k :: 0 <= k < |p.regions| ==> GrownOne(p.emitted[k], p.regions[k])
  }

  predicate GrownOne(a: Region, b: Region) { a.start == b.start && a.end <= b.end && a.score <= b.score }

  /** A region that the last one would merge with changes nothing there. */
  predicate Absorbs(p: Published, candidate: Region) {
    Touches(p, candidate) ==>
      candidate.end <= p.regions[|p.regions| - 1].end && candidate.score <= p.regions[|p.regions| - 1].score
  }

  lemma EndsAsStep(c: Config, kept: seq<Region>, p: Published)
    requires Tidy(c, kept) && kept != [] && EndsAs(c, kept[..|kept| - 1], p)
    ensures EndsAs(c, kept, PublishOne(c, p, kept[|kept| - 1]))
    ensures Absorbs(p, Padded(c, kept[|kept| - 1])) <==> Idle(c, kept[..|kept| - 1], kept[|kept| - 1])
  {
    if |kept| > 1 {
      assert kept[..|kept| - 1][|kept| - 2] == kept[|kept| - 2];
      assert kept[|kept| - 2].end <= kept[|kept| - 1].start;
    }
  }

  lemma GrownStep(c: Config, p: Published, g: Region)
    requires Grown(p) && g.end - g.start >= c.minSpeech
    ensures Grown(PublishOne(c, p, g))
    ensures PublishOne(c, p, g).emitted == PublishOne(c, p, g).regions <==>
        p.emitted == p.regions && Absorbs(p, Padded(c, g))
  {
    var after, candidate, n := PublishOne(c, p, g), Padded(c, g), |p.regions|;
    if Touches(p, candidate) {
      var last, merged := p.regions[n - 1], after.regions[n - 1];
      assert GrownOne(p.emitted[n - 1], last);
      if after.emitted == after.regions {
        assert p.emitted[n - 1] == merged;
        forall k | 0 <= k < n ensures p.emitted[k] == p.regions[k] {
          if k < n - 1 { assert after.regions[k] == p.regions[k]; }
        }
      }
      if Absorbs(p, candidate) { assert after.regions == p.regions; }
    } else if after.emitted == after.regions {
      assert p.emitted == after.emitted[..n] && p.regions == after.regions[..n];
    }
  }

  lemma {:induction false} EmittedIff(c: Config, kept: seq<Region>)
    requires Tidy(c, kept)
    ensures EndsAs(c, kept, Publish(c, kept)) && Grown(Publish(c, kept))
    ensures Publish(c, kept).emitted == Publish(c, kept).regions <==> AllIdle(c, kept)
  {
    if kept != [] {
      var front, last := kept[..|kept| - 1], kept[|kept| - 1];
      assert Tidy(c, front);
      EmittedIff(c, front);
      var p := Publish(c, front);
      assert Publish(c, kept) == PublishOne(c, p, last);
      EndsAsStep(c, kept, p);
      GrownStep(c, p, last);
      AllIdleMore(c, kept);
    }
  }

  lemma AllIdleMore(c: Config, kept: seq<Region>)
    requires kept != []
    ensures AllIdle(c, kept) <==> AllIdle(c, kept[..|kept| - 1]) && Idle(c, kept[..|kept| - 1], kept[|kept| - 1])
  {
    var front := kept[..|kept| - 1];
    forall j | 0 <= j < |front| ensures front[..j] == kept[..j] && front[j] == kept[j] {}
    if AllIdle(c, kept) {
      forall j | 0 <= j < |front| ensures Idle(c, front[..j], front[j]) { assert Idle(c, kept[..j], kept[j]); }
    }
    if AllIdle(c, front) && Idle(c, front, kept[|kept| - 1]) {
      forall j | 0 <= j < |kept| ensures Idle(c, kept[..j], kept[j]) {
        if j < |front| { assert Idle(c, front[..j], front[j]); }
      }
    }
  }

  /** Whatever was pushed and flushed: once all is flushed, the calls have handed out exactly the regions if and only
      if every kept group that touches the one before it after padding ends no later and scores no higher. */
  lemma AllHandedOutIff(c: Config, inputs: seq<Input>)
    requires Ordered(c, inputs)
    ensures var groups := Groups(c, inputs + [Flush]).groups;
      Publish(c, groups).emitted == Publish(c, groups).regions <==> AllIdle(c, Kept(c, groups))
  {
    var groups := Groups(c, inputs + [Flush]).groups;
    assert (inputs + [Flush])[..|inputs|] == inputs;
    GroupsSpaced(c, inputs);
    KeptTidy(c, groups);
    PublishKept(c, groups);
    EmittedIff(c, Kept(c, groups));
  }

  /** Two kept groups that touch, the second of which ends later. */
  lemma SecondGroupLost(c: Config, a: Region, b: Region)
    requires a.start < a.end <= b.start < b.end <= c.total && a.end - a.start >= c.minSpeech
        && b.end - b.start >= c.minSpeech
    requires b.start - a.end <= 2 * c.padding && b.end + c.padding <= c.total
    ensures Publish(c, [a, b]).emitted != Publish(c, [a, b]).regions
  {
    var kept := [a, b];
    assert kept[0] == a && kept[1] == b && Tidy(c, kept);
    EmittedIff(c, kept);
    assert kept[..1] == [a] && Near(c, a, b);
    assert !Idle(c, kept[..1], kept[1]);
  }

  /** With a flush between two frames that meet, the calls lose output under any parameters. */
  lemma EarlyFlushLosesOutput(c: Config) returns (inputs: seq<Input>)
    requires c.Positive() && c.total == 2 * c.minSpeech + c.padding
    ensures Ordered(c, inputs) && inputs != [] && inputs[|inputs| - 1] == Flush
    ensures var p := Publish(c, Groups(c, inputs).groups); p.emitted != p.regions
  {
    var f, g := Frame(0, c.minSpeech, c.threshold), Frame(c.minSpeech, 2 * c.minSpeech, c.threshold);
    var a, b := Region(0, c.minSpeech, c.threshold), Region(c.minSpeech, 2 * c.minSpeech, c.threshold);
    var one, two, three := [Push(f)], [Push(f), Flush], [Push(f), Flush, Push(g)];
    inputs := three + [Flush];
    assert three[..2] == two && two[..1] == one && one[..0] == [] && inputs[..3] == three;
    assert Ordered(c, one) && Ordered(c, two) && LastEnd(two) == LastEnd(one) == c.minSpeech;
    assert Ordered(c, three);
    assert Groups(c, one) == AddSpeech(c, Grouping([], false), f) == Grouping([a], true);
    assert Groups(c, two) == Grouping([a], false);
    assert Groups(c, three) == AddSpeech(c, Grouping([a], false), g) == Grouping([a, b], true);
    assert Groups(c, inputs) == Grouping([a, b], false);
    SecondGroupLost(c, a, b);
  }

  lemma {:induction false} NothingMerges(c: Config, groups: seq<Region>)
    requires Spaced(c, groups, c.minSilence) && 2 * c.padding < c.minSilence
    ensures Publish(c, groups).emitted == Publish(c, groups).regions
    ensures Publish(c, groups).regions != [] ==>
      groups != [] && Publish(c, groups).regions[|Publish(c, groups).regions| - 1].end <= groups[|groups| - 1].end
          + c.padding
  {
    if groups != [] {
      var front := groups[..|groups| - 1];
      NothingMerges(c, front);
      if front != [] {
        assert front[|front| - 1].end + c.minSilence <= groups[|groups| - 1].start;
      }
    }
  }

  /** All calls of a session that is fed frames and then flushed hand out exactly its regions. */
  ghost predicate HandsOutEverything(c: Config, frames: seq<Frame>) {
    var p := Publish(c, Groups(c, Pushes(frames) + [Flush]).groups);
    p.emitted == p.regions
  }

  lemma {:induction false} PushesArePushes(frames: seq<Frame>)
    ensures forall k :: 0 <= k < |Pushes(frames)| ==> Pushes(frames)[k].Push?
  {
    if frames != [] {
      PushesArePushes(frames[..|frames| - 1]);
    }
  }

  /** Two shortest acceptable bursts, exactly the minimum silence apart. */
  function TwoBursts(c: Config): seq<Frame>
    requires c.Positive()
  {
    [Frame(0, c.minSpeech, c.threshold), Frame(c.minSpeech + c.minSilence, 2 * c.minSpeech + c.minSilence, c.threshold)]
  }

  lemma TwoBurstsMerge(c: Config)
    requires c.Positive() && 2 * c.padding >= c.minSilence
    requires c.total == 2 * c.minSpeech + c.minSilence + c.padding
    ensures Ordered(c, Pushes(TwoBursts(c)))
    ensures !HandsOutEverything(c, TwoBursts(c))
  {
    var frames := TwoBursts(c);
    var a, b := Region(0, c.minSpeech, c.threshold),
        Region(c.minSpeech + c.minSilence, 2 * c.minSpeech + c.minSilence, c.threshold);
    TwoBurstsGroups(c);
    assert (Pushes(frames) + [Flush])[..|Pushes(frames)|] == Pushes(frames);
    assert Groups(c, Pushes(frames) + [Flush]).groups == [a, b];
    SecondGroupLost(c, a, b);
  }

  lemma TwoBurstsGroups(c: Config)
    requires c.Positive() && c.total >= 2 * c.minSpeech + c.minSilence
    ensures Ordered(c, Pushes(TwoBursts(c)))
    ensures Groups(c, Pushes(TwoBursts(c))).groups ==
      [Region(0, c.minSpeech, c.threshold),
       Region(c.minSpeech + c.minSilence, 2 * c.minSpeech + c.minSilence, c.threshold)]
  {
    var f, g := Frame(0, c.minSpeech, c.threshold),
        Frame(c.minSpeech + c.minSilence, 2 * c.minSpeech + c.minSilence, c.threshold);
    assert TwoBursts(c) == [f, g];
    PushesTwo(f, g);
    var one, two := [Push(f)], [Push(f), Push(g)];
    assert two[..1] == one && one[..0] == [];
    var a, b := Region(0, c.minSpeech, c.threshold), Region(g.start, g.end, c.threshold);
    assert Groups(c, one) == AddSpeech(c, Grouping([], false), f) == Grouping([a], true);
    assert !Joins(c, Grouping([a], true), g);
    assert Groups(c, two) == AddSpeech(c, Grouping([a], true), g) == Grouping([a, b], true);
    assert Ordered(c, []) && Ordered(c, one) && LastEnd(one) == c.minSpeech;
  }

  lemma PushesTwo(f: Frame, g: Frame)
    ensures Pushes([f, g]) == [Push(f), Push(g)]
  {
    assert [f, g][..1] == [f] && [f][..0] == [];
    assert Pushes([f]) == Pushes([]) + [Push(f)];
  }

  ghost predicate SafeRun(c: Config, frames: seq<Frame>) {
    Ordered(c, Pushes(frames)) ==> HandsOutEverything(c, frames)
  }

  /** The calls of every session of frames and one flush at the end hand out exactly its regions if and only if twice
      the padding is below the minimum silence. */
  lemma CallsHandOutRegionsIff(c: Config)
    requires c.Positive()
    ensures 2 * c.padding < c.minSilence <==> forall total: nat, frames: seq<Frame> ::
        SafeRun(c.(total := total), frames)
  {
    if 2 * c.padding < c.minSilence {
      forall total: nat, frames: seq<Frame> | Ordered(c.(total := total), Pushes(frames))
        ensures HandsOutEverything(c.(total := total), frames)
      {
        var c := c.(total := total);
        PushesArePushes(frames);
        GroupsApart(c, Pushes(frames));
        NothingMerges(c, Groups(c, Pushes(frames)).groups);
      }
    } else {
      var total: nat := 2 * c.minSpeech + c.minSilence + c.padding;
      TwoBurstsMerge(c.(total := total));
      assert !SafeRun(c.(total := total), TwoBursts(c));
    }
  }

  // ----- The adapter's parameters -----

  /** The adapter's checks on its durations in milliseconds. */
  predicate AdapterAccepts(threshold: real, minSpeechMs: int, minSilenceMs: int, paddingMs: int) {
    && 0.0 < threshold <= 1.0
    && minSpeechMs > 0 && minSilenceMs > 0 && paddingMs >= 0
    && 2 * paddingMs <= minSilenceMs
  }

  function AdapterConfig(threshold: real, minSpeechMs: nat, minSilenceMs: nat, paddingMs: nat): Config {
    Config(threshold, minSpeechMs * SAMPLE_RATE / 1000, minSilenceMs * SAMPLE_RATE / 1000,
           paddingMs * SAMPLE_RATE / 1000, 0)
  }

  /** The adapter lets through one family of parameters under which calls lose output, and only that one:
      padding of exactly half the minimum silence. */
  lemma AdapterLosesOutputIff(threshold: real, minSpeechMs: nat, minSilenceMs: nat, paddingMs: nat)
    requires AdapterAccepts(threshold, minSpeechMs, minSilenceMs, paddingMs)
    ensures 2 * paddingMs == minSilenceMs <==>
      exists total: nat, frames: seq<Frame> ::
        !SafeRun(AdapterConfig(threshold, minSpeechMs, minSilenceMs, paddingMs).(total := total), frames)
  {
    var c := AdapterConfig(threshold, minSpeechMs, minSilenceMs, paddingMs);
    assert c.minSpeech == 16 * minSpeechMs && c.minSilence == 16 * minSilenceMs && c.padding == 16 * paddingMs;
    CallsHandOutRegionsIff(c);
  }
}
