/** Repairing the word times of a recognised phrase: overlaps are cut, words that jump back are collapsed,
    and collapsed words share the span of a timed neighbour. */
module WordTimes {
  import opened Common

  datatype Word = Word(text: string, start: int, end: int) {
    predicate Positive() { start < end }
  }

  /** A phrase's own span, used only when the phrase is timed. */
  datatype Frame = Frame(start: int, end: int, timed: bool)

  function Clamp(t: int, f: Frame): int {
    if f.timed then Min(Max(t, f.start), f.end) else t
  }

  // ----- First pass: one word at a time -----

  /** The words after one more reported word: an earlier word ends where the new one starts; a word
      reported before its predecessor is collapsed onto the predecessor's end. */
  function AddWord(words: seq<Word>, w: Word, f: Frame): seq<Word> {
    var start, end := Clamp(w.start, f), Clamp(w.end, f);
    if words == [] || start >= words[|words| - 1].end then words + [Word(w.text, start, Max(start, end))]
    else
      var last := words[|words| - 1];
      if start > last.start then
        words[..|words| - 1] + [Word(last.text, last.start, start)] + [Word(w.text, start, Max(start, end))]
      else words + [Word(w.text, last.end, Max(last.end, end))]
  }

  function Untangled(reported: seq<Word>, f: Frame): seq<Word> {
    if reported == [] then [] else AddWord(Untangled(reported[..|reported| - 1], f), reported[|reported| - 1], f)
  }

  // ----- Second pass: sharing -----

  /** The first word at or after index that has a duration. */
  function RunStop(words: seq<Word>, index: nat): (r: nat)
    requires index <= |words|
    ensures index <= r <= |words|
    decreases |words| - index
  {
    if index < |words| && !words[index].Positive() then RunStop(words, index + 1) else index
  }

  /** The k-th of count equal cuts of the span. */
  function Cut(start: int, end: int, k: nat, count: nat): int
    requires start <= end && count > 0
  {
    start + (end - start) * k / count
  }

  /** words[first..last] sharing the span from the first one's start to the last one's end. */
  function Spread(words: seq<Word>, first: nat, last: nat): (r: seq<Word>)
    requires first < last <= |words| && words[first].start <= words[last - 1].end
    ensures |r| == |words|
    ensures forall k :: 0 <= k < |words| ==> r[k].text == words[k].text
  {
    var start, end := words[first].start, words[last - 1].end;
    seq(|words|, k requires 0 <= k < |words| =>
      if first <= k < last then Word(words[k].text, Cut(start, end, k - first, last - first),
                                     Cut(start, end, k - first + 1, last - first))
      else words[k])
  }

  /** The group that the collapsed words from index share: with their predecessor, or at the very start
      with the word after them. */
  function GroupFirst(index: nat): nat { if index > 0 then index - 1 else 0 }
  function GroupLast(words: seq<Word>, index: nat): nat
    requires index <= |words|
  {
    if index > 0 then RunStop(words, index) else RunStop(words, index) + 1
  }

  function ShareFrom(words: seq<Word>, index: nat): seq<Word>
    requires index <= |words| && Ordered(words)
    decreases |words| - index
  {
    if index == |words| then words
    else if words[index].Positive() then ShareFrom(words, index + 1)
    else
      var first, last := GroupFirst(index), GroupLast(words, index);
      RunStops(words, index);
      if last > |words| then words
      else
        SpreadOrdered(words, first, last);
        ShareFrom(Spread(words, first, last), RunStop(words, index))
  }

  function Repaired(reported: seq<Word>, f: Frame): seq<Word> {
    UntangledOrdered(reported, f);
    ShareFrom(Untangled(reported, f), 0)
  }

  // ----- Order -----

  /** Words in time order, none ending before it starts, none overlapping. */
  predicate Ordered(words: seq<Word>) {
    && (forall i :: 0 <= i < |words| ==> words[i].start <= words[i].end)
    && (forall i, j :: 0 <= i < j < |words| ==> words[i].end <= words[j].start)
  }

  predicate Inside(words: seq<Word>, f: Frame) {
    f.timed ==> forall i :: 0 <= i < |words| ==> f.start <= words[i].start && words[i].end <= f.end
  }

  predicate SameTexts(a: seq<Word>, b: seq<Word>) {
    |a| == |b| && forall i :: 0 <= i < |a| ==> a[i].text == b[i].text
  }

  lemma AppendOrdered(words: seq<Word>, w: Word)
    requires Ordered(words) && w.start <= w.end && (words != [] ==> words[|words| - 1].end <= w.start)
    ensures Ordered(words + [w])
  {
    var r := words + [w];
    forall i, j | 0 <= i < j < |r| ensures r[i].end <= r[j].start {
      if j == |words| && i < |words| - 1 {
        assert words[i].end <= words[|words| - 1].start <= words[|words| - 1].end;
      }
    }
  }

  /** Cutting the last word short keeps the order. */
  lemma CutLastOrdered(words: seq<Word>, end: int)
    requires Ordered(words) && words != [] && words[|words| - 1].start <= end <= words[|words| - 1].end
    ensures var last := words[|words| - 1]; Ordered(words[..|words| - 1] + [Word(last.text, last.start, end)])
  {
  }

  lemma AddWordOrdered(words: seq<Word>, w: Word, f: Frame)
    requires Ordered(words)
    ensures Ordered(AddWord(words, w, f))
  {
    var start, end := Clamp(w.start, f), Clamp(w.end, f);
    if words == [] || start >= words[|words| - 1].end {
      AppendOrdered(words, Word(w.text, start, Max(start, end)));
    } else {
      var last := words[|words| - 1];
      if start > last.start {
        CutLastOrdered(words, start);
        AppendOrdered(words[..|words| - 1] + [Word(last.text, last.start, start)],
                      Word(w.text, start, Max(start, end)));
      } else {
        AppendOrdered(words, Word(w.text, last.end, Max(last.end, end)));
      }
    }
  }

  lemma AddWordTexts(words: seq<Word>, w: Word, f: Frame)
    ensures |AddWord(words, w, f)| == |words| + 1
    ensures SameTexts(AddWord(words, w, f)[..|words|], words) && AddWord(words, w, f)[|words|].text == w.text
    ensures Inside(words, f) && (f.timed ==> f.start <= f.end) ==> Inside(AddWord(words, w, f), f)
  {
  }

  lemma {:induction false} UntangledOrdered(reported: seq<Word>, f: Frame)
    ensures Ordered(Untangled(reported, f)) && SameTexts(Untangled(reported, f), reported)
    ensures (f.timed ==> f.start <= f.end) ==> Inside(Untangled(reported, f), f)
  {
    if reported != [] {
      UntangledOrdered(reported[..|reported| - 1], f);
      AddWordOrdered(Untangled(reported[..|reported| - 1], f), reported[|reported| - 1], f);
      AddWordTexts(Untangled(reported[..|reported| - 1], f), reported[|reported| - 1], f);
    }
  }

  lemma {:induction false} RunStops(words: seq<Word>, index: nat)
    requires index <= |words|
    ensures forall k :: index <= k < RunStop(words, index) ==> !words[k].Positive()
    ensures RunStop(words, index) < |words| ==> words[RunStop(words, index)].Positive()
    ensures index < |words| && !words[index].Positive() ==> RunStop(words, index) > index
    decreases |words| - index
  {
    if index < |words| && !words[index].Positive() {
      RunStops(words, index + 1);
    }
  }

  // ----- Integer cuts -----

  lemma DivBounds(a: int, c: int)
    requires c > 0
    ensures c * (a / c) <= a < c * (a / c) + c
  {
    assert a == c * (a / c) + a % c;
  }

  lemma MulMonotone(c: int, x: int, y: int)
    requires c >= 0 && x <= y
    ensures c * x <= c * y
  {
  }

  lemma QuotientIs(a: int, c: int, q: int)
    requires c > 0 && c * q <= a < c * q + c
    ensures a / c == q
  {
    DivBounds(a, c);
    if a / c < q { MulMonotone(c, a / c + 1, q); }
    if a / c > q { MulMonotone(c, q + 1, a / c); }
  }

  lemma DivMonotone(a: int, b: int, c: int)
    requires a <= b && c > 0
    ensures a / c <= b / c
  {
    DivBounds(a, c);
    DivBounds(b, c);
    if a / c > b / c { MulMonotone(c, b / c + 1, a / c); }
  }

  lemma DivStep(a: int, b: int, c: int)
    requires c > 0 && a + c <= b
    ensures a / c < b / c
  {
    DivBounds(a, c);
    DivBounds(b, c);
    if b / c <= a / c { MulMonotone(c, b / c, a / c); }
  }

  lemma CutMonotone(start: int, end: int, j: nat, k: nat, count: nat)
    requires start <= end && count > 0 && j <= k
    ensures Cut(start, end, j, count) <= Cut(start, end, k, count)
  {
    MulMonotone(end - start, j, k);
    DivMonotone((end - start) * j, (end - start) * k, count);
  }

  lemma CutEnds(start: int, end: int, count: nat)
    requires start <= end && count > 0
    ensures Cut(start, end, 0, count) == start && Cut(start, end, count, count) == end
  {
    QuotientIs((end - start) * 0, count, 0);
    QuotientIs((end - start) * count, count, end - start);
  }

  lemma CutStep(start: int, end: int, k: nat, count: nat)
    requires start <= end && count > 0 && end - start >= count
    ensures Cut(start, end, k, count) < Cut(start, end, k + 1, count)
  {
    assert (end - start) * (k + 1) == (end - start) * k + (end - start);
    DivStep((end - start) * k, (end - start) * (k + 1), count);
  }

  /** Every word of a group gets a duration if and only if the group spans at least as many samples as words. */
  lemma GroupPositiveIff(start: int, end: int, count: nat)
    requires start <= end && count > 0
    ensures (forall k: nat :: k < count ==> Cut(start, end, k, count) < Cut(start, end, k + 1, count)) <==>
        end - start >= count
  {
    if end - start >= count {
      forall k: nat | k < count ensures Cut(start, end, k, count) < Cut(start, end, k + 1, count) {
        CutStep(start, end, k, count);
      }
    } else {
      CutEnds(start, end, count);
      QuotientIs((end - start) * 1, count, 0);
      assert !(Cut(start, end, 0, count) < Cut(start, end, 0 + 1, count));
    }
  }

  // ----- What sharing keeps -----

  lemma SpreadBounds(words: seq<Word>, first: nat, last: nat, k: nat)
    requires Ordered(words) && first < last <= |words| && words[first].start <= words[last - 1].end && first <= k < last
    ensures words[first].start <= Spread(words, first, last)[k].start <= Spread(words, first, last)[k].end
        <= words[last - 1].end
  {
    var start, end, count := words[first].start, words[last - 1].end, last - first;
    CutEnds(start, end, count);
    CutMonotone(start, end, 0, k - first, count);
    CutMonotone(start, end, k - first, k - first + 1, count);
    CutMonotone(start, end, k - first + 1, count, count);
  }

  lemma GroupSpan(words: seq<Word>, first: nat, last: nat)
    requires Ordered(words) && first < last <= |words|
    ensures words[first].start <= words[last - 1].end
  {
    if first < last - 1 {
      assert words[first].end <= words[last - 1].start;
    }
  }

  lemma SpreadOrdered(words: seq<Word>, first: nat, last: nat)
    requires Ordered(words) && first < last <= |words|
    ensures words[first].start <= words[last - 1].end
    ensures Ordered(Spread(words, first, last))
  {
    GroupSpan(words, first, last);
    var r := Spread(words, first, last);
    forall k | first <= k < last ensures words[first].start <= r[k].start <= r[k].end <= words[last - 1].end {
      SpreadBounds(words, first, last, k);
    }
    forall i, j | 0 <= i < j < |r| ensures r[i].end <= r[j].start {
      if first <= i && j < last {
        CutMonotone(words[first].start, words[last - 1].end, i - first + 1, j - first, last - first);
      } else if i < first && first <= j < last {
        assert words[i].end <= words[first].start;
      } else if first <= i < last && last <= j {
        assert words[last - 1].end <= words[j].start;
      }
    }
  }

  lemma SpreadInside(words: seq<Word>, first: nat, last: nat, f: Frame)
    requires Ordered(words) && first < last <= |words| && Inside(words, f)
    requires words[first].start <= words[last - 1].end
    ensures Inside(Spread(words, first, last), f)
  {
    forall k | first <= k < last ensures words[first].start <= Spread(words, first, last)[k].start
                                       && Spread(words, first, last)[k].end <= words[last - 1].end {
      SpreadBounds(words, first, last, k);
    }
  }

  lemma {:induction false} ShareKeeps(words: seq<Word>, index: nat, f: Frame)
    requires index <= |words| && Ordered(words) && Inside(words, f)
    ensures Ordered(ShareFrom(words, index)) && Inside(ShareFrom(words, index), f)
    ensures SameTexts(ShareFrom(words, index), words)
    decreases |words| - index
  {
    if index < |words| {
      if words[index].Positive() {
        ShareKeeps(words, index + 1, f);
      } else {
        var first, last := GroupFirst(index), GroupLast(words, index);
        RunStops(words, index);
        if last <= |words| {
          SpreadOrdered(words, first, last);
          SpreadInside(words, first, last, f);
          ShareKeeps(Spread(words, first, last), RunStop(words, index), f);
        }
      }
    }
  }

  /** At least as many samples as words. */
  predicate HasRoom(words: seq<Word>, first: nat, last: nat)
    requires first < last <= |words|
  {
    words[last - 1].end - words[first].start >= last - first
  }

  /** Every group that sharing meets has room for its words, and none is without a timed neighbour. */
  predicate Roomy(words: seq<Word>, index: nat)
    requires index <= |words| && Ordered(words)
    decreases |words| - index
  {
    if index == |words| then true
    else if words[index].Positive() then Roomy(words, index + 1)
    else
      var first, last := GroupFirst(index), GroupLast(words, index);
      RunStops(words, index);
      && last <= |words|
      && (SpreadOrdered(words, first, last); HasRoom(words, first, last))
      && Roomy(Spread(words, first, last), RunStop(words, index))
  }

  /** One group of either recursion. */
  lemma ShareGroup(words: seq<Word>, index: nat, first: nat, last: nat)
    requires index < |words| && Ordered(words) && !words[index].Positive()
    requires first == GroupFirst(index) && first < last == GroupLast(words, index) <= |words|
    ensures words[first].start <= words[last - 1].end && Ordered(Spread(words, first, last))
    ensures ShareFrom(words, index) == ShareFrom(Spread(words, first, last), RunStop(words, index))
  {
    SpreadOrdered(words, first, last);
  }

  lemma RoomyGroup(words: seq<Word>, index: nat, first: nat, last: nat)
    requires index < |words| && Ordered(words) && !words[index].Positive()
    requires first == GroupFirst(index) && first < last == GroupLast(words, index) <= |words|
    ensures words[first].start <= words[last - 1].end && Ordered(Spread(words, first, last))
    ensures Roomy(words, index)
        == (HasRoom(words, first, last) && Roomy(Spread(words, first, last), RunStop(words, index)))
  {
    SpreadOrdered(words, first, last);
  }

  predicate AllPositive(words: seq<Word>, n: nat) {
    n <= |words| && forall k :: 0 <= k < n ==> words[k].Positive()
  }

  /** With room in every group, no word is left without a duration. */
  lemma {:induction false} RoomySharesAll(words: seq<Word>, index: nat)
    requires index <= |words| && Ordered(words) && Roomy(words, index)
    requires AllPositive(words, index)
    ensures |ShareFrom(words, index)| == |words| && AllPositive(ShareFrom(words, index), |words|)
    decreases |words| - index
  {
    if index < |words| {
      if words[index].Positive() {
        RoomySharesAll(words, index + 1);
      } else {
        var first, last := GroupFirst(index), GroupLast(words, index);
        RunStops(words, index);
        SpreadOrdered(words, first, last);
        var r := Spread(words, first, last);
        SpreadPositiveIff(words, first, last);
        RoomySharesAll(r, RunStop(words, index));
      }
    }
  }

  /** The words of a group get a duration, each of them, if and only if the group spans at least as many samples as
      words. */
  lemma SpreadPositiveIff(words: seq<Word>, first: nat, last: nat)
    requires first < last <= |words| && words[first].start <= words[last - 1].end
    ensures (forall k :: first <= k < last ==> Spread(words, first, last)[k].Positive()) <==>
        HasRoom(words, first, last)
    ensures !HasRoom(words, first, last) ==> !Spread(words, first, last)[first].Positive()
    ensures words[first].start < words[last - 1].end ==> Spread(words, first, last)[last - 1].Positive()
  {
    var start, end, count, r := words[first].start, words[last - 1].end, last - first, Spread(words, first, last);
    CutEnds(start, end, count);
    GroupPositiveIff(start, end, count);
    if HasRoom(words, first, last) {
      forall k | first <= k < last ensures r[k].Positive() {
        var offset: nat := k - first;
        assert Cut(start, end, offset, count) < Cut(start, end, offset + 1, count);
      }
    } else {
      QuotientIs((end - start) * 1, count, 0);
    }
    if start < end {
      LastCutBelow(start, end, count);
    }
  }

  lemma LastCutBelow(start: int, end: int, count: nat)
    requires start < end && count > 0
    ensures Cut(start, end, count - 1, count) < end
  {
    var width := end - start;
    assert width * (count - 1) == width * count - width;
    DivBounds(width * (count - 1), count);
    var q := width * (count - 1) / count;
    if q >= width { MulMonotone(count, width, q); }
  }

  /** Sharing from an index leaves the words before its predecessor alone. */
  lemma {:induction false} EarlierUntouched(words: seq<Word>, index: nat, k: nat)
    requires index <= |words| && Ordered(words) && k + 1 < index
    ensures |ShareFrom(words, index)| == |words| && ShareFrom(words, index)[k] == words[k]
    decreases |words| - index
  {
    if index < |words| {
      if words[index].Positive() {
        EarlierUntouched(words, index + 1, k);
      } else {
        var first, last := GroupFirst(index), GroupLast(words, index);
        RunStops(words, index);
        if last <= |words| {
          SpreadOrdered(words, first, last);
          EarlierUntouched(Spread(words, first, last), RunStop(words, index), k);
        }
      }
    }
  }

  /** Once a group has been shared, later groups leave its first word alone. */
  lemma FirstSettled(words: seq<Word>, index: nat)
    requires index < |words| && Ordered(words) && !words[index].Positive() && GroupLast(words, index) <= |words|
    ensures var first, last := GroupFirst(index), GroupLast(words, index);
      && first < last && words[first].start <= words[last - 1].end
      && |ShareFrom(words, index)| == |words| && ShareFrom(words, index)[first] == Spread(words, first, last)[first]
  {
    var first, last, stop := GroupFirst(index), GroupLast(words, index), RunStop(words, index);
    RunStops(words, index);
    SpreadOrdered(words, first, last);
    var r := Spread(words, first, last);
    if first + 1 < stop {
      EarlierUntouched(r, stop, first);
    } else {
      assert index == 0 && stop == 1 && last == 2;
      LeadingSpan(words, stop);
      SpreadPositiveIff(words, first, last);
      EarlierUntouched(r, stop + 1, first);
    }
  }

  /** A leading group spans at least its timed word. */
  lemma LeadingSpan(words: seq<Word>, stop: nat)
    requires Ordered(words) && stop < |words| && words[stop].Positive()
    ensures words[0].start < words[stop].end
  {
    if stop > 0 { assert words[0].end <= words[stop].start; }
  }

  /** Only with room in every group is no word left without a duration: the first word of any other loses it for
      good. */
  lemma {:induction false} OnlyRoomySharesAll(words: seq<Word>, index: nat)
    requires index <= |words| && Ordered(words) && AllPositive(ShareFrom(words, index), |words|)
    ensures Roomy(words, index)
    decreases |words| - index
  {
    if index < |words| {
      if words[index].Positive() {
        OnlyRoomySharesAll(words, index + 1);
      } else {
        var first, last := GroupFirst(index), GroupLast(words, index);
        RunStops(words, index);
        if last <= |words| {
          SpreadOrdered(words, first, last);
          SpreadPositiveIff(words, first, last);
          FirstSettled(words, index);
          OnlyRoomySharesAll(Spread(words, first, last), RunStop(words, index));
        }
      }
    }
  }

  /** Word k is in a group without room, or collapsed where no word has a duration to share. */
  predicate Cramped(words: seq<Word>, index: nat, k: nat)
    requires index <= |words| && Ordered(words)
    decreases |words| - index
  {
    if index == |words| then false
    else if words[index].Positive() then Cramped(words, index + 1, k)
    else
      var first, last := GroupFirst(index), GroupLast(words, index);
      RunStops(words, index);
      if last > |words| then index <= k
      else
        SpreadOrdered(words, first, last);
        (!HasRoom(words, first, last) && first <= k < last)
            || Cramped(Spread(words, first, last), RunStop(words, index), k)
  }

  /** A word of no cramped group ends with a duration, whatever becomes of the others. */
  lemma {:induction false} UncrampedKeepsDuration(words: seq<Word>, index: nat, k: nat)
    requires index <= |words| && Ordered(words) && k < |words| && !Cramped(words, index, k)
    requires k < index ==> words[k].Positive()
    ensures |ShareFrom(words, index)| == |words| && ShareFrom(words, index)[k].Positive()
    decreases |words| - index
  {
    if index < |words| {
      if words[index].Positive() {
        UncrampedKeepsDuration(words, index + 1, k);
      } else {
        var first, last, stop := GroupFirst(index), GroupLast(words, index), RunStop(words, index);
        RunStops(words, index);
        if last <= |words| {
          SpreadOrdered(words, first, last);
          SpreadPositiveIff(words, first, last);
          assert k < stop ==> Spread(words, first, last)[k].Positive();
          UncrampedKeepsDuration(Spread(words, first, last), stop, k);
        }
      }
    }
  }

  ghost predicate NoneCramped(words: seq<Word>, index: nat)
    requires index <= |words| && Ordered(words)
  {
    forall k: nat :: k < |words| ==> !Cramped(words, index, k)
  }

  /** Every group has room exactly when no word is in a cramped one. */
  lemma RoomyIffNoneCramped(words: seq<Word>, index: nat)
    requires index <= |words| && Ordered(words)
    ensures Roomy(words, index) <==> NoneCramped(words, index)
  {
    if Roomy(words, index) {
      forall k: nat | k < |words| ensures !Cramped(words, index, k) { RoomyHasNoneCramped(words, index, k); }
    } else {
      var k := UnroomyHasCramped(words, index);
    }
  }

  lemma {:induction false} RoomyHasNoneCramped(words: seq<Word>, index: nat, k: nat)
    requires index <= |words| && Ordered(words) && Roomy(words, index)
    ensures !Cramped(words, index, k)
    decreases |words| - index
  {
    if index < |words| {
      if words[index].Positive() {
        RoomyHasNoneCramped(words, index + 1, k);
      } else {
        RunStops(words, index);
        SpreadOrdered(words, GroupFirst(index), GroupLast(words, index));
        RoomyHasNoneCramped(Spread(words, GroupFirst(index), GroupLast(words, index)), RunStop(words, index), k);
      }
    }
  }

  lemma {:induction false} UnroomyHasCramped(words: seq<Word>, index: nat) returns (k: nat)
    requires index <= |words| && Ordered(words) && !Roomy(words, index)
    ensures k < |words| && Cramped(words, index, k)
    decreases |words| - index
  {
    if words[index].Positive() {
      k := UnroomyHasCramped(words, index + 1);
    } else {
      var first, last := GroupFirst(index), GroupLast(words, index);
      RunStops(words, index);
      if last > |words| {
        k := index;
      } else {
        SpreadOrdered(words, first, last);
        if HasRoom(words, first, last) {
          k := UnroomyHasCramped(Spread(words, first, last), RunStop(words, index));
        } else {
          k := first;
        }
      }
    }
  }

  // ----- The same condition on the words before sharing -----

  /** A longest run of words without duration. */
  predicate CollapsedRun(words: seq<Word>, i: nat, stop: nat) {
    && i < stop <= |words|
    && (forall k :: i <= k < stop ==> !words[k].Positive())
    && (i > 0 ==> words[i - 1].Positive())
    && (stop < |words| ==> words[stop].Positive())
  }

  /** Where the word before a run starts once a leading run has taken its share of that word. */
  function StartBefore(words: seq<Word>, i: nat): int
    requires 0 < i <= |words| && Ordered(words)
  {
    if i > 1 && RunStop(words, 0) == i - 1 then
      assert words[0].end <= words[i - 1].start;
      Cut(words[0].start, words[i - 1].end, i - 1, i)
    else words[i - 1].start
  }

  /** A run shares with the word before it, a leading one with the word after it; each word needs a sample. */
  predicate RunHasRoom(words: seq<Word>, i: nat, stop: nat)
    requires i < stop <= |words| && Ordered(words)
  {
    if i == 0 then stop < |words| && words[stop].end - words[0].start >= stop + 1
    else words[stop - 1].end - StartBefore(words, i) >= stop - i + 1
  }

  ghost predicate EveryRunHasRoom(words: seq<Word>)
    requires Ordered(words)
  {
    forall i: nat, stop: nat :: CollapsedRun(words, i, stop) ==> RunHasRoom(words, i, stop)
  }

  predicate PlainRoom(words: seq<Word>, i: nat, stop: nat)
    requires 0 < i < stop <= |words|
  {
    words[stop - 1].end - words[i - 1].start >= stop - i + 1
  }

  /** From a later index on, no group changes another one. */
  ghost predicate LaterRunsHaveRoom(words: seq<Word>, index: nat)
    requires index > 0
  {
    forall i: nat, stop: nat :: index <= i && CollapsedRun(words, i, stop) ==> PlainRoom(words, i, stop)
  }

  lemma RunsAgree(a: seq<Word>, b: seq<Word>, from: nat, i: nat, stop: nat)
    requires |a| == |b| && (forall k :: from <= k < |a| ==> a[k].Positive() == b[k].Positive()) && from < i
    ensures CollapsedRun(a, i, stop) <==> CollapsedRun(b, i, stop)
  {
  }

  /** Words that agree from a word with a duration on have room in the same later runs. */
  lemma LaterRunsAgree(a: seq<Word>, b: seq<Word>, from: nat)
    requires |a| == |b| && 0 < from <= |a| && (forall k :: from <= k < |a| ==> a[k] == b[k])
    requires from < |a| ==> a[from].Positive()
    ensures LaterRunsHaveRoom(a, from) <==> LaterRunsHaveRoom(b, from)
  {
    forall i: nat, stop: nat | from <= i && (CollapsedRun(a, i, stop) || CollapsedRun(b, i, stop))
      ensures CollapsedRun(a, i, stop) && CollapsedRun(b, i, stop) && PlainRoom(a, i, stop) == PlainRoom(b, i, stop)
    {
      assert from < i;
      RunsAgree(a, b, from, i, stop);
    }
  }

  /** The runs from a collapsed word on: the one it begins, and those after that. */
  lemma FirstRunThenLater(words: seq<Word>, index: nat, stop: nat)
    requires 0 < index && CollapsedRun(words, index, stop)
    ensures LaterRunsHaveRoom(words, index) <==> PlainRoom(words, index, stop) && LaterRunsHaveRoom(words, stop)
  {
    forall i: nat, other: nat | index <= i && CollapsedRun(words, i, other)
      ensures (i == index && other == stop) || stop <= i {
      if i == index {
        if other < stop {} else if stop < other {}
      }
    }
  }

  lemma LaterSkips(words: seq<Word>, index: nat)
    requires 0 < index < |words| && words[index].Positive()
    ensures LaterRunsHaveRoom(words, index) <==> LaterRunsHaveRoom(words, index + 1)
  {
    forall i: nat, stop: nat | index <= i && CollapsedRun(words, i, stop) ensures index + 1 <= i {}
  }

  lemma {:induction false} RoomyFromLater(words: seq<Word>, index: nat)
    requires 0 < index <= |words| && Ordered(words)
    requires index < |words| ==> words[index].Positive() || words[index - 1].Positive()
    ensures Roomy(words, index) <==> LaterRunsHaveRoom(words, index)
    decreases |words| - index, 1
  {
    if index < |words| {
      if words[index].Positive() {
        RoomyFromLater(words, index + 1);
        LaterSkips(words, index);
      } else {
        RoomyFromRun(words, index, RunStop(words, index));
      }
    }
  }

  lemma {:induction false} RoomyFromRun(words: seq<Word>, index: nat, stop: nat)
    requires 0 < index < |words| && Ordered(words) && !words[index].Positive() && words[index - 1].Positive()
    requires stop == RunStop(words, index)
    ensures Roomy(words, index) <==> LaterRunsHaveRoom(words, index)
    decreases |words| - index, 0
  {
    RunStops(words, index);
    var r := RoomyShared(words, index, stop);
    RoomyFromLater(r, stop);
    LaterRunsAgree(words, r, stop);
    FirstRunThenLater(words, index, stop);
  }

  /** The words after a run has shared with the one before it: those behind it are as they were. */
  lemma RoomyShared(words: seq<Word>, index: nat, stop: nat) returns (r: seq<Word>)
    requires 0 < index < stop <= |words| && Ordered(words) && !words[index].Positive() && stop == RunStop(words, index)
    ensures |r| == |words| && Ordered(r) && forall k :: stop <= k < |words| ==> r[k] == words[k]
    ensures Roomy(words, index) == (PlainRoom(words, index, stop) && Roomy(r, stop))
  {
    RoomyGroup(words, index, index - 1, stop);
    r := Spread(words, index - 1, stop);
  }

  lemma RoomyFromStart(words: seq<Word>)
    requires words != [] && Ordered(words) && words[0].Positive()
    ensures LaterRunsHaveRoom(words, 1) <==> EveryRunHasRoom(words)
  {
    forall i: nat, stop: nat | CollapsedRun(words, i, stop)
      ensures 1 <= i && PlainRoom(words, i, stop) == RunHasRoom(words, i, stop) {}
  }

  /** After a leading run has shared with room, the other runs are those of before, the first of them behind a
      shorter word. */
  lemma AfterLeadingRun(words: seq<Word>, stop: nat)
    requires Ordered(words) && 0 < stop < |words| && CollapsedRun(words, 0, stop) && HasRoom(words, 0, stop + 1)
    requires RunStop(words, 0) == stop && words[0].start <= words[stop].end
    ensures Spread(words, 0, stop + 1)[stop].Positive()
    ensures LaterRunsHaveRoom(Spread(words, 0, stop + 1), stop) && RunHasRoom(words, 0, stop) <==>
        EveryRunHasRoom(words)
  {
    var r := Spread(words, 0, stop + 1);
    SpreadPositiveIff(words, 0, stop + 1);
    forall i: nat, other: nat | CollapsedRun(words, i, other) ensures (i == 0 && other == stop) || stop < i {
      if i == 0 {
        if other < stop {} else if stop < other {}
      }
    }
    forall i: nat, other: nat | stop < i ensures CollapsedRun(words, i, other) <==> CollapsedRun(r, i, other) {
      RunsAgree(words, r, stop, i, other);
    }
    forall i: nat, other: nat | stop < i && CollapsedRun(words, i, other)
      ensures PlainRoom(r, i, other) == RunHasRoom(words, i, other) {}
    if LaterRunsHaveRoom(r, stop) && RunHasRoom(words, 0, stop) {
      forall i: nat, other: nat | CollapsedRun(words, i, other) ensures RunHasRoom(words, i, other) {
        if stop < i { assert CollapsedRun(r, i, other) && PlainRoom(r, i, other); }
      }
    }
    if EveryRunHasRoom(words) {
      forall i: nat, other: nat | stop <= i && CollapsedRun(r, i, other) ensures PlainRoom(r, i, other) {
        assert stop < i;
        assert CollapsedRun(words, i, other) && RunHasRoom(words, i, other);
      }
    }
  }

  lemma RoomyFromCollapsed(words: seq<Word>, stop: nat)
    requires words != [] && Ordered(words) && !words[0].Positive() && stop == RunStop(words, 0)
    ensures Roomy(words, 0) <==> EveryRunHasRoom(words)
  {
    RunStops(words, 0);
    assert CollapsedRun(words, 0, stop);
    if stop < |words| && RunHasRoom(words, 0, stop) {
      RoomyGroup(words, 0, 0, stop + 1);
      AfterLeadingRun(words, stop);
      RoomyFromLater(Spread(words, 0, stop + 1), stop);
    } else {
      RoomlessStart(words, stop);
      assert !RunHasRoom(words, 0, stop);
    }
  }

  lemma RoomlessStart(words: seq<Word>, stop: nat)
    requires words != [] && Ordered(words) && !words[0].Positive() && 0 < stop == RunStop(words, 0)
        && !RunHasRoom(words, 0, stop)
    ensures !Roomy(words, 0)
  {
    if stop < |words| { RoomyGroup(words, 0, 0, stop + 1); }
  }

  /** Sharing meets room in every group if and only if each longest run without durations has it in the words as they
      were before. */
  lemma RoomyIffEveryRunHasRoom(words: seq<Word>)
    requires Ordered(words)
    ensures Roomy(words, 0) <==> EveryRunHasRoom(words)
  {
    if words == [] {
    } else if words[0].Positive() {
      RoomyFromLater(words, 1);
      RoomyFromStart(words);
    } else {
      RoomyFromCollapsed(words, RunStop(words, 0));
    }
  }

  // ----- What each word gets -----

  /** A reported time held inside the phrase. */
  function Held(t: int, f: Frame): int {
    if f.timed && t > f.end then f.end else if f.timed && t < f.start then f.start else t
  }

  /** How far word k reaches if nothing follows. */
  function Reach(reported: seq<Word>, u: seq<Word>, f: Frame, k: nat): int
    requires k < |reported| == |u|
  {
    Max(u[k].start, Held(reported[k].end, f))
  }

  /** Word k begins where it was reported, unless that is no later than the word before it: then where that one would
      end. It ends where it was reported, at its own start or the next word's at the latest. */
  predicate UntangledRight(reported: seq<Word>, u: seq<Word>, f: Frame, k: nat)
    requires k < |reported| == |u|
  {
    var start := Held(reported[k].start, f);
    && u[k].text == reported[k].text
    && u[k].start == (if k == 0 || start > u[k - 1].start then start else Reach(reported, u, f, k - 1))
    && u[k].end == (if k + 1 == |u| then Reach(reported, u, f, k) else Min(Reach(reported, u, f, k), u[k + 1].start))
  }

  predicate AllUntangledRight(reported: seq<Word>, u: seq<Word>, f: Frame) {
    |u| == |reported| && forall k: nat :: k < |u| ==> UntangledRight(reported, u, f, k)
  }

  lemma AddWordRight(before: seq<Word>, w: Word, f: Frame, front: seq<Word>, u: seq<Word>)
    requires (f.timed ==> f.start <= f.end) && Ordered(front) && AllUntangledRight(before, front, f)
    requires u == AddWord(front, w, f)
    ensures AllUntangledRight(before + [w], u, f)
  {
    var n, reported := |front|, before + [w];
    forall k: nat | k < |u| ensures UntangledRight(reported, u, f, k) {
      if k < n { assert UntangledRight(before, front, f, k); }
      if k + 1 < n {
      } else if k < n {
        LastUntangledRight(before, w, f, front, u);
      } else {
        NewUntangledRight(before, w, f, front, u);
      }
    }
  }

  /** The last word so far may be cut short. */
  lemma LastUntangledRight(before: seq<Word>, w: Word, f: Frame, front: seq<Word>, u: seq<Word>)
    requires (f.timed ==> f.start <= f.end) && Ordered(front) && |front| == |before| > 0
    requires UntangledRight(before, front, f, |front| - 1) && u == AddWord(front, w, f)
    ensures |u| == |before| + 1 && UntangledRight(before + [w], u, f, |front| - 1)
  {
  }

  lemma NewUntangledRight(before: seq<Word>, w: Word, f: Frame, front: seq<Word>, u: seq<Word>)
    requires (f.timed ==> f.start <= f.end) && Ordered(front) && |front| == |before|
    requires front != [] ==> UntangledRight(before, front, f, |front| - 1)
    requires u == AddWord(front, w, f)
    ensures |u| == |before| + 1 && UntangledRight(before + [w], u, f, |front|)
  {
  }

  /** Every word of an untangled phrase is right. */
  lemma {:induction false} UntangledWordsRight(reported: seq<Word>, f: Frame)
    requires f.timed ==> f.start <= f.end
    ensures AllUntangledRight(reported, Untangled(reported, f), f)
  {
    if reported != [] {
      var front, last := reported[..|reported| - 1], reported[|reported| - 1];
      UntangledWordsRight(front, f);
      UntangledOrdered(front, f);
      AddWordRight(front, last, f, Untangled(front, f), Untangled(reported, f));
      assert front + [last] == reported;
    }
  }

  /** The words of a group share a span evenly, to the sample. */
  predicate EvenShare(r: seq<Word>, first: nat, last: nat, start: int, end: int)
    requires first <= last <= |r|
  {
    forall k :: first <= k < last ==>
      && r[k].start == start + (end - start) * (k - first) / (last - first)
      && r[k].end == start + (end - start) * (k - first + 1) / (last - first)
  }

  lemma SpreadEven(words: seq<Word>, first: nat, last: nat)
    requires first < last <= |words| && words[first].start <= words[last - 1].end
    ensures EvenShare(Spread(words, first, last), first, last, words[first].start, words[last - 1].end)
  {
  }

  /** A word with a duration whose successor has one too. */
  predicate Alone(words: seq<Word>, k: nat) {
    k < |words| && words[k].Positive() && (k + 1 == |words| || words[k + 1].Positive())
  }

  predicate RunShared(words: seq<Word>, r: seq<Word>, i: nat, stop: nat)
    requires 0 < i < stop <= |words| == |r|
  {
    EvenShare(r, i - 1, stop, words[i - 1].start, words[stop - 1].end)
  }

  predicate UpTo(words: seq<Word>, r: seq<Word>, n: nat)
    requires n <= |words| == |r|
  {
    forall k :: 0 <= k < n ==> r[k] == words[k]
  }

  ghost predicate LaterRunsShared(words: seq<Word>, r: seq<Word>, index: nat)
    requires 0 < index && |words| == |r|
  {
    forall i: nat, stop: nat :: index <= i && CollapsedRun(words, i, stop) ==> RunShared(words, r, i, stop)
  }

  predicate LaterAlone(words: seq<Word>, r: seq<Word>, index: nat)
    requires |words| == |r|
  {
    forall k: nat :: index <= k < |words| && Alone(words, k) ==> r[k] == words[k]
  }

  /** From an index on, each run has shared with the word before it, and all other words are as they were. */
  ghost predicate LaterShared(words: seq<Word>, r: seq<Word>, index: nat)
    requires 0 < index <= |words|
  {
    && |r| == |words|
    && UpTo(words, r, if index == |words| || words[index].Positive() then index else index - 1)
    && LaterRunsShared(words, r, index) && LaterAlone(words, r, index)
  }

  lemma LaterSharedSkip(words: seq<Word>, r: seq<Word>, index: nat, next: nat)
    requires 0 < index < |words| && next == index + 1 && words[index].Positive() && LaterShared(words, r, next)
    ensures LaterShared(words, r, index)
  {
    forall i: nat, stop: nat | index <= i && CollapsedRun(words, i, stop) ensures RunShared(words, r, i, stop) {
      assert next <= i;
    }
  }

  lemma RunsSharedBefore(words: seq<Word>, shared: seq<Word>, r: seq<Word>, index: nat, stop: nat)
    requires 0 < index && CollapsedRun(words, index, stop) && |words| == |shared| == |r|
    requires (forall k :: stop <= k < |words| ==> shared[k] == words[k]) && LaterRunsShared(shared, r, stop)
    requires RunShared(words, r, index, stop)
    ensures LaterRunsShared(words, r, index)
  {
    forall i: nat, other: nat | index <= i && CollapsedRun(words, i, other) ensures RunShared(words, r, i, other) {
      if i == index {
        if other < stop {} else if stop < other {}
      } else {
        assert stop < i;
        RunsAgree(words, shared, stop, i, other);
        assert RunShared(shared, r, i, other);
      }
    }
  }

  lemma LaterSharedRun(words: seq<Word>, shared: seq<Word>, r: seq<Word>, index: nat, stop: nat)
    requires 0 < index && CollapsedRun(words, index, stop) && words[index - 1].start <= words[stop - 1].end
    requires shared == Spread(words, index - 1, stop) && LaterShared(shared, r, stop)
    ensures LaterShared(words, r, index)
  {
    SpreadEven(words, index - 1, stop);
    EvenCopied(shared, r, index - 1, stop, words[index - 1].start, words[stop - 1].end);
    UpToMore(words, shared, r, index - 1, stop);
    RunsSharedBefore(words, shared, r, index, stop);
    AloneBefore(words, shared, r, index, stop);
  }

  lemma EvenCopied(shared: seq<Word>, r: seq<Word>, first: nat, last: nat, start: int, end: int)
    requires last <= |shared| == |r| && UpTo(shared, r, last) && first <= last
        && EvenShare(shared, first, last, start, end)
    ensures EvenShare(r, first, last, start, end)
  {
    forall k | first <= k < last ensures r[k] == shared[k] {}
  }

  lemma UpToMore(words: seq<Word>, shared: seq<Word>, r: seq<Word>, first: nat, stop: nat)
    requires first <= stop <= |words| == |shared| == |r| && UpTo(shared, r, stop) && UpTo(words, shared, first)
    ensures UpTo(words, r, first)
  {
    forall k | 0 <= k < first ensures r[k] == words[k] { assert r[k] == shared[k]; }
  }

  lemma AloneBefore(words: seq<Word>, shared: seq<Word>, r: seq<Word>, index: nat, stop: nat)
    requires CollapsedRun(words, index, stop) && |words| == |shared| == |r|
    requires (forall k :: stop <= k < |words| ==> shared[k] == words[k]) && LaterAlone(shared, r, stop)
    ensures LaterAlone(words, r, index)
  {
    forall k: nat | index <= k < |words| && Alone(words, k) ensures r[k] == words[k] { assert Alone(shared, k); }
  }

  lemma {:induction false} ShareFromLater(words: seq<Word>, index: nat)
    requires 0 < index <= |words| && Ordered(words)
    requires index < |words| ==> words[index].Positive() || words[index - 1].Positive()
    ensures LaterShared(words, ShareFrom(words, index), index)
    decreases |words| - index
  {
    if index < |words| {
      if words[index].Positive() {
        ShareFromLater(words, index + 1);
        LaterSharedSkip(words, ShareFrom(words, index), index, index + 1);
      } else {
        var stop := RunStop(words, index);
        RunStops(words, index);
        ShareGroup(words, index, index - 1, stop);
        var shared := Spread(words, index - 1, stop);
        ShareFromLater(shared, stop);
        LaterSharedRun(words, shared, ShareFrom(words, index), index, stop);
      }
    }
  }

  /** Where the timed word begins that shared with the collapsed words before it. */
  function LeadingRest(words: seq<Word>, stop: nat): int
    requires stop < |words|
  {
    words[0].start + (words[stop].end - words[0].start) * stop / (stop + 1)
  }

  /** Where the group of a later run begins: at the word before it, which may have shared with a leading run. */
  predicate RunSharedRight(words: seq<Word>, r: seq<Word>, i: nat, stop: nat)
    requires 0 < i < stop <= |words| == |r|
  {
    EvenShare(r, i - 1, stop, if CollapsedRun(words, 0, i - 1) then LeadingRest(words, i - 1) else words[i - 1].start,
              words[stop - 1].end)
  }

  /** The collapsed words at the very start share with the timed word behind them, which then may share what it kept. */
  predicate LeadingShared(words: seq<Word>, r: seq<Word>, stop: nat)
    requires stop < |words| == |r|
  {
    var start, width := words[0].start, words[stop].end - words[0].start;
    && (forall k :: 0 <= k < stop ==>
          r[k].start == start + width * k / (stop + 1) && r[k].end == start + width * (k + 1) / (stop + 1))
    && (stop + 1 == |words| || words[stop + 1].Positive() ==>
          r[stop].start == LeadingRest(words, stop) && r[stop].end == words[stop].end)
  }

  /** Each run of collapsed words shares evenly with the word before it, a leading one with the word behind it, and all
      other words are as they were. */
  ghost predicate SharedRight(words: seq<Word>, r: seq<Word>) {
    && |r| == |words|
    && (forall stop: nat :: CollapsedRun(words, 0, stop) && stop < |words| ==> LeadingShared(words, r, stop))
    && (CollapsedRun(words, 0, |words|) ==> r == words)
    && (forall i: nat, stop: nat :: 0 < i && CollapsedRun(words, i, stop) ==> RunSharedRight(words, r, i, stop))
    && (forall k: nat :: Alone(words, k) && !CollapsedRun(words, 0, k) ==> r[k] == words[k])
  }

  lemma OneLeadingRun(words: seq<Word>, stop: nat, other: nat)
    requires CollapsedRun(words, 0, stop) && CollapsedRun(words, 0, other)
    ensures stop == other
  {
    if stop < other {} else if other < stop {}
  }

  lemma LaterIsRight(words: seq<Word>, r: seq<Word>)
    requires words != [] && words[0].Positive() && LaterShared(words, r, 1)
    ensures SharedRight(words, r)
  {
    forall i: nat, stop: nat | 0 < i && CollapsedRun(words, i, stop) ensures RunSharedRight(words, r, i, stop) {
      assert RunShared(words, r, i, stop);
    }
    forall k: nat | Alone(words, k) && !CollapsedRun(words, 0, k) ensures r[k] == words[k] {}
  }

  lemma LeadingIsRight(words: seq<Word>, shared: seq<Word>, r: seq<Word>, stop: nat)
    requires CollapsedRun(words, 0, stop) && stop < |words| && words[0].start <= words[stop].end
    requires shared == Spread(words, 0, stop + 1) && shared[stop].Positive() && LaterShared(shared, r, stop)
    ensures LeadingShared(words, r, stop)
  {
    CutEnds(words[0].start, words[stop].end, stop + 1);
    assert UpTo(shared, r, stop);
    if stop + 1 == |words| || words[stop + 1].Positive() { assert Alone(shared, stop); }
  }

  lemma LaterOfLeading(words: seq<Word>, shared: seq<Word>, r: seq<Word>, stop: nat, i: nat, other: nat)
    requires CollapsedRun(words, 0, stop) && stop < |words| && words[0].start <= words[stop].end
    requires shared == Spread(words, 0, stop + 1) && shared[stop].Positive() && LaterShared(shared, r, stop)
    requires stop < i && CollapsedRun(words, i, other)
    ensures RunSharedRight(words, r, i, other)
  {
    RunsAgree(words, shared, stop, i, other);
    StartAfterLeading(words, shared, stop, i);
    SameEvenShare(shared, r, i, other,
                  if CollapsedRun(words, 0, i - 1) then LeadingRest(words, i - 1) else words[i - 1].start,
                  words[other - 1].end);
  }

  lemma StartAfterLeading(words: seq<Word>, shared: seq<Word>, stop: nat, i: nat)
    requires CollapsedRun(words, 0, stop) && stop < i <= |words| && words[0].start <= words[stop].end
    requires shared == Spread(words, 0, stop + 1)
    ensures shared[i - 1].start
         == if CollapsedRun(words, 0, i - 1) then LeadingRest(words, i - 1) else words[i - 1].start
  {
    if CollapsedRun(words, 0, i - 1) { OneLeadingRun(words, stop, i - 1); }
  }

  lemma SameEvenShare(shared: seq<Word>, r: seq<Word>, i: nat, other: nat, start: int, end: int)
    requires 0 < i < other <= |shared| == |r| && RunShared(shared, r, i, other)
    requires start == shared[i - 1].start && end == shared[other - 1].end
    ensures EvenShare(r, i - 1, other, start, end)
  {
  }

  lemma LeadingAllRight(words: seq<Word>, shared: seq<Word>, r: seq<Word>, stop: nat)
    requires CollapsedRun(words, 0, stop) && stop < |words| && words[0].start <= words[stop].end
    requires shared == Spread(words, 0, stop + 1) && shared[stop].Positive() && LaterShared(shared, r, stop)
    ensures SharedRight(words, r)
  {
    LeadingIsRight(words, shared, r, stop);
    forall other: nat | CollapsedRun(words, 0, other) ensures other == stop { OneLeadingRun(words, stop, other); }
    forall i: nat, other: nat | 0 < i && CollapsedRun(words, i, other) ensures RunSharedRight(words, r, i, other) {
      assert stop < i;
      LaterOfLeading(words, shared, r, stop, i, other);
    }
    forall k: nat | Alone(words, k) && !CollapsedRun(words, 0, k) ensures r[k] == words[k] {
      assert stop < k;
      assert Alone(shared, k);
    }
  }

  /** Sharing gives every word what is right. */
  lemma SharingIsRight(words: seq<Word>)
    requires Ordered(words)
    ensures SharedRight(words, ShareFrom(words, 0))
  {
    if words == [] {
    } else if words[0].Positive() {
      ShareFromLater(words, 1);
      LaterIsRight(words, ShareFrom(words, 0));
    } else {
      LeadingSharing(words, RunStop(words, 0));
    }
  }

  lemma LeadingSharing(words: seq<Word>, stop: nat)
    requires words != [] && Ordered(words) && !words[0].Positive() && stop == RunStop(words, 0)
    ensures SharedRight(words, ShareFrom(words, 0))
  {
    RunStops(words, 0);
    assert CollapsedRun(words, 0, stop);
    if stop == |words| {
      NothingToShare(words, ShareFrom(words, 0));
    } else {
      ShareGroup(words, 0, 0, stop + 1);
      var shared := Spread(words, 0, stop + 1);
      LeadingSpan(words, stop);
      SpreadPositiveIff(words, 0, stop + 1);
      ShareFromLater(shared, stop);
      LeadingAllRight(words, shared, ShareFrom(words, 0), stop);
    }
  }

  lemma NothingToShare(words: seq<Word>, r: seq<Word>)
    requires CollapsedRun(words, 0, |words|) && r == words
    ensures SharedRight(words, r)
  {
    forall stop: nat | CollapsedRun(words, 0, stop) ensures stop == |words| { OneLeadingRun(words, |words|, stop); }
    forall i: nat, stop: nat | 0 < i ensures !CollapsedRun(words, i, stop) {}
  }

  lemma SharedSample(a: Word, b: Word)
    requires a.end == a.start + 1 && b.start == b.end == a.end
    ensures Ordered([a, b]) && ShareFrom([a, b], 0) == [Word(a.text, a.start, a.start), Word(b.text, a.start, a.end)]
  {
    var words := [a, b];
    assert RunStop(words, 2) == 2 && RunStop(words, 1) == 2;
    ShareGroup(words, 1, 0, 2);
    SpreadOneSample(words, a, b);
    assert ShareFrom(Spread(words, 0, 2), 2) == Spread(words, 0, 2);
    assert words[0].Positive();
  }

  lemma SpreadOneSample(words: seq<Word>, a: Word, b: Word)
    requires words == [a, b] && a.end == a.start + 1 && b.start == b.end == a.end
    ensures Spread(words, 0, 2) == [Word(a.text, a.start, a.start), Word(b.text, a.start, a.end)]
  {
    OneSampleForTwo(a.start);
    var r := Spread(words, 0, 2);
    assert r[0] == Word(a.text, a.start, a.start) && r[1] == Word(b.text, a.start, a.end);
  }

  lemma OneSampleForTwo(start: int)
    ensures Cut(start, start + 1, 0, 2) == Cut(start, start + 1, 1, 2) == start
        && Cut(start, start + 1, 2, 2) == start + 1
  {
  }

  /** Two words reported over the same sample: the second is collapsed, and sharing one sample takes the first one's
      duration. */
  lemma CrampedPhrase()
    ensures Repaired([Word("a", 0, 1), Word("b", 0, 1)], Frame(0, 1, true)) == [Word("a", 0, 0), Word("b", 0, 1)]
  {
    var f, a, b := Frame(0, 1, true), Word("a", 0, 1), Word("b", 0, 1);
    assert [a, b][..1] == [a] && [a][..0] == [];
    assert Untangled([a], f) == [a];
    assert Untangled([a, b], f) == [a, Word("b", 1, 1)];
    SharedSample(a, Word("b", 1, 1));
  }

  // ----- What repair keeps -----

  /** Already well formed: inside a timed phrase, in order, every word with a duration. */
  predicate WellFormed(words: seq<Word>, f: Frame) {
    Ordered(words) && Inside(words, f) && AllPositive(words, |words|)
  }

  lemma AddUnchanged(front: seq<Word>, w: Word, f: Frame)
    requires w.start < w.end && (f.timed ==> f.start <= w.start && w.end <= f.end)
    requires front != [] ==> front[|front| - 1].end <= w.start
    ensures AddWord(front, w, f) == front + [w]
  {
  }

  lemma {:induction false} UntangledUnchanged(words: seq<Word>, f: Frame)
    requires WellFormed(words, f)
    ensures Untangled(words, f) == words
  {
    if words != [] {
      var front, w := words[..|words| - 1], words[|words| - 1];
      WellFormedFront(words, f);
      UntangledUnchanged(front, f);
      AddUnchanged(front, w, f);
      assert words == front + [w];
    }
  }

  lemma WellFormedFront(words: seq<Word>, f: Frame)
    requires WellFormed(words, f) && words != []
    ensures var front, w := words[..|words| - 1], words[|words| - 1];
      && WellFormed(front, f) && w.start < w.end && (f.timed ==> f.start <= w.start && w.end <= f.end)
      && (front != [] ==> front[|front| - 1].end <= w.start)
  {
    assert words[|words| - 1].Positive();
    if |words| > 1 { assert words[|words| - 2].end <= words[|words| - 1].start; }
  }

  lemma {:induction false} ShareUnchanged(words: seq<Word>, index: nat)
    requires index <= |words| && Ordered(words) && AllPositive(words, |words|)
    ensures ShareFrom(words, index) == words
    decreases |words| - index
  {
    if index < |words| {
      ShareUnchanged(words, index + 1);
    }
  }

  /** Repair keeps the tokens, yields words in order without overlap and inside a timed phrase, leaves
      well-formed words alone, and leaves no word without duration if and only if every run of collapsed words
      has room among its neighbours. */
  lemma RepairKeeps(reported: seq<Word>, f: Frame)
    requires f.timed ==> f.start <= f.end
    ensures var r := Repaired(reported, f);
            && SameTexts(r, reported) && Ordered(r) && Inside(r, f)
            && (WellFormed(reported, f) ==> r == reported)
            && (UntangledOrdered(reported, f); AllPositive(r, |r|) <==> EveryRunHasRoom(Untangled(reported, f)))
  {
    var words := Untangled(reported, f);
    UntangledOrdered(reported, f);
    ShareKeeps(words, 0, f);
    if WellFormed(reported, f) {
      UntangledUnchanged(reported, f);
      ShareUnchanged(words, 0);
    }
    RoomyIffEveryRunHasRoom(words);
    if Roomy(words, 0) {
      RoomySharesAll(words, 0);
    } else if AllPositive(Repaired(reported, f), |words|) {
      OnlyRoomySharesAll(words, 0);
    }
  }

  // ----- The loops -----

  method ShareCollapsedTimes(collapsed: seq<Word>) returns (words: seq<Word>)
    requires Ordered(collapsed)
    ensures words == ShareFrom(collapsed, 0) && SharedRight(collapsed, words)
  {
    SharingIsRight(collapsed);
    words := collapsed;
    var index := 0;
    while index < |words|
      invariant index <= |words| == |collapsed| && Ordered(words)
      invariant ShareFrom(collapsed, 0) == ShareFrom(words, index)
    {
      if words[index].Positive() {
        index := index + 1;
        continue;
      }
      RunStops(words, index);
      var stop := CollapsedStop(words, index);
      var first, last := if index > 0 then index - 1 else 0, if index > 0 then stop else stop + 1;
      if last > |words| { break; }
      ShareGroup(words, index, first, last);
      words := SpreadInPlace(words, first, last);
      index := stop;
    }
  }

  /** Past the last of the collapsed words in a row. */
  method CollapsedStop(words: seq<Word>, index: nat) returns (stop: nat)
    requires index <= |words|
    ensures stop == RunStop(words, index)
  {
    stop := index;
    while stop < |words| && !words[stop].Positive()
      invariant index <= stop <= |words| && RunStop(words, stop) == RunStop(words, index)
    {
      stop := stop + 1;
    }
  }

  method SpreadInPlace(before: seq<Word>, first: nat, last: nat) returns (words: seq<Word>)
    requires Ordered(before) && first < last <= |before|
    ensures before[first].start <= before[last - 1].end && words == Spread(before, first, last) && Ordered(words)
  {
    GroupSpan(before, first, last);
    ghost var target := Spread(before, first, last);
    words := before;
    var start, end, count := words[first].start, words[last - 1].end, last - first;
    for offset := 0 to count
      invariant |words| == |before|
      invariant forall k :: first <= k < first + offset ==> words[k] == target[k]
      invariant forall k :: 0 <= k < |before| && !(first <= k < first + offset) ==> words[k] == before[k]
    {
      var shared := Word(words[first + offset].text, start + (end - start) * offset / count,
                         start + (end - start) * (offset + 1) / count);
      assert shared == target[first + offset];
      words := words[first + offset := shared];
    }
    assert words == target;
    SpreadOrdered(before, first, last);
  }

  method RepairWordTimes(reported: seq<Word>, f: Frame) returns (words: seq<Word>)
    ensures words == Repaired(reported, f)
    ensures (f.timed ==> f.start <= f.end) ==>
        exists u :: Ordered(u) && AllUntangledRight(reported, u, f) && SharedRight(u, words)
  {
    words := [];
    for n := 0 to |reported|
      invariant words == Untangled(reported[..n], f)
    {
      assert reported[..n + 1][..n] == reported[..n];
      words := AddReported(words, reported[n], f);
    }
    assert reported[..|reported|] == reported;
    UntangledOrdered(reported, f);
    if f.timed ==> f.start <= f.end { UntangledWordsRight(reported, f); }
    words := ShareCollapsedTimes(words);
  }

  /** One reported word: clamped, its predecessor cut short or itself collapsed. */
  method AddReported(before: seq<Word>, w: Word, f: Frame) returns (words: seq<Word>)
    ensures words == AddWord(before, w, f)
  {
    words := before;
    var start, end := w.start, w.end;
    if f.timed {
      start := Min(Max(start, f.start), f.end);
      end := Min(Max(end, f.start), f.end);
    }
    if words != [] && start < words[|words| - 1].end {
      var previous := words[|words| - 1];
      if start > previous.start {
        words := words[..|words| - 1] + [Word(previous.text, previous.start, start)];
      } else {
        start := previous.end;
      }
    }
    words := words + [Word(w.text, start, Max(start, end))];
  }
}
