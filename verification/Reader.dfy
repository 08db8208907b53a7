/** The frontend's reader: the second implementation of the sentence and paragraph policy, proved against
    the same description, so that both readers always agree. */
module Reader {
  import opened Common
  import opened CharacterClasses
  import opened Sentences
  import opened Paragraphs

  // ----- Sentence spans -----

  /** The text without leading space. */
  function TrimStart(cl: Classes, text: string): string {
    text[SkipSpace(cl, text, 0)..]
  }

  lemma {:induction false} SkipSpaceInSuffix(cl: Classes, text: string, from: nat, i: nat)
    requires from <= i <= |text|
    ensures SkipSpace(cl, text[from..], i - from) + from == SkipSpace(cl, text, i)
    decreases |text| - i
  {
    if i < |text| && cl.space(text[i]) {
      SkipSpaceInSuffix(cl, text, from, i + 1);
    }
  }

  method ReaderPeriodBoundary(cl: Classes, text: string, index: nat) returns (r: bool)
    requires index < |text|
    ensures r == PeriodEnds(cl, text, index)
  {
    var hasPrevious, hasFollowing := index > 0, index + 1 < |text|;
    if hasFollowing && cl.decimal(text[index + 1]) { return false; }
    if hasPrevious && AsciiAlnum(text[index - 1]) && hasFollowing && AsciiAlnum(text[index + 1]) { return false; }
    var start := index;
    while start > 0 && (AsciiAlpha(text[start - 1]) || text[start - 1] == '.')
      invariant 0 <= start <= index && WordStart(text, start) == WordStart(text, index)
    {
      start := start - 1;
    }
    var word := text[start..index + 1];
    if LowerAll(word[..|word| - 1]) in ABBREVIATIONS || Initials(word) { return false; }
    var rest := TrimStart(cl, text[index + 1..]);
    SkipSpaceInSuffix(cl, text, index + 1, index + 1);
    return !(SingleInitial(word) && rest != [] && AsciiUpper(rest[0]));
  }

  method ReaderSentenceEnd(cl: Classes, text: string, index: nat, boundary: bool, blankLine: bool) returns (end: nat)
    requires index < |text| && boundary == Terminates(cl, text, index) && blankLine == BlankLineAt(text, index)
    requires boundary || blankLine
    ensures end == StopEnd(cl, text, index)
  {
    end := index + if blankLine then BlankLineEnd(text, index) - index else 1;
    if boundary {
      end := SkipMarks(text, TERMINATORS, end);
      end := SkipMarks(text, CLOSING_MARKS, end);
    }
    ghost var first := end;
    while end < |text| && cl.space(text[end])
      invariant first <= end <= |text| && SkipSpace(cl, text, end) == SkipSpace(cl, text, first)
    {
      end := end + 1;
    }
  }

  method ReaderSpans(cl: Classes, text: string) returns (spans: seq<Span>)
    ensures spans == SentenceSpans(cl, text)
    ensures RealSpace(cl) ==> RightSpans(cl, text, spans)
  {
    if RealSpace(cl) { SentencesEndRight(cl, text); }
    spans := [];
    var start, index := 0, 0;
    while index < |text|
      invariant start <= index <= |text|
      invariant SpansFrom(cl, text, 0, 0) == spans + SpansFrom(cl, text, start, index)
      invariant spans == [] ==> start == 0
      decreases |text| - index
    {
      var blankLine := BlankLineAt(text, index);
      var boundary := text[index] in TERMINATORS;
      if boundary && text[index] == '.' {
        boundary := ReaderPeriodBoundary(cl, text, index);
      }
      if boundary || blankLine {
        var end := ReaderSentenceEnd(cl, text, index, boundary, blankLine);
        SpanFound(cl, text, spans, start, index, end);
        if !Blank(cl, text[start..end]) {
          spans := spans + [Span(start, end)];
          start := end;
        }
        index := end;
      } else {
        index := index + 1;
      }
    }
    if start < |text| || spans == [] {
      spans := spans + [Span(start, |text|)];
    }
  }

  // ----- Paragraphs -----

  /** What the reader looks at in a source: who speaks, in which language, when, and whether its times count. */
  datatype Source = Source(speaker: string, language: string, start: int, end: int, timingInvalid: bool) {
    predicate Timed() { end > start && !timingInvalid }
  }

  const PAUSE_SAMPLES := 1200 * 16

  /** What the reader is given: a source, its text, and whether the view shows it. */
  datatype Item = Item(source: Source, text: string, included: bool)

  /** A source that is shown, and whether the one before it is not. */
  datatype Entry = Entry(source: Source, text: string, afresh: bool)

  predicate Skipped(items: seq<Item>, i: nat) { 0 < i <= |items| && !items[i - 1].included }

  function Entries(items: seq<Item>): seq<Entry> {
    if items == [] then []
    else
      var n := |items| - 1;
      Entries(items[..n]) + if items[n].included then [Entry(items[n].source, items[n].text, Skipped(items, n))] else []
  }

  predicate SpeakerOrLanguageChanges(entries: seq<Entry>, i: nat)
    requires i < |entries|
  {
    i > 0 && (entries[i].source.speaker != entries[i - 1].source.speaker
              || entries[i].source.language != entries[i - 1].source.language)
  }

  predicate PausesBefore(entries: seq<Entry>, i: nat)
    requires i < |entries|
  {
    i > 0 && entries[i].source.Timed() && entries[i - 1].source.Timed()
    && entries[i].source.start - entries[i - 1].source.end >= PAUSE_SAMPLES
  }

  /** The document the shown sources amount to: a boundary wherever one is left out between them. */
  function AsDocument(cl: Classes, entries: seq<Entry>): (d: Document)
    ensures d.Aligned() && |d.texts| == |entries|
  {
    Document(cl,
             seq(|entries|, i requires 0 <= i < |entries| => entries[i].text),
             seq(|entries|, i requires 0 <= i < |entries| => entries[i].afresh || SpeakerOrLanguageChanges(entries, i)),
             seq(|entries|, i requires 0 <= i < |entries| => PausesBefore(entries, i)))
  }

  lemma {:induction false} EntryAt(items: seq<Item>, i: nat)
    requires i < |items|
    ensures Entries(items[..i]) <= Entries(items)
    ensures items[i].included ==>
      |Entries(items[..i])| < |Entries(items)|
      && Entries(items)[|Entries(items[..i])|] == Entry(items[i].source, items[i].text, Skipped(items, i))
    ensures Entries(items[..i + 1]) == Entries(items[..i]) + if items[i].included
        then [Entry(items[i].source, items[i].text, Skipped(items, i))] else []
  {
    assert items[..i + 1][..i] == items[..i];
    if i == |items| - 1 {
      assert items[..i + 1] == items;
    } else {
      var front := items[..|items| - 1];
      EntryAt(front, i);
      assert front[..i] == items[..i] && front[..i + 1] == items[..i + 1];
    }
  }

  /** The building with its present paragraph ended. */
  function Closed(b: Building): Building { Building(Finish(b), b.soft, []) }

  /** A slice behind a hard boundary ends the present paragraph anyway. */
  lemma ClosedAdds(d: Document, b: Building, s: Slice)
    requires d.Aligned() && BuildingIn(d, b) && d.Has(s) && Hard(d, b.current, s)
    ensures BuildingIn(d, Closed(b)) && AddSlice(d, Closed(b), s) == AddSlice(d, b, s)
  {
    assert [] + [s] == [s];
  }

  lemma PartAdded(d: Document, b: Building, s: Slice, characters: nat, hard: bool, cuts: bool)
    requires d.Aligned() && BuildingIn(d, b) && d.Has(s) && characters == TextLength(d, b.current)
    requires b.current != [] ==> hard == Hard(d, b.current, s)
    requires cuts == Cuts(b, characters, d.Length(s), hard)
    ensures AddSlice(d, b, s) == Building(if cuts then b.paragraphs + [b.current] else b.paragraphs,
                                          if cuts && !hard then b.soft + [|b.paragraphs| + 1] else b.soft,
                                          (if cuts then [] else b.current) + [s])
    ensures TextLength(d, AddSlice(d, b, s).current) == (if cuts then 0 else characters) + d.Length(s)
  {
    PlacedIsAdded(d, b, s, characters, hard);
    TextLengthAppend(d, b.current, s);
    TextLengthAppend(d, [], s);
    assert [] + [s] == [s];
  }

  /** How many of the first items are shown. */
  function Shown(items: seq<Item>, i: nat): nat
    requires i <= |items|
  {
    if i == 0 then 0 else Shown(items, i - 1) + if items[i - 1].included then 1 else 0
  }

  lemma {:induction false} ShownIs(items: seq<Item>, i: nat)
    requires i <= |items|
    ensures Shown(items, i) == |Entries(items[..i])|
  {
    if i > 0 {
      ShownIs(items, i - 1);
      assert items[..i][..i - 1] == items[..i - 1];
    }
  }

  lemma EntryOf(items: seq<Item>, i: nat)
    requires i < |items|
    ensures Shown(items, i + 1) <= |Entries(items)|
    ensures items[i].included ==>
        Entries(items)[Shown(items, i)] == Entry(items[i].source, items[i].text, Skipped(items, i))
  {
    EntryAt(items, i);
    ShownIs(items, i);
    ShownIs(items, i + 1);
  }

  lemma AllShown(items: seq<Item>)
    ensures Shown(items, |items|) == |Entries(items)|
  {
    ShownIs(items, |items|);
    assert items[..|items|] == items;
  }

  /** The builder's fields as a value, and what they are for a building. */
  datatype Fields = Fields(paragraphs: seq<seq<Slice>>, continuations: seq<nat>, current: seq<Slice>, characters: nat)

  function Mirror(d: Document, b: Building): Fields
    requires BuildingIn(d, b)
  {
    Fields(b.paragraphs, b.soft, b.current, TextLength(d, b.current))
  }

  class ParagraphBuilder {
    var paragraphs: seq<seq<Slice>>
    var continuations: seq<nat>
    var current: seq<Slice>
    var characters: nat

    ghost predicate Holds(d: Document, b: Building)
      requires BuildingIn(d, b)
      reads this
    {
      Fields(paragraphs, continuations, current, characters) == Mirror(d, b)
    }

    constructor ()
      ensures paragraphs == [] && continuations == [] && current == [] && characters == 0
    {
      paragraphs, continuations, current, characters := [], [], [], 0;
    }

    /** Ends the present paragraph, if there is one. */
    method Flush(nextSoft: bool)
      modifies this
      ensures current == [] && characters == 0
      ensures old(current) == [] ==> paragraphs == old(paragraphs) && continuations == old(continuations)
      ensures old(current) != [] ==>
        && paragraphs == old(paragraphs) + [old(current)]
        && continuations == old(continuations) + if nextSoft then [|old(paragraphs)| + 1] else []
    {
      if current != [] {
        paragraphs := paragraphs + [current];
        if nextSoft {
          continuations := continuations + [|paragraphs|];
        }
      }
      current := [];
      characters := 0;
    }

    /** Flushes for a source left out, and at the end. */
    method Close(ghost d: Document, ghost b: Building)
      requires BuildingIn(d, b) && Holds(d, b)
      modifies this
      ensures BuildingIn(d, Closed(b)) && Holds(d, Closed(b))
    {
      Flush(false);
    }

    method AddPart(d: Document, ghost b: Building, s: Slice, sourceBoundary: bool)
      requires d.Aligned() && BuildingIn(d, b) && d.Has(s) && Holds(d, b)
      requires b.current != [] ==>
        Hard(d, b.current, s) == ((s.start == 0 && sourceBoundary)
                                  || EndsBlank(d.cl, d.Piece(b.current[|b.current| - 1])))
      modifies this
      ensures Holds(d, AddSlice(d, b, s))
    {
      var length := d.Length(s);
      var hardBoundary := (s.start == 0 && sourceBoundary)
          || (current != [] && EndsBlank(d.cl, d.Piece(current[|current| - 1])));
      var sizeBoundary := |current| >= PARAGRAPH_SENTENCES || characters + length > PARAGRAPH_CHARACTERS;
      var cuts := current != [] && (hardBoundary || sizeBoundary);
      assert b.current != [] ==> hardBoundary == Hard(d, b.current, s);
      assert cuts == Cuts(b, characters, length, hardBoundary);
      PartAdded(d, b, s, characters, hardBoundary, cuts);
      Place(s, length, cuts, hardBoundary);
    }

    method Place(s: Slice, length: nat, cuts: bool, hard: bool)
      requires cuts ==> current != []
      modifies this
      ensures paragraphs == if cuts then old(paragraphs) + [old(current)] else old(paragraphs)
      ensures continuations == if cuts && !hard then old(continuations) + [|old(paragraphs)| + 1]
          else old(continuations)
      ensures current == (if cuts then [] else old(current)) + [s]
          && characters == (if cuts then 0 else old(characters)) + length
    {
      if cuts { Flush(!hard); }
      current := current + [s];
      characters := characters + length;
    }

    /** All slices of one source; after a source left out, everything before it is flushed. */
    method AddSource(d: Document, source: nat, sourceBoundary: bool, ghost b: Building)
      requires d.Aligned() && source < |d.texts| && BuildingIn(d, b) && Holds(d, b)
      requires b == BuiltBefore(d, source) || (b == Closed(BuiltBefore(d, source)) && d.explicit[source])
      requires b.current != [] ==> SourceTest(d, source, b.current, sourceBoundary, 0)
      modifies this
      ensures Holds(d, BuiltBefore(d, source + 1))
    {
      var spans := ReaderSpans(d.cl, d.texts[source]);
      BuiltEnds(d, source);
      assert spans != [] by { SpansPartition(d.cl, d.texts[source]); }
      AddFirst(d, source, spans[0], sourceBoundary, b);
      for j := 1 to |spans|
        invariant Holds(d, Built(d, source, j))
      {
        AddSpan(d, source, j, spans[j], sourceBoundary, Built(d, source, j));
      }
    }

    method AddFirst(d: Document, source: nat, span: Span, sourceBoundary: bool, ghost b: Building)
      requires d.Aligned() && source < |d.texts| && SentenceSpans(d.cl, d.texts[source]) != []
      requires span == SentenceSpans(d.cl, d.texts[source])[0] && BuildingIn(d, b) && Holds(d, b)
      requires b == BuiltBefore(d, source) || (b == Closed(BuiltBefore(d, source)) && d.explicit[source])
      requires b.current != [] ==> SourceTest(d, source, b.current, sourceBoundary, 0)
      modifies this
      ensures Holds(d, Built(d, source, 1))
    {
      BuiltEnds(d, source);
      FirstIsAdded(d, source, b);
      AddSpan(d, source, 0, span, sourceBoundary, b);
    }

    method AddSpan(d: Document, source: nat, j: nat, span: Span, sourceBoundary: bool, ghost b: Building)
      requires d.Aligned() && source < |d.texts| && j < |SentenceSpans(d.cl, d.texts[source])|
      requires span == SentenceSpans(d.cl, d.texts[source])[j] && BuildingIn(d, b) && Holds(d, b)
      requires b == Built(d, source, j) || AddsTheSame(d, source, j, b)
      requires b.current != [] ==> SourceTest(d, source, b.current, sourceBoundary, j)
      modifies this
      ensures Holds(d, Built(d, source, j + 1))
    {
      BuiltStep(d, source, j);
      if b.current != [] { HardTest(d, source, j, b.current, sourceBoundary); }
      AddPart(d, b, Slice(source, span.start, span.end), sourceBoundary);
    }
  }

  /** The next slice makes the same of this building as of the policy's. */
  ghost predicate AddsTheSame(d: Document, source: nat, j: nat, b: Building)
    requires d.Aligned() && source < |d.texts| && j < |SentenceSpans(d.cl, d.texts[source])| && BuildingIn(d, b)
  {
    d.Has(NthSlice(d, source, j))
        && AddSlice(d, b, NthSlice(d, source, j)) == AddSlice(d, Built(d, source, j), NthSlice(d, source, j))
  }

  lemma FirstIsAdded(d: Document, source: nat, b: Building)
    requires d.Aligned() && source < |d.texts| && SentenceSpans(d.cl, d.texts[source]) != [] && BuildingIn(d, b)
    requires b == BuiltBefore(d, source) || (b == Closed(BuiltBefore(d, source)) && d.explicit[source])
    ensures AddsTheSame(d, source, 0, b)
  {
    BuiltEnds(d, source);
    BuiltStep(d, source, 0);
    if b != BuiltBefore(d, source) {
      assert NthSlice(d, source, 0).start == 0 by { SpansPartition(d.cl, d.texts[source]); }
      ClosedAdds(d, BuiltBefore(d, source), NthSlice(d, source, 0));
    }
  }

  method BuildReadableParagraphs(cl: Classes, items: seq<Item>) returns (paragraphs: seq<seq<Slice>>)
    ensures paragraphs == ReadableParagraphs(AsDocument(cl, Entries(items)))
    ensures RightlyParted(AsDocument(cl, Entries(items)), paragraphs)
  {
    var d := AsDocument(cl, Entries(items));
    var builder := new ParagraphBuilder();
    var n, _ := AddItems(builder, d, items);
    AllShown(items);
    builder.Close(d, Reached(d, |d.texts|, Skipped(items, |items|)));
    BuiltSoft(d);
    paragraphs := BalanceInOrder(d, builder.paragraphs, builder.continuations);
    ParagraphsParted(AsDocument(cl, Entries(items)), paragraphs);
  }

  // ----- What a paragraph may hold together -----

  /** A slice follows one of the same source, or begins the next source. */
  predicate Follows(a: Slice, b: Slice) { b.source == a.source || (b.source == a.source + 1 && b.start == 0) }

  predicate Chained(slices: seq<Slice>) { forall i :: 0 < i < |slices| ==> Follows(slices[i - 1], slices[i]) }

  lemma {:induction false} SlicesChained(d: Document, n: nat)
    requires n <= |d.texts|
    ensures Chained(SlicesBefore(d, n))
    ensures if n == 0 then SlicesBefore(d, n) == []
            else SlicesBefore(d, n) != [] && SlicesBefore(d, n)[|SlicesBefore(d, n)| - 1].source == n - 1
  {
    if n > 0 {
      SlicesChained(d, n - 1);
      SpansPartition(d.cl, d.texts[n - 1]);
      SourceChained(SlicesBefore(d, n - 1), SourceSlices(n - 1, SentenceSpans(d.cl, d.texts[n - 1])), n - 1);
    }
  }

  lemma SourceChained(before: seq<Slice>, more: seq<Slice>, source: nat)
    requires Chained(before) && more != [] && more[0].start == 0
    requires if source == 0 then before == [] else before != [] && before[|before| - 1].source == source - 1
    requires forall k :: 0 <= k < |more| ==> more[k].source == source
    ensures Chained(before + more)
  {
    var all := before + more;
    forall i | 0 < i < |all| ensures Follows(all[i - 1], all[i]) {
      if i < |before| { assert Follows(before[i - 1], before[i]); }
    }
  }

  lemma {:induction false} PartChained(paragraphs: seq<seq<Slice>>, k: nat)
    requires k < |paragraphs| && Chained(Flatten(paragraphs))
    ensures Chained(paragraphs[k])
  {
    var front, last := paragraphs[..|paragraphs| - 1], paragraphs[|paragraphs| - 1];
    var all := Flatten(front) + last;
    forall i | 0 < i < |Flatten(front)| ensures Follows(Flatten(front)[i - 1], Flatten(front)[i]) {
      assert all[i - 1] == Flatten(front)[i - 1] && all[i] == Flatten(front)[i];
    }
    forall i | 0 < i < |last| ensures Follows(last[i - 1], last[i]) {
      assert all[|Flatten(front)| + i - 1] == last[i - 1] && all[|Flatten(front)| + i] == last[i];
    }
    if k < |front| {
      PartChained(front, k);
      assert paragraphs[k] == front[k];
    }
  }

  /** Slice j belongs with the one before it: both of one source, or of two sources shown one right after the other, of
      one speaker in one language, and parted by less than 1.2 seconds unless there is not yet much text. */
  predicate BelongsWith(d: Document, entries: seq<Entry>, p: seq<Slice>, j: nat)
    requires 0 < j < |p| && HasAll(d, p) && |entries| == |d.texts|
  {
    var a, b := p[j - 1].source, p[j].source;
    b == a
    || (b == a + 1 && !entries[b].afresh
        && entries[b].source.speaker == entries[a].source.speaker
        && entries[b].source.language == entries[a].source.language
        && (LongPause(entries[a].source, entries[b].source) ==> TextLength(d, p[..j]) < 60))
  }

  predicate LongPause(a: Source, b: Source) {
    a.start < a.end && !a.timingInvalid && b.start < b.end && !b.timingInvalid && b.start - a.end >= 19200
  }

  lemma GoodBelongs(cl: Classes, entries: seq<Entry>, p: seq<Slice>, j: nat)
    requires 0 < j < |p| && HasAll(AsDocument(cl, entries), p) && Chained(p) && Good(AsDocument(cl, entries), p)
    ensures BelongsWith(AsDocument(cl, entries), entries, p, j)
  {
    var d := AsDocument(cl, entries);
    assert !Hard(d, p[..j], p[j]);
    assert d.Has(p[j - 1]) && d.Has(p[j]) && Follows(p[j - 1], p[j]);
  }

  /** No paragraph mixes speakers or languages, or reaches across a source that is left out or a long pause. */
  lemma ParagraphsBelong(cl: Classes, entries: seq<Entry>, k: nat, j: nat)
    requires k < |ReadableParagraphs(AsDocument(cl, entries))|
    requires 0 < j < |ReadableParagraphs(AsDocument(cl, entries))[k]|
    ensures HasAll(AsDocument(cl, entries), ReadableParagraphs(AsDocument(cl, entries))[k])
    ensures BelongsWith(AsDocument(cl, entries), entries, ReadableParagraphs(AsDocument(cl, entries))[k], j)
  {
    var d := AsDocument(cl, entries);
    var paragraphs := ReadableParagraphs(d);
    ReadableParagraphsGood(d);
    SlicesChained(d, |d.texts|);
    PartChained(paragraphs, k);
    GoodBelongs(cl, entries, paragraphs[k], j);
  }

  predicate FlaggedAt(d: Document, entries: seq<Entry>, n: nat)
    requires d.Aligned() && n < |d.texts| == |entries|
  {
    d.explicit[n] == (entries[n].afresh || SpeakerOrLanguageChanges(entries, n))
        && d.pauses[n] == PausesBefore(entries, n)
  }

  /** The document has the boundaries and pauses of the entries. */
  predicate Flags(d: Document, entries: seq<Entry>) {
    d.Aligned() && |d.texts| == |entries| && forall n :: 0 <= n < |entries| ==> FlaggedAt(d, entries, n)
  }

  /** What the policy has built, ended if a source was left out since. */
  ghost function Reached(d: Document, n: nat, skipped: bool): (b: Building)
    requires d.Aligned() && n <= |d.texts|
    ensures BuildingIn(d, b) && Closed(b) == Closed(BuiltBefore(d, n))
  {
    if skipped then Closed(BuiltBefore(d, n)) else BuiltBefore(d, n)
  }

  /** After the first i items: n of them shown, the builder where the policy is, and the source shown last, if
      nothing was left out since. */
  ghost predicate After(builder: ParagraphBuilder, d: Document, items: seq<Item>, i: nat, n: nat,
                        previous: Option<Source>)
    requires d.Aligned() && |d.texts| == |Entries(items)| && i <= |items|
    reads builder
  {
    && n == Shown(items, i) <= |Entries(items)|
    && builder.Holds(d, Reached(d, n, Skipped(items, i))) && previous == Before(items, i, n)
  }

  method AddItems(builder: ParagraphBuilder, d: Document, items: seq<Item>) returns (n: nat, previous: Option<Source>)
    requires Flags(d, Entries(items)) && builder.Holds(d, Building([], [], []))
    modifies builder
    ensures After(builder, d, items, |items|, n, previous)
  {
    n, previous := 0, None;
    for i := 0 to |items|
      invariant After(builder, d, items, i, n, previous)
    {
      n, previous := AddItem(builder, d, items, i, n, previous);
    }
  }

  method AddItem(builder: ParagraphBuilder, d: Document, items: seq<Item>, i: nat, n: nat, previous: Option<Source>)
    returns (count: nat, next: Option<Source>)
    requires Flags(d, Entries(items)) && i < |items| && After(builder, d, items, i, n, previous)
    modifies builder
    ensures After(builder, d, items, i + 1, count, next)
  {
    if !items[i].included {
      count, next := SkipItem(builder, d, items, i, n, previous);
    } else {
      count, next := ShowItem(builder, d, items, i, n, previous);
    }
  }

  method SkipItem(builder: ParagraphBuilder, ghost d: Document, ghost items: seq<Item>, ghost i: nat, n: nat,
                  ghost previous: Option<Source>)
    returns (count: nat, next: Option<Source>)
    requires Flags(d, Entries(items)) && i < |items| && After(builder, d, items, i, n, previous)
    requires !items[i].included
    modifies builder
    ensures After(builder, d, items, i + 1, count, next)
  {
    builder.Close(d, Reached(d, n, Skipped(items, i)));
    assert Skipped(items, i + 1) && Shown(items, i + 1) == n;
    count, next := n, None;
  }

  method ShowItem(builder: ParagraphBuilder, d: Document, items: seq<Item>, i: nat, n: nat, previous: Option<Source>)
    returns (count: nat, next: Option<Source>)
    requires Flags(d, Entries(items)) && i < |items| && After(builder, d, items, i, n, previous)
    requires items[i].included
    modifies builder
    ensures After(builder, d, items, i + 1, count, next)
  {
    ShownNext(items, i, n);
    AddEntry(builder, d, items, i, n, previous, Reached(d, n, Skipped(items, i)));
    count, next := n + 1, Some(items[i].source);
  }

  lemma ShownNext(items: seq<Item>, i: nat, n: nat)
    requires i < |items| && items[i].included && n == Shown(items, i)
    ensures n + 1 == Shown(items, i + 1) <= |Entries(items)| && !Skipped(items, i + 1)
    ensures Entries(items)[n] == Entry(items[i].source, items[i].text, Skipped(items, i))
    ensures Before(items, i + 1, n + 1) == Some(items[i].source)
  {
    EntryOf(items, i);
  }

  /** The source shown just before item i, unless one was left out since. */
  ghost function Before(items: seq<Item>, i: nat, n: nat): Option<Source>
    requires n <= |Entries(items)|
  {
    if n == 0 || Skipped(items, i) then None else Some(Entries(items)[n - 1].source)
  }

  method AddEntry(builder: ParagraphBuilder, d: Document, items: seq<Item>, i: nat, n: nat, previous: Option<Source>,
                  ghost b: Building)
    requires Flags(d, Entries(items)) && i < |items| && n < |Entries(items)|
    requires Entries(items)[n] == Entry(items[i].source, items[i].text, Skipped(items, i))
    requires previous == Before(items, i, n) && b == Reached(d, n, Skipped(items, i)) && builder.Holds(d, b)
    modifies builder
    ensures builder.Holds(d, BuiltBefore(d, n + 1))
  {
    assert FlaggedAt(d, Entries(items), n);
    builder.AddSource(d, n, ReaderBoundary(items[i].source, previous, builder.characters), b);
  }

  lemma BuiltSoft(d: Document)
    requires d.Aligned()
    ensures var b := BuiltBefore(d, |d.texts|); AllIn(d, Finish(b)) && SoftOrdered(b.soft, |Finish(b)|)
  {
    SlicesInDocument(d, |d.texts|);
    GroupKeeps(d, SlicesBefore(d, |d.texts|));
  }

  /** Over the continuing paragraphs in the order they were marked. */
  method BalanceInOrder(d: Document, grouped: seq<seq<Slice>>, continuations: seq<nat>)
    returns (paragraphs: seq<seq<Slice>>)
    requires AllIn(d, grouped) && SoftOrdered(continuations, |grouped|)
    ensures paragraphs == Balance(d, grouped, continuations)
  {
    paragraphs := grouped;
    for n := 0 to |continuations|
      invariant AllIn(d, paragraphs) && paragraphs == Balance(d, grouped, continuations[..n])
      invariant |paragraphs| == |grouped|
    {
      assert continuations[..n + 1][..n] == continuations[..n];
      paragraphs := BalanceTail(d, paragraphs, continuations[n]);
    }
    assert continuations[..|continuations|] == continuations;
  }

  /** Whether a source starts a paragraph, given the one shown just before it. */
  function ReaderBoundary(source: Source, previous: Option<Source>, characters: nat): bool {
    previous.Some?
    && (source.speaker != previous.value.speaker || source.language != previous.value.language
        || (source.Timed() && previous.value.Timed() && source.start - previous.value.end >= PAUSE_SAMPLES
            && characters >= PARAGRAPH_MIN_CHARACTERS))
  }

  /** From the same sources both readers build the same paragraphs, and these are good and lose nothing of what is
      shown. */
  method ReadersAgree(cl: Classes, items: seq<Item>) returns (backend: seq<seq<Slice>>, frontend: seq<seq<Slice>>)
    ensures backend == frontend
    ensures Flatten(frontend) == SlicesBefore(AsDocument(cl, Entries(items)), |Entries(items)|)
    ensures AllGood(AsDocument(cl, Entries(items)), frontend)
  {
    backend := ParagraphSlices(AsDocument(cl, Entries(items)));
    frontend := BuildReadableParagraphs(cl, items);
    ReadableParagraphsGood(AsDocument(cl, Entries(items)));
  }
}
