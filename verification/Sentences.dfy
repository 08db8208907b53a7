/** Character classes shared by the backend and the frontend reader. The Unicode classes are parameters;
    the ASCII classes and the mark lists are the source's own. */
module CharacterClasses {

  datatype Classes = Classes(space: char -> bool, decimal: char -> bool, digit: char -> bool, alnum: char -> bool)

  const TERMINATORS := "。！？.!?"
  const CLOSING_MARKS := "\"'”’」』】）》〉]}"
  const FORMATTING_MARKS := "。！？.!?,，、;；:：\"'“”‘’「」『』【】（）()[]{}《》〈〉…"

  predicate AsciiUpper(c: char) { 'A' <= c <= 'Z' }
  predicate AsciiAlpha(c: char) { 'A' <= c <= 'Z' || 'a' <= c <= 'z' }
  predicate AsciiAlnum(c: char) { AsciiAlpha(c) || '0' <= c <= '9' }

  function Lower(c: char): char {
    if AsciiUpper(c) then (c as int + 32) as char else c
  }

  function LowerAll(s: string): string {
    seq(|s|, i requires 0 <= i < |s| => Lower(s[i]))
  }

  predicate Blank(cl: Classes, s: string) {
    forall i :: 0 <= i < |s| ==> cl.space(s[i])
  }

  /** The first position at or after i that is not a space. */
  function SkipSpace(cl: Classes, text: string, i: nat): (r: nat)
    requires i <= |text|
    ensures i <= r <= |text|
    decreases |text| - i
  {
    if i < |text| && cl.space(text[i]) then SkipSpace(cl, text, i + 1) else i
  }

  lemma {:induction false} SkipSpaceStops(cl: Classes, text: string, i: nat)
    requires i <= |text|
    ensures var r := SkipSpace(cl, text, i);
            Blank(cl, text[i..r]) && (r < |text| ==> !cl.space(text[r]))
    decreases |text| - i
  {
    if i < |text| && cl.space(text[i]) {
      SkipSpaceStops(cl, text, i + 1);
      var r := SkipSpace(cl, text, i);
      assert text[i..r] == [text[i]] + text[i + 1..r];
    }
  }

  /** One past the last non-space of text[..i], or 0. */
  function TrimmedEnd(cl: Classes, text: string, i: nat): (r: nat)
    requires i <= |text|
    ensures r <= i
  {
    if i > 0 && cl.space(text[i - 1]) then TrimmedEnd(cl, text, i - 1) else i
  }

  lemma {:induction false} TrimmedEndStops(cl: Classes, text: string, i: nat)
    requires i <= |text|
    ensures var r := TrimmedEnd(cl, text, i);
            Blank(cl, text[r..i]) && (r > 0 ==> !cl.space(text[r - 1]))
  {
    if i > 0 && cl.space(text[i - 1]) {
      TrimmedEndStops(cl, text, i - 1);
      var r := TrimmedEnd(cl, text, i);
      assert text[r..i] == text[r..i - 1] + [text[i - 1]];
    }
  }

  /** The text without surrounding space. */
  function Strip(cl: Classes, s: string): (r: string)
    ensures |r| <= |s|
  {
    var from, to := SkipSpace(cl, s, 0), TrimmedEnd(cl, s, |s|);
    if from < to then s[from..to] else []
  }

  /** Only space goes, and none is left at either end. */
  lemma StripMeans(cl: Classes, s: string) returns (from: nat, to: nat)
    ensures from <= to <= |s| && Strip(cl, s) == s[from..to] && Blank(cl, s[..from]) && Blank(cl, s[to..])
    ensures from < to ==> !cl.space(s[from]) && !cl.space(s[to - 1])
  {
    from, to := SkipSpace(cl, s, 0), TrimmedEnd(cl, s, |s|);
    SkipSpaceStops(cl, s, 0);
    TrimmedEndStops(cl, s, |s|);
    assert s[0..from] == s[..from] && s[to..|s|] == s[to..];
    if from >= to {
      AllBlank(cl, s, from, to);
      from, to := 0, 0;
    }
  }

  /** The non-space characters, in order. */
  function Dense(cl: Classes, s: string): string {
    if s == [] then [] else Dense(cl, s[..|s| - 1]) + if cl.space(s[|s| - 1]) then [] else [s[|s| - 1]]
  }

  lemma {:induction false} DenseConcat(cl: Classes, a: string, b: string)
    ensures Dense(cl, a + b) == Dense(cl, a) + Dense(cl, b)
  {
    if b == [] {
      assert a + b == a;
    } else {
      assert (a + b)[..|a + b| - 1] == a + b[..|b| - 1];
      DenseConcat(cl, a, b[..|b| - 1]);
    }
  }

  lemma {:induction false} DenseBlank(cl: Classes, s: string)
    requires Blank(cl, s)
    ensures Dense(cl, s) == []
  {
    if s != [] {
      DenseBlank(cl, s[..|s| - 1]);
    }
  }

  lemma DenseMiddle(cl: Classes, a: string, b: string, c: string)
    requires Blank(cl, a) && Blank(cl, c)
    ensures Dense(cl, a + b + c) == Dense(cl, b)
  {
    DenseConcat(cl, a + b, c);
    DenseConcat(cl, a, b);
    DenseBlank(cl, a);
    DenseBlank(cl, c);
  }

  lemma AllBlank(cl: Classes, s: string, from: nat, to: nat)
    requires to <= from <= |s| && Blank(cl, s[0..from]) && Blank(cl, s[to..|s|])
    ensures Blank(cl, s)
  {
    forall k | 0 <= k < |s| ensures cl.space(s[k]) {
      if k < from { assert s[0..from][k] == s[k]; } else { assert s[to..|s|][k - to] == s[k]; }
    }
  }

  /** Stripping loses no non-space character. */
  lemma DenseStrip(cl: Classes, s: string)
    ensures Dense(cl, Strip(cl, s)) == Dense(cl, s)
  {
    var from, to := StripMeans(cl, s);
    DenseMiddle(cl, s[..from], s[from..to], s[to..]);
    assert s[..from] + s[from..to] + s[to..] == s;
  }
}

/** Sentence spans and lexical positions: one description, and the backend's loops proved against it. */
module Sentences {
  import opened CharacterClasses

  const ABBREVIATIONS: set<string> := {
    "mr", "mrs", "ms", "dr", "prof", "sr", "jr", "st", "vs", "etc", "e.g", "i.e", "no", "fig", "inc", "ltd",
    "approx", "dept", "a.m", "p.m"
  }

  // ----- Is a period the end of a sentence? -----

  /** Where the run of ASCII letters and periods before position i begins. */
  function WordStart(text: string, i: nat): (r: nat)
    requires i <= |text|
    ensures r <= i
  {
    if i > 0 && (AsciiAlpha(text[i - 1]) || text[i - 1] == '.') then WordStart(text, i - 1) else i
  }

  /** At least two initials, each a letter and a period. */
  predicate Initials(word: string) {
    |word| >= 4 && |word| % 2 == 0
    && forall k :: 0 <= k < |word| ==> if k % 2 == 0 then AsciiAlpha(word[k]) else word[k] == '.'
  }

  predicate SingleInitial(word: string) {
    |word| == 2 && AsciiUpper(word[0]) && word[1] == '.'
  }

  predicate PeriodEnds(cl: Classes, text: string, i: nat)
    requires i < |text|
  {
    var word := text[WordStart(text, i)..i + 1];
    var next := SkipSpace(cl, text, i + 1);
    && !(i + 1 < |text| && cl.decimal(text[i + 1]))
    && !(i > 0 && i + 1 < |text| && AsciiAlnum(text[i - 1]) && AsciiAlnum(text[i + 1]))
    && LowerAll(word[..|word| - 1]) !in ABBREVIATIONS
    && !Initials(word)
    && !(SingleInitial(word) && next < |text| && AsciiUpper(text[next]))
  }

  // ----- Sentence ends -----

  function SkipBlankLine(text: string, i: nat): (r: nat)
    requires i <= |text|
    ensures i <= r <= |text|
    decreases |text| - i
  {
    if i < |text| && text[i] in " \t\r" then SkipBlankLine(text, i + 1) else i
  }

  /** A line break, spaces, and another line break begin at i. */
  predicate BlankLineAt(text: string, i: nat)
    requires i < |text|
  {
    text[i] == '\n' && SkipBlankLine(text, i + 1) < |text| && text[SkipBlankLine(text, i + 1)] == '\n'
  }

  function BlankLineEnd(text: string, i: nat): (r: nat)
    requires i < |text| && BlankLineAt(text, i)
    ensures i < r <= |text|
  {
    SkipBlankLine(text, i + 1) + 1
  }

  predicate Terminates(cl: Classes, text: string, i: nat)
    requires i < |text|
  {
    text[i] in TERMINATORS && (text[i] != '.' || PeriodEnds(cl, text, i))
  }

  predicate Stops(cl: Classes, text: string, i: nat)
    requires i < |text|
  {
    Terminates(cl, text, i) || BlankLineAt(text, i)
  }

  function SkipIn(text: string, marks: string, i: nat): (r: nat)
    requires i <= |text|
    ensures i <= r <= |text|
    decreases |text| - i
  {
    if i < |text| && text[i] in marks then SkipIn(text, marks, i + 1) else i
  }

  /** The end of the sentence that stops at i: repeated terminators, closing marks and spaces belong to it. */
  function StopEnd(cl: Classes, text: string, i: nat): (r: nat)
    requires i < |text| && Stops(cl, text, i)
    ensures i < r <= |text|
  {
    var first := if BlankLineAt(text, i) then BlankLineEnd(text, i) else i + 1;
    var marks := if Terminates(cl, text, i) then SkipIn(text, CLOSING_MARKS, SkipIn(text, TERMINATORS, first))
        else first;
    SkipSpace(cl, text, marks)
  }

  lemma StopEndStops(cl: Classes, text: string, i: nat)
    requires i < |text| && Stops(cl, text, i)
    ensures StopEnd(cl, text, i) < |text| ==> !cl.space(text[StopEnd(cl, text, i)])
  {
    var first := if BlankLineAt(text, i) then BlankLineEnd(text, i) else i + 1;
    SkipSpaceStops(cl, text, if Terminates(cl, text, i)
                   then SkipIn(text, CLOSING_MARKS, SkipIn(text, TERMINATORS, first)) else first);
  }

  datatype Span = Span(start: nat, end: nat)

  /** The spans still to come when the present sentence began at start and the scan is at i. */
  function SpansFrom(cl: Classes, text: string, start: nat, i: nat): seq<Span>
    requires start <= i <= |text|
    decreases |text| - i
  {
    if i == |text| then (if start < |text| then [Span(start, |text|)] else [])
    else if !Stops(cl, text, i) then SpansFrom(cl, text, start, i + 1)
    else
      var end := StopEnd(cl, text, i);
      if Blank(cl, text[start..end]) then SpansFrom(cl, text, start, end)
      else [Span(start, end)] + SpansFrom(cl, text, end, end)
  }

  function SentenceSpans(cl: Classes, text: string): (r: seq<Span>)
    ensures r != []
  {
    var spans := SpansFrom(cl, text, 0, 0);
    if spans == [] then [Span(0, |text|)] else spans
  }

  /** The spans are consecutive and together are text[from..to]. */
  predicate Tiles(spans: seq<Span>, from: nat, to: nat) {
    && spans != []
    && spans[0].start == from && spans[|spans| - 1].end == to
    && (forall k :: 0 <= k < |spans| ==> spans[k].start <= spans[k].end)
    && (forall k :: 0 <= k < |spans| - 1 ==> spans[k].end == spans[k + 1].start)
  }

  lemma TilesCons(head: Span, tail: seq<Span>, to: nat)
    requires head.start <= head.end && Tiles(tail, head.end, to)
    ensures Tiles([head] + tail, head.start, to)
  {
    var spans := [head] + tail;
    forall k | 0 <= k < |spans| - 1 ensures spans[k].end == spans[k + 1].start {
      if k > 0 {
        assert spans[k] == tail[k - 1] && spans[k + 1] == tail[k];
      }
    }
  }

  lemma RestNotBlank(cl: Classes, text: string, start: nat)
    requires start < |text| && (start == 0 || !cl.space(text[start]))
    ensures start > 0 || !Blank(cl, text) ==> !Blank(cl, text[start..|text|])
  {
    if start > 0 {
      assert text[start..|text|][0] == text[start];
    } else {
      assert text[start..|text|] == text;
    }
  }

  /** The spans tile the rest of the text, none is empty, and none is blank unless the whole text is. */
  predicate GoodSpans(cl: Classes, text: string, spans: seq<Span>, start: nat) {
    && (if start < |text| then Tiles(spans, start, |text|) else spans == [])
    && (forall s :: s in spans ==> s.start < s.end <= |text|)
    && (start > 0 || !Blank(cl, text) ==> forall s :: s in spans ==>
        s.start < s.end <= |text| && !Blank(cl, text[s.start..s.end]))
  }

  lemma GoodCons(cl: Classes, text: string, start: nat, end: nat, rest: seq<Span>)
    requires start < end <= |text| && !Blank(cl, text[start..end]) && GoodSpans(cl, text, rest, end)
    ensures GoodSpans(cl, text, [Span(start, end)] + rest, start)
  {
    if end < |text| { TilesCons(Span(start, end), rest, |text|); }
  }

  lemma GoodLast(cl: Classes, text: string, start: nat)
    requires start < |text| && (start == 0 || !cl.space(text[start]))
    ensures GoodSpans(cl, text, [Span(start, |text|)], start)
  {
    RestNotBlank(cl, text, start);
  }

  lemma {:induction false} SpansFromTile(cl: Classes, text: string, start: nat, i: nat)
    requires start <= i <= |text|
    requires start < |text| ==> start == 0 || !cl.space(text[start])
    ensures GoodSpans(cl, text, SpansFrom(cl, text, start, i), start)
    decreases |text| - i
  {
    if i == |text| {
      if start < |text| { GoodLast(cl, text, start); }
    } else if !Stops(cl, text, i) {
      SpansFromTile(cl, text, start, i + 1);
    } else {
      var end := StopEnd(cl, text, i);
      StopEndStops(cl, text, i);
      if Blank(cl, text[start..end]) {
        SpansFromTile(cl, text, start, end);
      } else {
        SpansFromTile(cl, text, end, end);
        GoodCons(cl, text, start, end, SpansFrom(cl, text, end, end));
      }
    }
  }

  /** The sentence spans partition the text, none is empty unless the text is, and none is blank unless
      the text is. */
  lemma SpansPartition(cl: Classes, text: string)
    ensures Tiles(SentenceSpans(cl, text), 0, |text|)
    ensures text != [] ==> forall s :: s in SentenceSpans(cl, text) ==> s.start < s.end
    ensures !Blank(cl, text) ==>
      forall s :: s in SentenceSpans(cl, text) ==> s.start <= s.end <= |text| && !Blank(cl, text[s.start..s.end])
  {
    SpansFromTile(cl, text, 0, 0);
  }

  // ----- Where sentences end -----

  predicate SentenceMark(c: char) { c == '。' || c == '！' || c == '？' || c == '.' || c == '!' || c == '?' }

  predicate ClosingMark(c: char) {
    || c == '"' || c == '\'' || c == '”' || c == '’' || c == '」' || c == '』' || c == '】' || c == '）' || c == '》'
    || c == '〉' || c == ']' || c == '}'
  }

  /** Of the classes, all that is needed: line breaks, tabs and the blank are space, and the marks are not. */
  predicate RealSpace(cl: Classes) {
    && cl.space(' ') && cl.space('\t') && cl.space('\r') && cl.space('\n')
    && forall c: char :: SentenceMark(c) || ClosingMark(c) ==> !cl.space(c)
  }

  predicate WordCharacter(c: char) { 'A' <= c <= 'Z' || 'a' <= c <= 'z' || c == '.' }

  /** The letters and periods right before i begin at start. */
  predicate WordBefore(text: string, start: nat, i: nat) {
    && start <= i <= |text| && (start > 0 ==> !WordCharacter(text[start - 1]))
    && forall k :: start <= k < i ==> WordCharacter(text[k])
  }

  /** Letter, period, letter, period: at least two initials. */
  predicate RunOfInitials(text: string, start: nat, i: nat)
    requires start <= i < |text|
  {
    i - start >= 3 && (i - start) % 2 == 1
    && forall k :: start <= k <= i ==> (text[k] == '.' <==> (k - start) % 2 == 1)
  }

  /** The first visible character from i on is a capital letter. */
  predicate CapitalFollows(cl: Classes, text: string, i: nat) {
    exists n :: i <= n < |text| && Spaces(cl, text, i, n) && !cl.space(text[n]) && 'A' <= text[n] <= 'Z'
  }

  predicate Spaces(cl: Classes, text: string, from: nat, to: nat)
    requires to <= |text|
  {
    forall k :: from <= k < to ==> cl.space(text[k])
  }

  /** The word before the period at i and the period: an abbreviation, a run of initials, or one initial before another
      capital. */
  predicate Abbreviates(cl: Classes, text: string, start: nat, i: nat)
    requires start <= i < |text|
  {
    || LowerAll(text[start..i]) in ABBREVIATIONS
    || RunOfInitials(text, start, i)
    || (i - start == 1 && 'A' <= text[start] <= 'Z' && CapitalFollows(cl, text, i + 1))
  }

  /** The period at i does not end a sentence: it stands before a decimal digit, or between two letters or digits, or
      abbreviates. */
  ghost predicate StaysOpen(cl: Classes, text: string, i: nat)
    requires i < |text|
  {
    || (i + 1 < |text| && cl.decimal(text[i + 1]))
    || (0 < i && i + 1 < |text| && AsciiAlnum(text[i - 1]) && AsciiAlnum(text[i + 1]))
    || exists start: nat :: WordBefore(text, start, i) && Abbreviates(cl, text, start, i)
  }

  ghost predicate EndsSentence(cl: Classes, text: string, i: nat)
    requires i < |text|
  {
    SentenceMark(text[i]) && (text[i] == '.' ==> !StaysOpen(cl, text, i))
  }

  /** A line break, then nothing but blanks, tabs and returns up to another line break. */
  predicate BlankLine(text: string, i: nat) {
    i < |text| && text[i] == '\n' && exists j :: i < j < |text| && text[j] == '\n' && BlankBetween(text, i + 1, j)
  }

  predicate BlankBetween(text: string, from: nat, to: nat)
    requires to <= |text|
  {
    forall k :: from <= k < to ==> text[k] == ' ' || text[k] == '\t' || text[k] == '\r'
  }

  /** From i on: all sentence marks there are, then all closing marks, then all space. */
  ghost predicate Closes(cl: Classes, text: string, i: nat, end: nat) {
    exists m: nat, n: nat :: ClosesAt(cl, text, i, m, n, end)
  }

  predicate ClosesAt(cl: Classes, text: string, i: nat, m: nat, n: nat, end: nat) {
    && i <= m <= n <= end <= |text|
    && (forall k :: i <= k < m ==> SentenceMark(text[k])) && (m < |text| ==> !SentenceMark(text[m]))
    && (forall k :: m <= k < n ==> ClosingMark(text[k])) && (n < |text| ==> !ClosingMark(text[n]))
    && Spaces(cl, text, n, end) && (end < |text| ==> !cl.space(text[end]))
  }

  /** A sentence goes on as long as nothing ends it, and no further: after a mark that ends a sentence there are only
      more marks, closing marks and space; after a blank line behind visible text there is only space; and unless the
      text is over, one of the two is there. */
  ghost predicate RightSpan(cl: Classes, text: string, s: Span) {
    && s.start <= s.end <= |text|
    && (forall i: nat :: s.start <= i < s.end && EndsSentence(cl, text, i) ==> Closes(cl, text, i + 1, s.end))
    && (forall i: nat :: s.start <= i < s.end && BlankLine(text, i) && !Spaces(cl, text, s.start, i) ==>
          Spaces(cl, text, i, s.end) && (s.end < |text| ==> !cl.space(text[s.end])))
    && (s.end < |text| ==> exists i: nat :: s.start <= i < s.end && Breaks(cl, text, s.start, i))
  }

  /** The sentence from start is over at i. */
  ghost predicate Breaks(cl: Classes, text: string, start: nat, i: nat)
    requires i < |text|
  {
    EndsSentence(cl, text, i) || (BlankLine(text, i) && !Spaces(cl, text, start, i))
  }

  ghost predicate RightSpans(cl: Classes, text: string, spans: seq<Span>) {
    forall s :: s in spans ==> RightSpan(cl, text, s)
  }

  lemma {:induction false} WordStartBefore(text: string, i: nat)
    requires i <= |text|
    ensures WordBefore(text, WordStart(text, i), i)
  {
    if i > 0 && (AsciiAlpha(text[i - 1]) || text[i - 1] == '.') { WordStartBefore(text, i - 1); }
  }

  lemma OneWordBefore(text: string, a: nat, b: nat, i: nat)
    requires WordBefore(text, a, i) && WordBefore(text, b, i)
    ensures a == b
  {
  }

  lemma InitialsMean(text: string, start: nat, i: nat)
    requires start <= i < |text| && WordBefore(text, start, i) && text[i] == '.'
    ensures Initials(text[start..i + 1]) <==> RunOfInitials(text, start, i)
  {
    var word := text[start..i + 1];
    if Initials(word) {
      forall k | start <= k <= i ensures text[k] == '.' <==> (k - start) % 2 == 1 { assert word[k - start] == text[k]; }
    }
    if RunOfInitials(text, start, i) {
      forall k | 0 <= k < |word| ensures if k % 2 == 0 then AsciiAlpha(word[k]) else word[k] == '.' {
        assert word[k] == text[start + k] && (start + k) - start == k;
      }
    }
  }

  lemma CapitalMeans(cl: Classes, text: string, i: nat)
    requires i <= |text|
    ensures var next := SkipSpace(cl, text, i);
      (next < |text| && AsciiUpper(text[next])) <==> CapitalFollows(cl, text, i)
  {
    SkipSpaceStops(cl, text, i);
    var next := SkipSpace(cl, text, i);
    forall k | i <= k < next ensures cl.space(text[k]) { assert text[i..next][k - i] == text[k]; }
    if CapitalFollows(cl, text, i) {
      var n :| i <= n < |text| && Spaces(cl, text, i, n) && !cl.space(text[n]) && 'A' <= text[n] <= 'Z';
      assert n == next;
    }
  }

  lemma AbbreviatesMeans(cl: Classes, text: string, i: nat)
    requires i < |text| && text[i] == '.'
    ensures var start := WordStart(text, i);
      var word := text[start..i + 1];
      var next := SkipSpace(cl, text, i + 1);
      (LowerAll(word[..|word| - 1]) in ABBREVIATIONS || Initials(word)
       || (SingleInitial(word) && next < |text| && AsciiUpper(text[next])))
      <==> Abbreviates(cl, text, start, i)
  {
    var start := WordStart(text, i);
    var word := text[start..i + 1];
    WordStartBefore(text, i);
    InitialsMean(text, start, i);
    CapitalMeans(cl, text, i + 1);
    assert word[..|word| - 1] == text[start..i];
    assert word[0] == text[start] && word[|word| - 1] == '.';
  }

  lemma PeriodEndsMeans(cl: Classes, text: string, i: nat)
    requires i < |text| && text[i] == '.'
    ensures PeriodEnds(cl, text, i) <==> !StaysOpen(cl, text, i)
  {
    var begin := WordStart(text, i);
    WordStartBefore(text, i);
    AbbreviatesMeans(cl, text, i);
    if start: nat :| WordBefore(text, start, i) && Abbreviates(cl, text, start, i) {
      OneWordBefore(text, start, begin, i);
    }
  }

  lemma Marks(c: char)
    ensures c in TERMINATORS <==> SentenceMark(c)
    ensures c in CLOSING_MARKS <==> ClosingMark(c)
  {
  }

  lemma TerminatesMeans(cl: Classes, text: string, i: nat)
    requires i < |text|
    ensures Terminates(cl, text, i) <==> EndsSentence(cl, text, i)
  {
    Marks(text[i]);
    if text[i] == '.' { PeriodEndsMeans(cl, text, i); }
  }

  lemma {:induction false} SkipBlankLineStops(text: string, i: nat)
    requires i <= |text|
    ensures var r := SkipBlankLine(text, i);
      BlankBetween(text, i, r) && (r < |text| ==> text[r] != ' ' && text[r] != '\t' && text[r] != '\r')
    decreases |text| - i
  {
    if i < |text| && text[i] in " \t\r" { SkipBlankLineStops(text, i + 1); }
  }

  lemma BlankLineMeans(text: string, i: nat)
    requires i < |text|
    ensures BlankLineAt(text, i) <==> BlankLine(text, i)
    ensures BlankLineAt(text, i) ==> BlankBetween(text, i + 1, BlankLineEnd(text, i) - 1)
                                     && text[BlankLineEnd(text, i) - 1] == '\n'
  {
    SkipBlankLineStops(text, i + 1);
    var r := SkipBlankLine(text, i + 1);
    if BlankLine(text, i) {
      var j :| i < j < |text| && text[j] == '\n' && BlankBetween(text, i + 1, j);
      assert r == j;
    }
  }

  lemma {:induction false} SkipInStops(text: string, marks: string, i: nat)
    requires i <= |text|
    ensures var r := SkipIn(text, marks, i);
      (forall k :: i <= k < r ==> text[k] in marks) && (r < |text| ==> text[r] !in marks)
    decreases |text| - i
  {
    if i < |text| && text[i] in marks { SkipInStops(text, marks, i + 1); }
  }

  lemma SkipSpaceSpaces(cl: Classes, text: string, i: nat)
    requires i <= |text|
    ensures var r := SkipSpace(cl, text, i); Spaces(cl, text, i, r) && (r < |text| ==> !cl.space(text[r]))
  {
    SkipSpaceStops(cl, text, i);
    var r := SkipSpace(cl, text, i);
    forall k | i <= k < r ensures cl.space(text[k]) { assert text[i..r][k - i] == text[k]; }
  }

  /** The end of a sentence that a mark ends. */
  lemma MarkCloses(cl: Classes, text: string, i: nat) returns (m: nat, n: nat)
    requires i < |text| && EndsSentence(cl, text, i) && Stops(cl, text, i)
    ensures ClosesAt(cl, text, i + 1, m, n, StopEnd(cl, text, i))
  {
    TerminatesMeans(cl, text, i);
    m := SkipIn(text, TERMINATORS, i + 1);
    n := SkipIn(text, CLOSING_MARKS, m);
    SkipInStops(text, TERMINATORS, i + 1);
    SkipInStops(text, CLOSING_MARKS, m);
    SkipSpaceSpaces(cl, text, n);
    forall k | 0 <= k < |text|
      ensures (text[k] in TERMINATORS <==> SentenceMark(text[k]))
          && (text[k] in CLOSING_MARKS <==> ClosingMark(text[k]))
    {
      Marks(text[k]);
    }
  }

  /** The end of a sentence that a blank line ends. */
  lemma BlankLineCloses(cl: Classes, text: string, i: nat)
    requires RealSpace(cl) && i < |text| && !EndsSentence(cl, text, i) && Stops(cl, text, i)
    ensures BlankLine(text, i)
    ensures var end := StopEnd(cl, text, i); Spaces(cl, text, i, end) && (end < |text| ==> !cl.space(text[end]))
  {
    TerminatesMeans(cl, text, i);
    BlankLineMeans(text, i);
    SkipSpaceSpaces(cl, text, BlankLineEnd(text, i));
  }

  /** After a mark that ends a sentence, whatever else would end one says the same. */
  lemma ClosesAgain(cl: Classes, text: string, i: nat, m: nat, n: nat, end: nat, p: nat)
    requires RealSpace(cl) && ClosesAt(cl, text, i, m, n, end) && i <= p < end
    ensures EndsSentence(cl, text, p) ==> Closes(cl, text, p + 1, end)
    ensures BlankLine(text, p) ==> Spaces(cl, text, p, end)
  {
    if EndsSentence(cl, text, p) {
      assert p < m;
      assert ClosesAt(cl, text, p + 1, m, n, end);
    }
  }

  /** Up to i nothing ends the sentence that began at start. */
  ghost predicate Open(cl: Classes, text: string, start: nat, i: nat)
    requires i <= |text|
  {
    forall p: nat :: start <= p < i ==> !Breaks(cl, text, start, p)
  }

  lemma MarkEndsRight(cl: Classes, text: string, start: nat, i: nat)
    requires RealSpace(cl) && start <= i < |text| && Open(cl, text, start, i)
    requires EndsSentence(cl, text, i) && Stops(cl, text, i)
    ensures RightSpan(cl, text, Span(start, StopEnd(cl, text, i)))
  {
    var end := StopEnd(cl, text, i);
    var m, n := MarkCloses(cl, text, i);
    forall p: nat | start <= p < end
      ensures EndsSentence(cl, text, p) ==> Closes(cl, text, p + 1, end)
      ensures BlankLine(text, p) && !Spaces(cl, text, start, p) ==> Spaces(cl, text, p, end)
    {
      if p < i { assert !Breaks(cl, text, start, p); } else if p > i { ClosesAgain(cl, text, i + 1, m, n, end, p); }
    }
    assert Breaks(cl, text, start, i);
  }

  lemma BlankLineEndsRight(cl: Classes, text: string, start: nat, i: nat)
    requires RealSpace(cl) && start <= i < |text| && Open(cl, text, start, i)
    requires !EndsSentence(cl, text, i) && Stops(cl, text, i) && !Spaces(cl, text, start, i)
    ensures RightSpan(cl, text, Span(start, StopEnd(cl, text, i)))
  {
    var end := StopEnd(cl, text, i);
    BlankLineCloses(cl, text, i);
    forall p: nat | start <= p < end
      ensures !EndsSentence(cl, text, p)
      ensures BlankLine(text, p) && !Spaces(cl, text, start, p) ==> Spaces(cl, text, p, end)
    {
      if p < i { assert !Breaks(cl, text, start, p); }
    }
    assert Breaks(cl, text, start, i);
  }

  lemma LastSpanRight(cl: Classes, text: string, start: nat)
    requires start <= |text| && Open(cl, text, start, |text|)
    ensures RightSpan(cl, text, Span(start, |text|))
  {
    forall p: nat | start <= p < |text|
      ensures !EndsSentence(cl, text, p) && (BlankLine(text, p) ==> Spaces(cl, text, start, p))
    {
      assert !Breaks(cl, text, start, p);
    }
  }

  lemma OpenMore(cl: Classes, text: string, start: nat, i: nat)
    requires start <= i < |text| && Open(cl, text, start, i) && !Stops(cl, text, i)
    ensures Open(cl, text, start, i + 1)
  {
    TerminatesMeans(cl, text, i);
    BlankLineMeans(text, i);
  }

  lemma OpenBlank(cl: Classes, text: string, start: nat, i: nat)
    requires RealSpace(cl) && start <= i < |text| && Stops(cl, text, i)
    requires Blank(cl, text[start..StopEnd(cl, text, i)])
    ensures Open(cl, text, start, StopEnd(cl, text, i))
  {
    var end := StopEnd(cl, text, i);
    forall p: nat | start <= p < end ensures cl.space(text[p]) { assert text[start..end][p - start] == text[p]; }
  }

  lemma VisibleBefore(cl: Classes, text: string, start: nat, i: nat, end: nat)
    requires start <= i <= end <= |text| && Spaces(cl, text, i, end) && !Blank(cl, text[start..end])
    ensures !Spaces(cl, text, start, i)
  {
    var k :| 0 <= k < end - start && !cl.space(text[start..end][k]);
    assert text[start..end][k] == text[start + k];
  }

  lemma StopEndsRight(cl: Classes, text: string, start: nat, i: nat)
    requires RealSpace(cl) && start <= i < |text| && Open(cl, text, start, i) && Stops(cl, text, i)
    requires !Blank(cl, text[start..StopEnd(cl, text, i)])
    ensures RightSpan(cl, text, Span(start, StopEnd(cl, text, i)))
  {
    if EndsSentence(cl, text, i) {
      MarkEndsRight(cl, text, start, i);
    } else {
      BlankLineCloses(cl, text, i);
      VisibleBefore(cl, text, start, i, StopEnd(cl, text, i));
      BlankLineEndsRight(cl, text, start, i);
    }
  }

  lemma {:induction false} SpansFromRight(cl: Classes, text: string, start: nat, i: nat)
    requires RealSpace(cl) && start <= i <= |text| && Open(cl, text, start, i)
    ensures RightSpans(cl, text, SpansFrom(cl, text, start, i))
    decreases |text| - i
  {
    if i == |text| {
      LastSpanRight(cl, text, start);
    } else if !Stops(cl, text, i) {
      OpenMore(cl, text, start, i);
      SpansFromRight(cl, text, start, i + 1);
    } else {
      var end := StopEnd(cl, text, i);
      if Blank(cl, text[start..end]) {
        OpenBlank(cl, text, start, i);
        SpansFromRight(cl, text, start, end);
      } else {
        StopEndsRight(cl, text, start, i);
        SpansFromRight(cl, text, end, end);
      }
    }
  }

  /** Every sentence ends where it must, and nowhere else. */
  lemma SentencesEndRight(cl: Classes, text: string)
    requires RealSpace(cl)
    ensures RightSpans(cl, text, SentenceSpans(cl, text))
  {
    SpansFromRight(cl, text, 0, 0);
    SpansFromTile(cl, text, 0, 0);
    if text == "" { LastSpanRight(cl, text, 0); }
  }

  /** In particular no sentence but the last ends right behind a single period that a number, a name or an abbreviation
      needs. */
  lemma NoCutBehindOpenPeriod(cl: Classes, text: string, s: Span)
    requires RealSpace(cl) && s in SentenceSpans(cl, text) && s.end < |text| && s.start < s.end
    requires text[s.end - 1] == '.' && (s.start < s.end - 1 ==> !SentenceMark(text[s.end - 2]))
    ensures !StaysOpen(cl, text, s.end - 1)
  {
    SentencesEndRight(cl, text);
    assert RightSpan(cl, text, s);
    var i: nat :| s.start <= i < s.end && Breaks(cl, text, s.start, i);
    assert SentenceMark(text[s.end - 1]);
    assert EndsSentence(cl, text, i);
    var m: nat, n: nat :| ClosesAt(cl, text, i + 1, m, n, s.end);
    assert i == s.end - 1;
  }

  // ----- Lexical positions -----

  /** A character that counts: not a space, and not formatting unless it separates digits or letters. */
  predicate Lexical(cl: Classes, text: string, i: nat)
    requires i < |text|
  {
    var c := text[i];
    var significant :=
      || (c == '.' && i + 1 < |text| && cl.decimal(text[i + 1]))
      || (c in ",:" && i > 0 && i + 1 < |text| && cl.digit(text[i - 1]) && cl.digit(text[i + 1]))
      || (c in "'’" && i > 0 && i + 1 < |text| && cl.alnum(text[i - 1]) && cl.alnum(text[i + 1]));
    !cl.space(c) && (c !in FORMATTING_MARKS || significant)
  }

  function LexicalBefore(cl: Classes, text: string, n: nat): (r: seq<nat>)
    requires n <= |text|
    ensures forall k :: 0 <= k < |r| ==> r[k] < n
  {
    if n == 0 then [] else LexicalBefore(cl, text, n - 1) + if Lexical(cl, text, n - 1) then [n - 1] else []
  }

  function LexicalPositions(cl: Classes, text: string): (r: seq<nat>)
    ensures forall k :: 0 <= k < |r| ==> r[k] < |text|
  {
    LexicalBefore(cl, text, |text|)
  }

  /** The lexical positions are all of them, in order. */
  lemma {:induction false} LexicalPositionsSorted(cl: Classes, text: string, n: nat)
    requires n <= |text|
    ensures var r := LexicalBefore(cl, text, n);
            && (forall j, k :: 0 <= j < k < |r| ==> r[j] < r[k])
            && (forall i :: 0 <= i < n ==> (i in r <==> Lexical(cl, text, i)))
  {
    if n > 0 {
      LexicalPositionsSorted(cl, text, n - 1);
    }
  }

  /** The lexical characters themselves. */
  function Content(cl: Classes, text: string): (r: string)
    ensures |r| == |LexicalPositions(cl, text)|
  {
    var p := LexicalPositions(cl, text);
    seq(|p|, k requires 0 <= k < |p| => text[p[k]])
  }

  // ----- The backend's loops -----

  method PeriodBoundary(cl: Classes, text: string, index: nat) returns (r: bool)
    requires index < |text|
    ensures r == PeriodEnds(cl, text, index)
  {
    if index + 1 < |text| && cl.decimal(text[index + 1]) { return false; }
    if index > 0 && index + 1 < |text| && AsciiAlnum(text[index - 1]) && AsciiAlnum(text[index + 1]) { return false; }
    var start := index;
    while start > 0 && (AsciiAlpha(text[start - 1]) || text[start - 1] == '.')
      invariant 0 <= start <= index && WordStart(text, start) == WordStart(text, index)
    {
      start := start - 1;
    }
    var word := text[start..index + 1];
    if LowerAll(word[..|word| - 1]) in ABBREVIATIONS || Initials(word) { return false; }
    if SingleInitial(word) {
      var nextIndex := index + 1;
      while nextIndex < |text| && cl.space(text[nextIndex])
        invariant index < nextIndex <= |text| && SkipSpace(cl, text, nextIndex) == SkipSpace(cl, text, index + 1)
      {
        nextIndex := nextIndex + 1;
      }
      return !(nextIndex < |text| && AsciiUpper(text[nextIndex]));
    }
    return true;
  }

  /** Past the marks in a row. */
  method SkipMarks(text: string, marks: string, start: nat) returns (end: nat)
    requires start <= |text|
    ensures end == SkipIn(text, marks, start)
  {
    end := start;
    while end < |text| && text[end] in marks
      invariant start <= end <= |text| && SkipIn(text, marks, end) == SkipIn(text, marks, start)
    {
      end := end + 1;
    }
  }

  method EndOfSentence(cl: Classes, text: string, index: nat, boundary: bool, blankLine: bool) returns (end: nat)
    requires index < |text| && boundary == Terminates(cl, text, index) && blankLine == BlankLineAt(text, index)
    requires boundary || blankLine
    ensures end == StopEnd(cl, text, index)
  {
    end := if blankLine then BlankLineEnd(text, index) else index + 1;
    if boundary {
      end := SkipMarks(text, TERMINATORS, end);
      end := SkipMarks(text, CLOSING_MARKS, end);
    }
    ghost var marks := end;
    while end < |text| && cl.space(text[end])
      invariant marks <= end <= |text| && SkipSpace(cl, text, end) == SkipSpace(cl, text, marks)
    {
      end := end + 1;
    }
  }

  /** A sentence found goes from what is still to come to what was found. */
  lemma SpanFound(cl: Classes, text: string, found: seq<Span>, start: nat, index: nat, end: nat)
    requires start <= index < |text| && Stops(cl, text, index) && end == StopEnd(cl, text, index)
    ensures index < end <= |text|
    ensures !Blank(cl, text[start..end]) ==>
      found + SpansFrom(cl, text, start, index) == found + [Span(start, end)] + SpansFrom(cl, text, end, end)
    ensures Blank(cl, text[start..end]) ==> SpansFrom(cl, text, start, index) == SpansFrom(cl, text, start, end)
  {
    if !Blank(cl, text[start..end]) {
      assert SpansFrom(cl, text, start, index) == [Span(start, end)] + SpansFrom(cl, text, end, end);
      assert found + ([Span(start, end)] + SpansFrom(cl, text, end, end)) == found + [Span(start, end)]
          + SpansFrom(cl, text, end, end);
    }
  }

  method Spans(cl: Classes, text: string) returns (spans: seq<Span>)
    ensures spans == SentenceSpans(cl, text)
    ensures RealSpace(cl) ==> RightSpans(cl, text, spans)
  {
    if RealSpace(cl) { SentencesEndRight(cl, text); }
    spans := [];
    var start, index := 0, 0;
    while index < |text|
      invariant start <= index <= |text|
      invariant SpansFrom(cl, text, 0, 0) == spans + SpansFrom(cl, text, start, index)
      invariant spans == [] ==> start == 0
      decreases |text| - index
    {
      var blankLine := text[index] == '\n' && BlankLineAt(text, index);
      var boundary := text[index] in TERMINATORS;
      if boundary && text[index] == '.' {
        boundary := PeriodBoundary(cl, text, index);
      }
      if !boundary && !blankLine {
        index := index + 1;
        continue;
      }
      var end := EndOfSentence(cl, text, index, boundary, blankLine);
      SpanFound(cl, text, spans, start, index, end);
      if !Blank(cl, text[start..end]) {
        spans := spans + [Span(start, end)];
        start := end;
      }
      index := end;
    }
    if start < |text| || spans == [] {
      spans := spans + [Span(start, |text|)];
    }
  }

  method Positions(cl: Classes, text: string) returns (result: seq<nat>)
    ensures result == LexicalPositions(cl, text)
  {
    result := [];
    for index := 0 to |text|
      invariant result == LexicalBefore(cl, text, index)
    {
      if Lexical(cl, text, index) {
        result := result + [index];
      }
    }
  }
}
