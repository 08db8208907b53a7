/** Aligning the words of a timed phrase with its text, and splitting it at the sentence ends that complete word
    evidence supports. */
module Mai {
  import opened Common
  import opened CharacterClasses
  import opened Sentences
  import opened WordTimes

  datatype Phrase = Phrase(text: string, start: int, end: int, language: string, speaker: Option<string>, timed: bool,
                           words: seq<Word>)

  function Joined(words: seq<Word>): string {
    if words == [] then "" else Joined(words[..|words| - 1]) + words[|words| - 1].text
  }

  lemma {:induction false} JoinedConcat(a: seq<Word>, b: seq<Word>)
    ensures Joined(a + b) == Joined(a) + Joined(b)
  {
    if b == [] {
      assert a + b == a;
    } else {
      assert (a + b)[..|a + b| - 1] == a + b[..|b| - 1];
      JoinedConcat(a, b[..|b| - 1]);
    }
  }

  // ----- Aligning words with the text -----

  /** A word found at text[from..to], with its times. */
  datatype Aligned = Aligned(from: nat, to: nat, start: int, end: int)

  datatype Scan = Scan(cursor: nat, rawCursor: nat, previousEnd: int, aligned: seq<Aligned>)

  /** The first place at or after lo where sub occurs and ends by hi. */
  function Find(text: string, sub: string, lo: nat, hi: nat): (r: Option<nat>)
    requires hi <= |text|
    ensures r.Some? ==> lo <= r.value && r.value + |sub| <= hi && text[r.value..r.value + |sub|] == sub
    decreases hi - lo
  {
    if lo + |sub| > hi then None
    else if text[lo..lo + |sub|] == sub then Some(lo)
    else if lo < hi then Find(text, sub, lo + 1, hi)
    else None
  }

  function GapEnd(cl: Classes, text: string, cursor: nat): (r: nat)
    ensures r <= |text|
  {
    var p := LexicalPositions(cl, text);
    if cursor < |p| then p[cursor] else |text|
  }

  /** One more repaired word: it must carry text and a duration in order, and its lexical characters must
      be the next ones of the text. Punctuation timed on its own is placed if it occurs in the gap. */
  function AlignOne(cl: Classes, text: string, f: Frame, s: Scan, w: Word): Option<Scan> {
    var positions, content, token := LexicalPositions(cl, text), Content(cl, text), Content(cl, w.text);
    var n := |token|;
    if Blank(cl, w.text) || w.start < s.previousEnd || w.start >= w.end
        || (f.timed && (w.start < f.start || w.end > f.end)) then None
    else if n == 0 then
      var mark := Strip(cl, w.text);
      match Find(text, mark, s.rawCursor, GapEnd(cl, text, s.cursor))
      case None => Some(s.(previousEnd := w.end))
      case Some(at) => Some(Scan(s.cursor, at + |mark|, w.end, s.aligned + [Aligned(at, at + |mark|, w.start, w.end)]))
    else if s.cursor + n > |content| || content[s.cursor..s.cursor + n] != token then None
    else
      var from, to := positions[s.cursor], positions[s.cursor + n - 1] + 1;
      Some(Scan(s.cursor + n, to, w.end, s.aligned + [Aligned(from, to, w.start, w.end)]))
  }

  function AlignAll(cl: Classes, text: string, f: Frame, words: seq<Word>): Option<Scan> {
    if words == [] then Some(Scan(0, 0, -1, []))
    else
      match AlignAll(cl, text, f, words[..|words| - 1])
      case None => None
      case Some(s) => AlignOne(cl, text, f, s, words[|words| - 1])
  }

  /** Aligned words are in the order of the text and of time, without overlap in either. */
  predicate AlignedInOrder(text: string, aligned: seq<Aligned>) {
    && (forall k :: 0 <= k < |aligned| ==>
        aligned[k].from < aligned[k].to <= |text| && aligned[k].start < aligned[k].end)
    && (forall j, k :: 0 <= j < k < |aligned| ==>
        aligned[j].to <= aligned[k].from && aligned[j].end <= aligned[k].start)
  }

  predicate ScanInv(cl: Classes, text: string, s: Scan) {
    && s.cursor <= |LexicalPositions(cl, text)|
    && s.rawCursor <= GapEnd(cl, text, s.cursor)
    && AlignedInOrder(text, s.aligned)
    && (s.aligned != [] ==>
        s.aligned[|s.aligned| - 1].to <= s.rawCursor && s.aligned[|s.aligned| - 1].end <= s.previousEnd)
  }

  lemma AppendAligned(text: string, aligned: seq<Aligned>, a: Aligned)
    requires AlignedInOrder(text, aligned) && a.from < a.to <= |text| && a.start < a.end
    requires aligned != [] ==> aligned[|aligned| - 1].to <= a.from && aligned[|aligned| - 1].end <= a.start
    ensures AlignedInOrder(text, aligned + [a])
  {
    var r := aligned + [a];
    forall j, k | 0 <= j < k < |r| ensures r[j].to <= r[k].from && r[j].end <= r[k].start {
      if k == |aligned| && j < |aligned| - 1 {
        assert aligned[j].to <= aligned[|aligned| - 1].from && aligned[j].end <= aligned[|aligned| - 1].start;
      }
    }
  }

  lemma StripNonBlank(cl: Classes, s: string)
    requires !Blank(cl, s)
    ensures Strip(cl, s) != []
  {
    SkipSpaceStops(cl, s, 0);
    TrimmedEndStops(cl, s, |s|);
    if SkipSpace(cl, s, 0) >= TrimmedEnd(cl, s, |s|) {
      AllBlank(cl, s, SkipSpace(cl, s, 0), TrimmedEnd(cl, s, |s|));
    }
  }

  lemma AlignMarkKeeps(cl: Classes, text: string, f: Frame, s: Scan, w: Word)
    requires ScanInv(cl, text, s) && AlignOne(cl, text, f, s, w).Some? && Content(cl, w.text) == []
    ensures ScanInv(cl, text, AlignOne(cl, text, f, s, w).value)
  {
    var mark := Strip(cl, w.text);
    StripNonBlank(cl, w.text);
    var next := AlignOne(cl, text, f, s, w).value;
    match Find(text, mark, s.rawCursor, GapEnd(cl, text, s.cursor))
    case None => assert next == s.(previousEnd := w.end);
    case Some(at) =>
      var a := Aligned(at, at + |mark|, w.start, w.end);
      assert next == Scan(s.cursor, a.to, w.end, s.aligned + [a]);
      AppendAligned(text, s.aligned, a);
  }

  /** The n lexical characters from the cursor lie in the text before the next one. */
  lemma LexicalRange(cl: Classes, text: string, cursor: nat, n: nat)
    requires n > 0 && cursor + n <= |LexicalPositions(cl, text)|
    ensures var p := LexicalPositions(cl, text);
            p[cursor] == GapEnd(cl, text, cursor) < p[cursor + n - 1] + 1 <= GapEnd(cl, text, cursor + n)
  {
    LexicalPositionsSorted(cl, text, |text|);
  }

  lemma AlignContentKeeps(cl: Classes, text: string, f: Frame, s: Scan, w: Word)
    requires ScanInv(cl, text, s) && AlignOne(cl, text, f, s, w).Some? && Content(cl, w.text) != []
    ensures ScanInv(cl, text, AlignOne(cl, text, f, s, w).value)
  {
    var positions, n := LexicalPositions(cl, text), |Content(cl, w.text)|;
    LexicalRange(cl, text, s.cursor, n);
    AppendAligned(text, s.aligned, Aligned(positions[s.cursor], positions[s.cursor + n - 1] + 1, w.start, w.end));
  }

  lemma AlignOneKeeps(cl: Classes, text: string, f: Frame, s: Scan, w: Word)
    requires ScanInv(cl, text, s) && AlignOne(cl, text, f, s, w).Some?
    ensures ScanInv(cl, text, AlignOne(cl, text, f, s, w).value)
  {
    if Content(cl, w.text) == [] {
      AlignMarkKeeps(cl, text, f, s, w);
    } else {
      AlignContentKeeps(cl, text, f, s, w);
    }
  }

  lemma {:induction false} AlignAllKeeps(cl: Classes, text: string, f: Frame, words: seq<Word>)
    ensures AlignAll(cl, text, f, words).Some? ==> ScanInv(cl, text, AlignAll(cl, text, f, words).value)
  {
    if words != [] {
      AlignAllKeeps(cl, text, f, words[..|words| - 1]);
      match AlignAll(cl, text, f, words[..|words| - 1])
      case None =>
      case Some(s) =>
        if AlignOne(cl, text, f, s, words[|words| - 1]).Some? {
          AlignOneKeeps(cl, text, f, s, words[|words| - 1]);
        }
    }
  }

  /** The aligned words when every lexical character is accounted for, and None when evidence is missing. */
  function Evidence(cl: Classes, phrase: Phrase): Option<seq<Aligned>> {
    var f := Frame(phrase.start, phrase.end, phrase.timed);
    match AlignAll(cl, phrase.text, f, Repaired(phrase.words, f))
    case None => None
    case Some(s) =>
      if s.cursor != |LexicalPositions(cl, phrase.text)| || s.aligned == [] then None else Some(s.aligned)
  }

  // ----- When evidence is complete -----

  /** What the words say: their lexical characters, word by word. */
  function SaidBy(cl: Classes, words: seq<Word>): string {
    if words == [] then "" else SaidBy(cl, words[..|words| - 1]) + Content(cl, words[|words| - 1].text)
  }

  /** Word k has text and a duration, comes after the one before it, and is inside a timed phrase. */
  predicate WordSound(cl: Classes, f: Frame, words: seq<Word>, k: nat)
    requires k < |words|
  {
    var w := words[k];
    && (exists i :: 0 <= i < |w.text| && !cl.space(w.text[i]))
    && w.start < w.end && (if k == 0 then -1 else words[k - 1].end) <= w.start
    && (f.timed ==> f.start <= w.start && w.end <= f.end)
  }

  predicate WordsSound(cl: Classes, f: Frame, words: seq<Word>) {
    forall k: nat :: k < |words| ==> WordSound(cl, f, words, k)
  }

  predicate OccursAt(text: string, mark: string, at: nat) {
    at + |mark| <= |text| && text[at..at + |mark|] == mark
  }

  /** The mark is nowhere in the text from lo to hi. */
  predicate Nowhere(text: string, mark: string, lo: nat, hi: nat) {
    forall at: nat :: lo <= at && at + |mark| <= hi ==> !OccursAt(text, mark, at)
  }

  /** The first place in the text from lo to hi where the mark is. */
  predicate FirstAt(text: string, mark: string, lo: nat, hi: nat, at: nat) {
    && lo <= at && at + |mark| <= hi && OccursAt(text, mark, at)
    && forall before: nat :: lo <= before < at ==> !OccursAt(text, mark, before)
  }

  lemma {:induction false} FindMeans(text: string, mark: string, lo: nat, hi: nat)
    requires hi <= |text|
    ensures Find(text, mark, lo, hi).None? ==> Nowhere(text, mark, lo, hi)
    ensures Find(text, mark, lo, hi).Some? ==> FirstAt(text, mark, lo, hi, Find(text, mark, lo, hi).value)
    decreases hi - lo
  {
    if lo + |mark| > hi {
    } else if text[lo..lo + |mark|] == mark {
      assert OccursAt(text, mark, lo);
    } else if lo < hi {
      FindMeans(text, mark, lo + 1, hi);
      assert !OccursAt(text, mark, lo);
    }
  }

  lemma SoundStep(cl: Classes, f: Frame, words: seq<Word>, n: nat)
    requires n == |words| - 1
    ensures WordsSound(cl, f, words) <==> WordsSound(cl, f, words[..n]) && WordSound(cl, f, words, n)
  {
    var front := words[..n];
    if WordsSound(cl, f, words) {
      forall k: nat | k < n ensures WordSound(cl, f, front, k) { assert WordSound(cl, f, words, k); }
    }
    if WordsSound(cl, f, front) && WordSound(cl, f, words, n) {
      forall k: nat | k < |words| ensures WordSound(cl, f, words, k) {
        if k < n { assert WordSound(cl, f, front, k); }
      }
    }
  }

  predicate Begins(a: string, b: string) { |a| <= |b| && a == b[..|a|] }

  lemma BeginsStep(a: string, b: string, whole: string)
    requires Begins(a, whole)
    ensures Begins(a + b, whole) <==> |a| + |b| <= |whole| && whole[|a|..|a| + |b|] == b
  {
    if |a| + |b| <= |whole| { assert whole[..|a| + |b|] == whole[..|a|] + whole[|a|..|a| + |b|]; }
  }

  /** One more word can be aligned exactly when it is sound and says what comes next in the text. */
  lemma AlignOneIff(cl: Classes, text: string, f: Frame, s: Scan, words: seq<Word>, n: nat, said: string)
    requires n == |words| - 1 && s.previousEnd == (if n == 0 then -1 else words[n - 1].end)
    requires s.cursor == |said| && Begins(said, Content(cl, text))
    ensures AlignOne(cl, text, f, s, words[n]).Some? <==>
        WordSound(cl, f, words, n) && Begins(said + Content(cl, words[n].text), Content(cl, text))
    ensures AlignOne(cl, text, f, s, words[n]).Some? ==>
        AlignOne(cl, text, f, s, words[n]).value.cursor == |said + Content(cl, words[n].text)|
        && AlignOne(cl, text, f, s, words[n]).value.previousEnd == words[n].end
  {
    BeginsStep(said, Content(cl, words[n].text), Content(cl, text));
  }

  /** All words can be aligned exactly when they are sound and what they say is how the text begins. */
  lemma {:induction false} AlignAllIff(cl: Classes, text: string, f: Frame, words: seq<Word>)
    ensures AlignAll(cl, text, f, words).Some? <==>
        WordsSound(cl, f, words) && Begins(SaidBy(cl, words), Content(cl, text))
    ensures AlignAll(cl, text, f, words).Some? ==>
      var s := AlignAll(cl, text, f, words).value;
      && s.cursor == |SaidBy(cl, words)|
      && s.previousEnd == if words == [] then -1 else words[|words| - 1].end
  {
    if words != [] {
      var n := |words| - 1;
      var front := words[..n];
      AlignAllIff(cl, text, f, front);
      SoundStep(cl, f, words, n);
      match AlignAll(cl, text, f, front)
      case None =>
      case Some(s) => AlignOneIff(cl, text, f, s, words, n, SaidBy(cl, front));
    }
  }

  /** Where the lexical character number c of the text is; behind them all is the end of the text. */
  predicate NthLexical(cl: Classes, text: string, c: nat, at: nat) {
    if at < |text| then Lexical(cl, text, at) && |LexicalBefore(cl, text, at)| == c
    else at == |text| && |LexicalBefore(cl, text, at)| <= c
  }

  /** Word k and where it is: from the first to the last of its lexical characters, which come right after those of the
      words before; or, if it has none, the first place where its mark is in the gap before the next of them. */
  ghost predicate PlacedRight(cl: Classes, text: string, words: seq<Word>, k: nat, lo: nat, a: Aligned)
    requires k < |words|
  {
    var w, c := words[k], |SaidBy(cl, words[..k])|;
    && a.start == w.start && a.end == w.end && lo <= a.from
    && if Content(cl, w.text) == ""
       then exists gap: nat :: NthLexical(cl, text, c, gap) && FirstAt(text, Strip(cl, w.text), lo, gap, a.from)
                               && a.to == a.from + |Strip(cl, w.text)|
       else NthLexical(cl, text, c, a.from) && a.to > 0 && NthLexical(cl, text, c + |Content(cl, w.text)| - 1, a.to - 1)
  }

  /** Word k is left out: it has no lexical characters, and its mark is not in the gap. */
  ghost predicate LeftOut(cl: Classes, text: string, words: seq<Word>, k: nat, lo: nat)
    requires k < |words|
  {
    && Content(cl, words[k].text) == ""
    && exists gap: nat :: NthLexical(cl, text, |SaidBy(cl, words[..k])|, gap)
                          && Nowhere(text, Strip(cl, words[k].text), lo, gap)
  }

  /** Which words are aligned: in order, each where it belongs, the others left out. */
  ghost predicate AlignedRight(cl: Classes, text: string, words: seq<Word>, aligned: seq<Aligned>, from: seq<nat>) {
    && |from| == |aligned| && Rising(from, |words|)
    && AllPlaced(cl, text, words, aligned, from) && OthersLeftOut(cl, text, words, aligned, from)
  }

  ghost predicate AllPlaced(cl: Classes, text: string, words: seq<Word>, aligned: seq<Aligned>, from: seq<nat>)
    requires |from| == |aligned| && Rising(from, |words|)
  {
    forall i: nat :: i < |from| ==> PlacedAt(cl, text, words, aligned, from, i)
  }

  ghost predicate PlacedAt(cl: Classes, text: string, words: seq<Word>, aligned: seq<Aligned>, from: seq<nat>, i: nat)
    requires i < |from| == |aligned| && from[i] < |words|
  {
    PlacedRight(cl, text, words, from[i], EndBefore(aligned, i), aligned[i])
  }

  predicate Rising(from: seq<nat>, n: nat) {
    (forall i :: 0 <= i < |from| ==> from[i] < n) && forall i, j :: 0 <= i < j < |from| ==> from[i] < from[j]
  }

  ghost predicate OthersLeftOut(cl: Classes, text: string, words: seq<Word>, aligned: seq<Aligned>, from: seq<nat>) {
    forall k: nat, i: nat :: k < |words| && Skips(from, k, i) ==> LeftOut(cl, text, words, k, EndBefore(aligned, i))
  }

  function EndBefore(aligned: seq<Aligned>, i: nat): nat { if 0 < i <= |aligned| then aligned[i - 1].to else 0 }

  /** Word k is not aligned, and i of those before it are. */
  predicate Skips(from: seq<nat>, k: nat, i: nat) {
    i <= |from| && (i > 0 ==> from[i - 1] < k) && (i < |from| ==> k < from[i])
  }

  lemma {:induction false} NthLexicalIs(cl: Classes, text: string, n: nat, c: nat)
    requires n <= |text| && c < |LexicalBefore(cl, text, n)|
    ensures NthLexical(cl, text, c, LexicalBefore(cl, text, n)[c])
  {
    if c < |LexicalBefore(cl, text, n - 1)| { NthLexicalIs(cl, text, n - 1, c); }
  }

  lemma GapEndAt(cl: Classes, text: string, c: nat)
    ensures NthLexical(cl, text, c, GapEnd(cl, text, c))
  {
    if c < |LexicalPositions(cl, text)| { NthLexicalIs(cl, text, |text|, c); }
  }

  lemma PlacedMore(cl: Classes, text: string, words: seq<Word>, more: seq<Word>, k: nat, lo: nat, a: Aligned)
    requires k < |words| <= |more| && more[..|words|] == words
    ensures PlacedRight(cl, text, words, k, lo, a) ==> PlacedRight(cl, text, more, k, lo, a)
    ensures LeftOut(cl, text, words, k, lo) ==> LeftOut(cl, text, more, k, lo)
  {
    assert more[..k] == words[..k] && more[k] == words[k];
  }

  /** A word that is aligned next. */
  lemma AlignedRightMore(cl: Classes, text: string, words: seq<Word>, front: seq<Word>, aligned: seq<Aligned>,
                         from: seq<nat>, a: Aligned)
    requires words != [] && front == words[..|words| - 1] && AlignedRight(cl, text, front, aligned, from)
    requires PlacedRight(cl, text, words, |front|, EndBefore(aligned, |aligned|), a)
    ensures AlignedRight(cl, text, words, aligned + [a], from + [|front|])
  {
    AllPlacedMore(cl, text, words, front, aligned, from, a);
    OthersMore(cl, text, words, front, aligned, from, a);
  }

  lemma AllPlacedMore(cl: Classes, text: string, words: seq<Word>, front: seq<Word>, aligned: seq<Aligned>,
                      from: seq<nat>, a: Aligned)
    requires words != [] && front == words[..|words| - 1] && |from| == |aligned| && Rising(from, |front|)
    requires AllPlaced(cl, text, front, aligned, from)
    requires PlacedRight(cl, text, words, |front|, EndBefore(aligned, |aligned|), a)
    ensures Rising(from + [|front|], |words|) && AllPlaced(cl, text, words, aligned + [a], from + [|front|])
  {
    var all, froms := aligned + [a], from + [|front|];
    forall i: nat | i < |froms| ensures PlacedAt(cl, text, words, all, froms, i) {
      if i < |from| {
        assert PlacedAt(cl, text, front, aligned, from, i);
        PlacedAtMore(cl, text, words, front, aligned, from, a, |front|, i);
      } else {
        PlacedAtLast(cl, text, words, aligned, from, a, |front|);
      }
    }
  }

  lemma PlacedAtMore(cl: Classes, text: string, words: seq<Word>, front: seq<Word>, aligned: seq<Aligned>,
                     from: seq<nat>, a: Aligned, n: nat, i: nat)
    requires words != [] && front == words[..|words| - 1] && i < |from| == |aligned| && from[i] < |front|
    requires PlacedAt(cl, text, front, aligned, from, i)
    ensures PlacedAt(cl, text, words, aligned + [a], from + [n], i)
  {
    assert EndBefore(aligned + [a], i) == EndBefore(aligned, i);
    PlacedMore(cl, text, front, words, from[i], EndBefore(aligned, i), aligned[i]);
  }

  lemma PlacedAtLast(cl: Classes, text: string, words: seq<Word>, aligned: seq<Aligned>, from: seq<nat>, a: Aligned,
                     n: nat)
    requires |from| == |aligned| && n < |words| && PlacedRight(cl, text, words, n, EndBefore(aligned, |aligned|), a)
    ensures PlacedAt(cl, text, words, aligned + [a], from + [n], |from|)
  {
    assert EndBefore(aligned + [a], |aligned|) == EndBefore(aligned, |aligned|);
  }

  lemma OthersMore(cl: Classes, text: string, words: seq<Word>, front: seq<Word>, aligned: seq<Aligned>,
                   from: seq<nat>, a: Aligned)
    requires words != [] && front == words[..|words| - 1] && |from| == |aligned| && Rising(from, |front|)
    requires OthersLeftOut(cl, text, front, aligned, from)
    ensures OthersLeftOut(cl, text, words, aligned + [a], from + [|front|])
  {
    var all, froms := aligned + [a], from + [|front|];
    forall k: nat, i: nat | k < |words| && Skips(froms, k, i) ensures LeftOut(cl, text, words, k, EndBefore(all, i)) {
      assert froms[|from|] == |front|;
      SkipsBefore(from, |front|, k, i);
      assert EndBefore(all, i) == EndBefore(aligned, i);
      PlacedMore(cl, text, front, words, k, EndBefore(aligned, i), a);
    }
  }

  lemma SkipsBefore(from: seq<nat>, n: nat, k: nat, i: nat)
    requires Skips(from + [n], k, i) && k <= n && Rising(from, n)
    ensures Skips(from, k, i) && k < n
  {
    assert (from + [n])[|from|] == n;
  }

  /** A word that is left out next. */
  lemma AlignedRightSkip(cl: Classes, text: string, words: seq<Word>, front: seq<Word>, aligned: seq<Aligned>,
                         from: seq<nat>)
    requires words != [] && front == words[..|words| - 1] && AlignedRight(cl, text, front, aligned, from)
    requires LeftOut(cl, text, words, |front|, EndBefore(aligned, |aligned|))
    ensures AlignedRight(cl, text, words, aligned, from)
  {
    AllPlacedSkip(cl, text, words, front, aligned, from);
    OthersSkip(cl, text, words, front, aligned, from);
  }

  lemma AllPlacedSkip(cl: Classes, text: string, words: seq<Word>, front: seq<Word>, aligned: seq<Aligned>,
                      from: seq<nat>)
    requires words != [] && front == words[..|words| - 1] && |from| == |aligned| && Rising(from, |front|)
    requires AllPlaced(cl, text, front, aligned, from)
    ensures Rising(from, |words|) && AllPlaced(cl, text, words, aligned, from)
  {
    forall i: nat | i < |from| ensures PlacedAt(cl, text, words, aligned, from, i) {
      assert PlacedAt(cl, text, front, aligned, from, i);
      PlacedMore(cl, text, front, words, from[i], EndBefore(aligned, i), aligned[i]);
    }
  }

  lemma OthersSkip(cl: Classes, text: string, words: seq<Word>, front: seq<Word>, aligned: seq<Aligned>, from: seq<nat>)
    requires words != [] && front == words[..|words| - 1] && |from| == |aligned| && Rising(from, |front|)
    requires OthersLeftOut(cl, text, front, aligned, from)
        && LeftOut(cl, text, words, |front|, EndBefore(aligned, |aligned|))
    ensures OthersLeftOut(cl, text, words, aligned, from)
  {
    forall k: nat, i: nat | k < |words| && Skips(from, k, i)
      ensures LeftOut(cl, text, words, k, EndBefore(aligned, i)) {
      if k < |front| {
        PlacedMore(cl, text, front, words, k, EndBefore(aligned, i), Aligned(0, 0, 0, 0));
      } else {
        assert i == |from|;
      }
    }
  }

  /** Where the next word is placed, or that it is left out. */
  ghost predicate Advances(cl: Classes, text: string, words: seq<Word>, n: nat, s: Scan, next: Scan)
    requires n < |words|
  {
    && next.rawCursor == EndBefore(next.aligned, |next.aligned|)
    && (|| (next.aligned == s.aligned && LeftOut(cl, text, words, n, s.rawCursor))
        || (next.aligned != [] && next.aligned == s.aligned + [next.aligned[|next.aligned| - 1]]
            && PlacedRight(cl, text, words, n, s.rawCursor, next.aligned[|next.aligned| - 1])))
  }

  lemma MarkPlaced(cl: Classes, text: string, f: Frame, s: Scan, words: seq<Word>, n: nat)
    requires n < |words| && AlignOne(cl, text, f, s, words[n]).Some? && Content(cl, words[n].text) == ""
    requires s.cursor == |SaidBy(cl, words[..n])| && s.rawCursor == EndBefore(s.aligned, |s.aligned|)
    ensures Advances(cl, text, words, n, s, AlignOne(cl, text, f, s, words[n]).value)
  {
    var mark, gap := Strip(cl, words[n].text), GapEnd(cl, text, s.cursor);
    GapEndAt(cl, text, s.cursor);
    FindMeans(text, mark, s.rawCursor, gap);
    match Find(text, mark, s.rawCursor, gap)
    case None => assert LeftOut(cl, text, words, n, s.rawCursor);
    case Some(at) =>
      assert PlacedRight(cl, text, words, n, s.rawCursor, Aligned(at, at + |mark|, words[n].start, words[n].end));
  }

  lemma ContentPlaced(cl: Classes, text: string, f: Frame, s: Scan, words: seq<Word>, n: nat)
    requires n < |words| && AlignOne(cl, text, f, s, words[n]).Some? && Content(cl, words[n].text) != ""
    requires s.cursor == |SaidBy(cl, words[..n])| && s.rawCursor <= GapEnd(cl, text, s.cursor)
    ensures Advances(cl, text, words, n, s, AlignOne(cl, text, f, s, words[n]).value)
  {
    var count := |Content(cl, words[n].text)|;
    NthLexicalIs(cl, text, |text|, s.cursor);
    NthLexicalIs(cl, text, |text|, s.cursor + count - 1);
    var positions := LexicalPositions(cl, text);
    var a := Aligned(positions[s.cursor], positions[s.cursor + count - 1] + 1, words[n].start, words[n].end);
    assert PlacedRight(cl, text, words, n, s.rawCursor, a);
  }

  lemma {:induction false} AlignAllRight(cl: Classes, text: string, f: Frame, words: seq<Word>) returns (from: seq<nat>)
    requires AlignAll(cl, text, f, words).Some?
    ensures var s := AlignAll(cl, text, f, words).value;
      && AlignedRight(cl, text, words, s.aligned, from) && s.rawCursor == EndBefore(s.aligned, |s.aligned|)
  {
    if words == [] {
      from := [];
    } else {
      var n := |words| - 1;
      var front := words[..n];
      from := AlignAllRight(cl, text, f, front);
      var s := AlignAll(cl, text, f, front).value;
      AlignAllKeeps(cl, text, f, front);
      AlignAllIff(cl, text, f, front);
      if Content(cl, words[n].text) == "" { MarkPlaced(cl, text, f, s, words, n); } else {
        ContentPlaced(cl, text, f, s, words, n);
      }
      var next := AlignOne(cl, text, f, s, words[n]).value;
      if next.aligned == s.aligned {
        AlignedRightSkip(cl, text, words, front, s.aligned, from);
      } else {
        AlignedRightMore(cl, text, words, front, s.aligned, from, next.aligned[|next.aligned| - 1]);
        from := from + [n];
      }
    }
  }

  /** Evidence is complete when every word is sound, together they say exactly the text, and there is something to
      find: a lexical character, or the mark of some word. */
  ghost predicate Complete(cl: Classes, f: Frame, text: string, words: seq<Word>) {
    && WordsSound(cl, f, words) && SaidBy(cl, words) == Content(cl, text)
    && (Content(cl, text) != "" || exists k: nat :: k < |words| && Found(cl, text, words[k].text))
  }

  ghost predicate Found(cl: Classes, text: string, token: string) { !Nowhere(text, Strip(cl, token), 0, |text|) }

  lemma {:induction false} SaysNothing(cl: Classes, words: seq<Word>)
    ensures SaidBy(cl, words) == "" <==> forall k :: 0 <= k < |words| ==> Content(cl, words[k].text) == ""
  {
    if words != [] {
      SaysNothing(cl, words[..|words| - 1]);
      assert words == words[..|words| - 1] + [words[|words| - 1]];
    }
  }

  lemma {:induction false} LexicalUpTo(cl: Classes, text: string, m: nat, n: nat)
    requires m <= n <= |text|
    ensures |LexicalBefore(cl, text, m)| <= |LexicalBefore(cl, text, n)|
    ensures m < n && Lexical(cl, text, m) ==> |LexicalBefore(cl, text, m)| < |LexicalBefore(cl, text, n)|
  {
    if m < n { LexicalUpTo(cl, text, m, n - 1); }
  }

  /** In a text without lexical characters the first gap is all of it. */
  lemma WholeGap(cl: Classes, text: string, gap: nat)
    requires Content(cl, text) == "" && NthLexical(cl, text, 0, gap)
    ensures gap == |text|
  {
    if gap < |text| { LexicalUpTo(cl, text, gap, |text|); }
  }

  lemma NoneAligned(cl: Classes, text: string, words: seq<Word>, from: seq<nat>)
    requires AlignedRight(cl, text, words, [], from)
    ensures SaidBy(cl, words) == ""
    ensures Content(cl, text) == "" ==> forall k: nat :: k < |words| ==> !Found(cl, text, words[k].text)
  {
    forall k: nat | k < |words| ensures Content(cl, words[k].text) == "" && LeftOut(cl, text, words, k, 0) {
      assert Skips(from, k, 0);
    }
    SaysNothing(cl, words);
    if Content(cl, text) == "" {
      forall k: nat | k < |words| ensures !Found(cl, text, words[k].text) {
        SaysNothing(cl, words[..k]);
        var gap: nat :| NthLexical(cl, text, |SaidBy(cl, words[..k])|, gap)
            && Nowhere(text, Strip(cl, words[k].text), 0, gap);
        WholeGap(cl, text, gap);
      }
    }
  }

  lemma SomeAligned(cl: Classes, text: string, words: seq<Word>, aligned: seq<Aligned>, from: seq<nat>)
    requires AlignedRight(cl, text, words, aligned, from) && aligned != []
    ensures SaidBy(cl, words) != "" || exists k: nat :: k < |words| && Found(cl, text, words[k].text)
  {
    assert PlacedAt(cl, text, words, aligned, from, 0);
    var k := from[0];
    if Content(cl, words[k].text) == "" {
      var gap: nat :| NthLexical(cl, text, |SaidBy(cl, words[..k])|, gap)
          && FirstAt(text, Strip(cl, words[k].text), 0, gap, aligned[0].from);
      assert OccursAt(text, Strip(cl, words[k].text), aligned[0].from);
      assert Found(cl, text, words[k].text);
    } else {
      SaysNothing(cl, words);
    }
  }

  /** There is evidence if and only if it is complete; and then every aligned word is where it belongs. */
  lemma EvidenceIff(cl: Classes, phrase: Phrase)
    ensures var f := Frame(phrase.start, phrase.end, phrase.timed);
      Evidence(cl, phrase).Some? <==> Complete(cl, f, phrase.text, Repaired(phrase.words, f))
    ensures var f := Frame(phrase.start, phrase.end, phrase.timed);
      Evidence(cl, phrase).Some? ==>
        exists from :: AlignedRight(cl, phrase.text, Repaired(phrase.words, f), Evidence(cl, phrase).value, from)
  {
    var f, text := Frame(phrase.start, phrase.end, phrase.timed), phrase.text;
    var words := Repaired(phrase.words, f);
    AlignAllIff(cl, text, f, words);
    match AlignAll(cl, text, f, words)
    case None =>
    case Some(s) =>
      var from := AlignAllRight(cl, text, f, words);
      if s.aligned == [] { NoneAligned(cl, text, words, from); } else { SomeAligned(cl, text, words, s.aligned, from); }
  }

  // ----- Where to cut -----

  function NextStart(text: string, aligned: seq<Aligned>, index: nat): nat
    requires index < |aligned|
  {
    if index + 1 < |aligned| then aligned[index + 1].from else |text|
  }

  /** The last sentence end from lo to hi. */
  function LastEndWithin(spans: seq<Span>, lo: nat, hi: nat): (r: Option<nat>)
    ensures r.Some? ==> lo <= r.value <= hi
  {
    if spans == [] then None
    else
      var before, end := LastEndWithin(spans[..|spans| - 1], lo, hi), spans[|spans| - 1].end;
      if lo <= end <= hi && (before.None? || before.value < end) then Some(end) else before
  }

  predicate EndsAt(spans: seq<Span>, at: nat) {
    exists k :: 0 <= k < |spans| && spans[k].end == at
  }

  lemma {:induction false} LastEndIsLast(spans: seq<Span>, lo: nat, hi: nat)
    ensures LastEndWithin(spans, lo, hi).Some? ==> EndsAt(spans, LastEndWithin(spans, lo, hi).value)
    ensures forall k :: 0 <= k < |spans| && lo <= spans[k].end <= hi ==>
      LastEndWithin(spans, lo, hi).Some? && spans[k].end <= LastEndWithin(spans, lo, hi).value
  {
    if spans != [] {
      var front := spans[..|spans| - 1];
      LastEndIsLast(front, lo, hi);
      if LastEndWithin(front, lo, hi).Some? {
        var k :| 0 <= k < |front| && front[k].end == LastEndWithin(front, lo, hi).value;
        assert spans[k].end == front[k].end;
      }
      forall k | 0 <= k < |spans| && lo <= spans[k].end <= hi
        ensures LastEndWithin(spans, lo, hi).Some? && spans[k].end <= LastEndWithin(spans, lo, hi).value
      {
        if k < |front| { assert front[k].end == spans[k].end; }
      }
    }
  }

  /** A group: text[textFrom..textTo] and the aligned words wordFrom..wordTo. */
  datatype Piece = Piece(textFrom: nat, textTo: nat, wordFrom: nat, wordTo: nat)

  function PiecesFrom(cl: Classes, text: string, aligned: seq<Aligned>, index: nat, textFrom: nat,
                      wordFrom: nat): seq<Piece>
    requires index <= |aligned|
    decreases |aligned| - index
  {
    if index == |aligned| then []
    else
      match LastEndWithin(SentenceSpans(cl, text), aligned[index].to, NextStart(text, aligned, index))
      case None => PiecesFrom(cl, text, aligned, index + 1, textFrom, wordFrom)
      case Some(end) =>
        [Piece(textFrom, end, wordFrom, index + 1)] + PiecesFrom(cl, text, aligned, index + 1, end, index + 1)
  }

  predicate SentenceEnd(cl: Classes, text: string, at: nat) {
    EndsAt(SentenceSpans(cl, text), at)
  }

  /** A piece that ends at a sentence end no aligned word straddles, and holds at least one word. */
  predicate GoodPiece(cl: Classes, text: string, aligned: seq<Aligned>, p: Piece) {
    && p.textFrom <= p.textTo <= |text| && p.wordFrom < p.wordTo <= |aligned|
    && SentenceEnd(cl, text, p.textTo)
    && (forall k :: 0 <= k < |aligned| ==>
        if k < p.wordTo then aligned[k].to <= p.textTo else p.textTo <= aligned[k].from)
    && (forall k :: p.wordFrom <= k < |aligned| ==> p.textFrom <= aligned[k].from)
  }

  /** The pieces are consecutive in the text and in the words, and end with both. */
  predicate PiecesTile(cl: Classes, text: string, aligned: seq<Aligned>, pieces: seq<Piece>, textFrom: nat,
                       wordFrom: nat) {
    && pieces != []
    && pieces[0].textFrom == textFrom && pieces[0].wordFrom == wordFrom
    && pieces[|pieces| - 1].textTo == |text| && pieces[|pieces| - 1].wordTo == |aligned|
    && (forall k :: 0 <= k < |pieces| ==> GoodPiece(cl, text, aligned, pieces[k]))
    && (forall k :: 0 <= k < |pieces| - 1 ==>
        pieces[k].textTo == pieces[k + 1].textFrom && pieces[k].wordTo == pieces[k + 1].wordFrom)
  }

  lemma TextEndIsSentenceEnd(cl: Classes, text: string, lo: nat)
    requires lo <= |text|
    ensures LastEndWithin(SentenceSpans(cl, text), lo, |text|) == Some(|text|)
  {
    SpansPartition(cl, text);
    LastEndIsLast(SentenceSpans(cl, text), lo, |text|);
  }

  lemma PiecesCons(cl: Classes, text: string, aligned: seq<Aligned>, p: Piece, rest: seq<Piece>)
    requires GoodPiece(cl, text, aligned, p)
    requires if rest == [] then p.textTo == |text| && p.wordTo == |aligned|
             else PiecesTile(cl, text, aligned, rest, p.textTo, p.wordTo)
    ensures PiecesTile(cl, text, aligned, [p] + rest, p.textFrom, p.wordFrom)
  {
    var r := [p] + rest;
    forall k | 0 <= k < |r| - 1 ensures r[k].textTo == r[k + 1].textFrom && r[k].wordTo == r[k + 1].wordFrom {
      if k > 0 { assert r[k] == rest[k - 1] && r[k + 1] == rest[k]; }
    }
  }

  lemma {:induction false} PiecesFromTile(cl: Classes, text: string, aligned: seq<Aligned>, index: nat, textFrom: nat,
                                          wordFrom: nat)
    requires AlignedInOrder(text, aligned) && wordFrom <= index <= |aligned| && textFrom <= |text|
    requires forall k :: wordFrom <= k < |aligned| ==> textFrom <= aligned[k].from
    requires index == |aligned| ==> wordFrom == index
    ensures index == |aligned| ==> PiecesFrom(cl, text, aligned, index, textFrom, wordFrom) == []
    ensures index < |aligned| ==>
      PiecesTile(cl, text, aligned, PiecesFrom(cl, text, aligned, index, textFrom, wordFrom), textFrom, wordFrom)
    decreases |aligned| - index
  {
    if index < |aligned| {
      var lo, hi := aligned[index].to, NextStart(text, aligned, index);
      if index + 1 == |aligned| { TextEndIsSentenceEnd(cl, text, lo); }
      match LastEndWithin(SentenceSpans(cl, text), lo, hi)
      case None => PiecesFromTile(cl, text, aligned, index + 1, textFrom, wordFrom);
      case Some(end) =>
        var p := Piece(textFrom, end, wordFrom, index + 1);
        LastEndIsLast(SentenceSpans(cl, text), lo, hi);
        forall k | 0 <= k < |aligned| ensures if k < index + 1 then aligned[k].to <= end else end <= aligned[k].from {
          if k < index { assert aligned[k].to <= aligned[index].from; }
          if k > index + 1 { assert aligned[index + 1].to <= aligned[k].from; }
        }
        PiecesFromTile(cl, text, aligned, index + 1, end, index + 1);
        PiecesCons(cl, text, aligned, p, PiecesFrom(cl, text, aligned, index + 1, end, index + 1));
    }
  }

  // ----- The groups -----

  function WordFrom(aligned: seq<Aligned>, p: Piece, k: nat): nat
    requires p.wordFrom <= k < p.wordTo <= |aligned|
  {
    if k == p.wordFrom then p.textFrom else aligned[k].from
  }

  function WordTo(aligned: seq<Aligned>, p: Piece, k: nat): nat
    requires p.wordFrom <= k < p.wordTo <= |aligned|
  {
    if k + 1 < p.wordTo then aligned[k + 1].from else p.textTo
  }

  /** The slice of the text, empty when the bounds are out of order. */
  function Slice(text: string, from: nat, to: nat): string {
    if from <= to <= |text| then text[from..to] else ""
  }

  function WordOf(cl: Classes, text: string, aligned: seq<Aligned>, p: Piece, k: nat): Word
    requires p.wordFrom <= k < p.wordTo <= |aligned|
  {
    Word(Strip(cl, Slice(text, WordFrom(aligned, p, k), WordTo(aligned, p, k))), aligned[k].start, aligned[k].end)
  }

  function PieceWords(cl: Classes, text: string, aligned: seq<Aligned>, p: Piece): (r: seq<Word>)
    requires HasWords(aligned, p)
    ensures |r| == p.wordTo - p.wordFrom
  {
    seq(p.wordTo - p.wordFrom,
        i requires 0 <= i < p.wordTo - p.wordFrom => WordOf(cl, text, aligned, p, p.wordFrom + i))
  }

  predicate HasWords(aligned: seq<Aligned>, p: Piece) {
    p.wordFrom < p.wordTo <= |aligned|
  }

  /** The group of a piece: its text, its first word's start, its last word's end, and its words, each
      beginning with the piece or the word and ending before the next word or with the piece. */
  function GroupOf(cl: Classes, phrase: Phrase, aligned: seq<Aligned>, p: Piece): Phrase
    requires HasWords(aligned, p)
  {
    Phrase(Strip(cl, Slice(phrase.text, p.textFrom, p.textTo)), aligned[p.wordFrom].start, aligned[p.wordTo - 1].end,
           phrase.language, phrase.speaker, true, PieceWords(cl, phrase.text, aligned, p))
  }

  function GroupsOf(cl: Classes, phrase: Phrase, aligned: seq<Aligned>, pieces: seq<Piece>): (r: seq<Phrase>)
    requires forall k :: 0 <= k < |pieces| ==> HasWords(aligned, pieces[k])
    ensures |r| == |pieces|
  {
    seq(|pieces|, k requires 0 <= k < |pieces| => GroupOf(cl, phrase, aligned, pieces[k]))
  }

  lemma EvidenceInOrder(cl: Classes, phrase: Phrase)
    requires Evidence(cl, phrase).Some?
    ensures AlignedInOrder(phrase.text, Evidence(cl, phrase).value) && Evidence(cl, phrase).value != []
  {
    var f := Frame(phrase.start, phrase.end, phrase.timed);
    AlignAllKeeps(cl, phrase.text, f, Repaired(phrase.words, f));
  }

  /** The split: one group per piece when evidence is complete, and otherwise the phrase without words. */
  function Split(cl: Classes, phrase: Phrase): seq<Phrase> {
    match Evidence(cl, phrase)
    case None => [phrase.(words := [])]
    case Some(aligned) =>
      EvidenceInOrder(cl, phrase);
      PiecesFromTile(cl, phrase.text, aligned, 0, 0, 0);
      GroupsOf(cl, phrase, aligned, PiecesFrom(cl, phrase.text, aligned, 0, 0, 0))
  }

  // ----- What splitting keeps -----

  function Texts(groups: seq<Phrase>): string {
    if groups == [] then "" else Texts(groups[..|groups| - 1]) + groups[|groups| - 1].text
  }

  /** Appending a stripped slice appends its non-space characters. */
  lemma DenseStep(cl: Classes, sofar: string, text: string, from: nat, mid: nat, to: nat)
    requires from <= mid <= to <= |text| && Dense(cl, sofar) == Dense(cl, text[from..mid])
    ensures Dense(cl, sofar + Strip(cl, text[mid..to])) == Dense(cl, text[from..to])
  {
    DenseConcat(cl, sofar, Strip(cl, text[mid..to]));
    DenseStrip(cl, text[mid..to]);
    DenseConcat(cl, text[from..mid], text[mid..to]);
    assert text[from..mid] + text[mid..to] == text[from..to];
  }

  lemma JoinedAppend(words: seq<Word>, w: Word)
    ensures Joined(words + [w]) == Joined(words) + w.text
  {
    assert (words + [w])[..|words|] == words;
  }

  function WordsEnd(aligned: seq<Aligned>, p: Piece, n: nat): nat
    requires p.wordFrom <= n <= p.wordTo <= |aligned|
  {
    if n == p.wordFrom then p.textFrom else WordTo(aligned, p, n - 1)
  }

  /** The words of a piece lie one after another in its text. */
  predicate WordsInPiece(aligned: seq<Aligned>, p: Piece, n: nat) {
    && p.textFrom <= p.textTo <= n && HasWords(aligned, p)
    && forall k :: p.wordFrom <= k < p.wordTo ==>
        p.textFrom <= WordFrom(aligned, p, k) <= WordTo(aligned, p, k) <= p.textTo
  }

  lemma GoodPieceWords(cl: Classes, text: string, aligned: seq<Aligned>, p: Piece)
    requires AlignedInOrder(text, aligned) && GoodPiece(cl, text, aligned, p)
    ensures WordsInPiece(aligned, p, |text|)
  {
    forall k | p.wordFrom <= k < p.wordTo
      ensures p.textFrom <= WordFrom(aligned, p, k) <= WordTo(aligned, p, k) <= p.textTo {
      assert aligned[k].from < aligned[k].to <= p.textTo;
      if k + 1 < p.wordTo {
        assert aligned[k].to <= aligned[k + 1].from < aligned[k + 1].to <= p.textTo;
      }
    }
  }

  /** Word n holds what lies between two consecutive ends. */
  predicate HoldsWord(cl: Classes, text: string, ends: seq<int>, words: seq<Word>, n: nat)
    requires n < |words| == |ends| - 1
  {
    0 <= ends[n] <= ends[n + 1] <= |text| && words[n].text == Strip(cl, text[ends[n]..ends[n + 1]])
  }

  lemma {:induction false} WordsConserve(cl: Classes, text: string, ends: seq<int>, words: seq<Word>, n: nat)
    requires n <= |words| == |ends| - 1 && 0 <= ends[0] <= |text|
    requires forall k :: 0 <= k < |words| ==> HoldsWord(cl, text, ends, words, k)
    ensures ends[0] <= ends[n] <= |text|
    ensures Dense(cl, Joined(words[..n])) == Dense(cl, text[ends[0]..ends[n]])
  {
    if n > 0 {
      WordsConserve(cl, text, ends, words, n - 1);
      assert HoldsWord(cl, text, ends, words, n - 1);
      JoinedAppend(words[..n - 1], words[n - 1]);
      assert words[..n] == words[..n - 1] + [words[n - 1]];
      DenseStep(cl, Joined(words[..n - 1]), text, ends[0], ends[n - 1], ends[n]);
    }
  }

  function WordEnds(aligned: seq<Aligned>, p: Piece): (r: seq<int>)
    requires HasWords(aligned, p)
    ensures |r| == p.wordTo - p.wordFrom + 1
  {
    seq(p.wordTo - p.wordFrom + 1, i requires 0 <= i <= p.wordTo - p.wordFrom => WordsEnd(aligned, p, p.wordFrom + i))
  }

  lemma PieceHoldsWord(cl: Classes, text: string, aligned: seq<Aligned>, p: Piece, n: nat)
    requires WordsInPiece(aligned, p, |text|) && n < p.wordTo - p.wordFrom
    ensures HoldsWord(cl, text, WordEnds(aligned, p), PieceWords(cl, text, aligned, p), n)
  {
    var k := p.wordFrom + n;
    assert PieceWords(cl, text, aligned, p)[n] == WordOf(cl, text, aligned, p, k);
    assert WordEnds(aligned, p)[n] == WordsEnd(aligned, p, k)
        && WordEnds(aligned, p)[n + 1] == WordsEnd(aligned, p, k + 1);
    assert p.textFrom <= WordFrom(aligned, p, k) <= WordTo(aligned, p, k) <= p.textTo;
  }

  /** Inside a group the word texts hold the group's non-space characters, in order. */
  lemma GroupConserves(cl: Classes, phrase: Phrase, aligned: seq<Aligned>, p: Piece)
    requires WordsInPiece(aligned, p, |phrase.text|)
    ensures Dense(cl, Joined(GroupOf(cl, phrase, aligned, p).words)) == Dense(cl, GroupOf(cl, phrase, aligned, p).text)
  {
    var words, ends := PieceWords(cl, phrase.text, aligned, p), WordEnds(aligned, p);
    forall n | 0 <= n < |words| ensures HoldsWord(cl, phrase.text, ends, words, n) {
      PieceHoldsWord(cl, phrase.text, aligned, p, n);
    }
    assert ends[0] == p.textFrom && ends[|words|] == p.textTo by {
      assert WordsEnd(aligned, p, p.wordFrom) == p.textFrom && WordsEnd(aligned, p, p.wordTo) == p.textTo;
    }
    WordsConserve(cl, phrase.text, ends, words, |words|);
    assert words[..|words|] == words;
    DenseStrip(cl, phrase.text[p.textFrom..p.textTo]);
  }

  /** A group has a duration, from its first word's start to its last word's end, and its words are in
      order, each with a duration. */
  predicate Timely(g: Phrase) {
    && g.timed && g.start < g.end && g.words != []
    && g.start == g.words[0].start && g.end == g.words[|g.words| - 1].end
    && Ordered(g.words) && AllPositive(g.words, |g.words|)
  }

  lemma GroupTimely(cl: Classes, phrase: Phrase, aligned: seq<Aligned>, p: Piece)
    requires AlignedInOrder(phrase.text, aligned) && HasWords(aligned, p)
    ensures Timely(GroupOf(cl, phrase, aligned, p))
  {
    var words := PieceWords(cl, phrase.text, aligned, p);
    forall k | 0 <= k < |words|
      ensures words[k].start == aligned[p.wordFrom + k].start && words[k].end == aligned[p.wordFrom + k].end {
      assert words[k] == WordOf(cl, phrase.text, aligned, p, p.wordFrom + k);
    }
    TimesOfAligned(phrase.text, aligned, p.wordFrom, words);
    assert words[0].start == aligned[p.wordFrom].start && words[|words| - 1].end == aligned[p.wordTo - 1].end;
    if p.wordFrom < p.wordTo - 1 {
      assert aligned[p.wordFrom].end <= aligned[p.wordTo - 1].start;
    }
  }

  /** Words with the times of aligned ones are as orderly. */
  lemma TimesOfAligned(text: string, aligned: seq<Aligned>, from: nat, words: seq<Word>)
    requires AlignedInOrder(text, aligned) && from + |words| <= |aligned|
    requires forall k :: 0 <= k < |words| ==>
        words[k].start == aligned[from + k].start && words[k].end == aligned[from + k].end
    ensures Ordered(words) && AllPositive(words, |words|)
  {
    forall j, k | 0 <= j < k < |words| ensures words[j].end <= words[k].start {
      assert aligned[from + j].end <= aligned[from + k].start;
    }
  }

  /** Everything a split promises about its groups. */
  predicate Faithful(cl: Classes, phrase: Phrase, groups: seq<Phrase>) {
    && Dense(cl, Texts(groups)) == Dense(cl, phrase.text)
    && (forall k :: 0 <= k < |groups| ==> FaithfulGroup(cl, phrase, groups[k]))
    && (forall j, k :: 0 <= j < k < |groups| ==> groups[j].end <= groups[k].start)
  }

  predicate FaithfulGroup(cl: Classes, phrase: Phrase, g: Phrase) {
    g.language == phrase.language && g.speaker == phrase.speaker && Timely(g)
        && Dense(cl, Joined(g.words)) == Dense(cl, g.text)
  }

  lemma TextsAppend(groups: seq<Phrase>, g: Phrase)
    ensures Texts(groups + [g]) == Texts(groups) + g.text
  {
    assert (groups + [g])[..|groups|] == groups;
  }

  function PiecesEnd(pieces: seq<Piece>, n: nat): nat
    requires n <= |pieces|
  {
    if n == 0 then 0 else pieces[n - 1].textTo
  }

  lemma PieceBounds(cl: Classes, text: string, aligned: seq<Aligned>, pieces: seq<Piece>, k: nat)
    requires PiecesTile(cl, text, aligned, pieces, 0, 0) && k < |pieces|
    ensures GoodPiece(cl, text, aligned, pieces[k]) && HasWords(aligned, pieces[k])
    ensures pieces[k].textFrom == PiecesEnd(pieces, k) <= pieces[k].textTo <= |text|
  {
    if k > 0 {
      assert pieces[k - 1].textTo == pieces[k - 1 + 1].textFrom;
    }
  }

  /** Group k holds what lies between the ends of the pieces before and at k. */
  predicate HoldsPiece(cl: Classes, text: string, pieces: seq<Piece>, groups: seq<Phrase>, k: nat)
    requires k < |pieces| == |groups|
  {
    PiecesEnd(pieces, k) <= pieces[k].textTo <= |text|
        && groups[k].text == Strip(cl, text[PiecesEnd(pieces, k)..pieces[k].textTo])
  }

  lemma {:induction false} GroupTexts(cl: Classes, text: string, pieces: seq<Piece>, groups: seq<Phrase>, n: nat)
    requires n <= |pieces| == |groups| && forall k :: 0 <= k < |pieces| ==> HoldsPiece(cl, text, pieces, groups, k)
    ensures PiecesEnd(pieces, n) <= |text|
    ensures Dense(cl, Texts(groups[..n])) == Dense(cl, text[0..PiecesEnd(pieces, n)])
  {
    if n > 0 {
      GroupTexts(cl, text, pieces, groups, n - 1);
      assert HoldsPiece(cl, text, pieces, groups, n - 1);
      TextsAppend(groups[..n - 1], groups[n - 1]);
      assert groups[..n] == groups[..n - 1] + [groups[n - 1]];
      DenseStep(cl, Texts(groups[..n - 1]), text, 0, PiecesEnd(pieces, n - 1), pieces[n - 1].textTo);
    }
  }

  lemma {:induction false} PieceOrder(cl: Classes, text: string, aligned: seq<Aligned>, pieces: seq<Piece>, j: nat,
                                      k: nat)
    requires PiecesTile(cl, text, aligned, pieces, 0, 0) && j < k < |pieces|
    ensures pieces[j].wordTo <= pieces[k].wordFrom
    decreases k - j
  {
    assert GoodPiece(cl, text, aligned, pieces[k - 1]);
    assert pieces[k - 1].wordTo == pieces[k - 1 + 1].wordFrom;
    if j < k - 1 {
      PieceOrder(cl, text, aligned, pieces, j, k - 1);
    }
  }

  lemma GroupsInOrder(cl: Classes, phrase: Phrase, aligned: seq<Aligned>, pieces: seq<Piece>, j: nat, k: nat)
    requires AlignedInOrder(phrase.text, aligned) && PiecesTile(cl, phrase.text, aligned, pieces, 0, 0)
        && j < k < |pieces|
    ensures GoodPiece(cl, phrase.text, aligned, pieces[j]) && GoodPiece(cl, phrase.text, aligned, pieces[k])
    ensures GroupOf(cl, phrase, aligned, pieces[j]).end <= GroupOf(cl, phrase, aligned, pieces[k]).start
  {
    PieceOrder(cl, phrase.text, aligned, pieces, j, k);
    assert GoodPiece(cl, phrase.text, aligned, pieces[j]) && GoodPiece(cl, phrase.text, aligned, pieces[k]);
    assert aligned[pieces[j].wordTo - 1].end <= aligned[pieces[k].wordFrom].start;
  }

  /** The pieces a split is made of. */
  lemma SplitPieces(cl: Classes, phrase: Phrase) returns (aligned: seq<Aligned>, pieces: seq<Piece>)
    requires Evidence(cl, phrase).Some?
    ensures aligned == Evidence(cl, phrase).value && AlignedInOrder(phrase.text, aligned)
    ensures pieces == PiecesFrom(cl, phrase.text, aligned, 0, 0, 0)
        && PiecesTile(cl, phrase.text, aligned, pieces, 0, 0)
    ensures Split(cl, phrase) == GroupsOf(cl, phrase, aligned, pieces)
    ensures AreGroups(cl, phrase, aligned, pieces, Split(cl, phrase))
  {
    aligned := Evidence(cl, phrase).value;
    EvidenceInOrder(cl, phrase);
    PiecesFromTile(cl, phrase.text, aligned, 0, 0, 0);
    pieces := PiecesFrom(cl, phrase.text, aligned, 0, 0, 0);
  }

  lemma PieceFaithful(cl: Classes, phrase: Phrase, aligned: seq<Aligned>, p: Piece)
    requires AlignedInOrder(phrase.text, aligned) && GoodPiece(cl, phrase.text, aligned, p)
    ensures FaithfulGroup(cl, phrase, GroupOf(cl, phrase, aligned, p))
  {
    GroupTimely(cl, phrase, aligned, p);
    GoodPieceWords(cl, phrase.text, aligned, p);
    GroupConserves(cl, phrase, aligned, p);
  }

  predicate AreGroups(cl: Classes, phrase: Phrase, aligned: seq<Aligned>, pieces: seq<Piece>, groups: seq<Phrase>) {
    && |groups| == |pieces|
    && forall k :: 0 <= k < |pieces| ==>
        HasWords(aligned, pieces[k]) && groups[k] == GroupOf(cl, phrase, aligned, pieces[k])
  }

  lemma GroupsConserve(cl: Classes, phrase: Phrase, aligned: seq<Aligned>, pieces: seq<Piece>, groups: seq<Phrase>)
    requires PiecesTile(cl, phrase.text, aligned, pieces, 0, 0) && AreGroups(cl, phrase, aligned, pieces, groups)
    ensures Dense(cl, Texts(groups)) == Dense(cl, phrase.text)
  {
    forall k | 0 <= k < |pieces| ensures HoldsPiece(cl, phrase.text, pieces, groups, k) {
      PieceBounds(cl, phrase.text, aligned, pieces, k);
    }
    GroupTexts(cl, phrase.text, pieces, groups, |pieces|);
    assert groups[..|groups|] == groups && phrase.text[0..|phrase.text|] == phrase.text;
  }

  /** The groups of pieces that tile the text keep everything. */
  lemma GroupsFaithful(cl: Classes, phrase: Phrase, aligned: seq<Aligned>, pieces: seq<Piece>, groups: seq<Phrase>)
    requires AlignedInOrder(phrase.text, aligned) && PiecesTile(cl, phrase.text, aligned, pieces, 0, 0)
    requires AreGroups(cl, phrase, aligned, pieces, groups)
    ensures Faithful(cl, phrase, groups)
  {
    GroupsConserve(cl, phrase, aligned, pieces, groups);
    forall k | 0 <= k < |pieces| ensures FaithfulGroup(cl, phrase, groups[k]) {
      PieceBounds(cl, phrase.text, aligned, pieces, k);
      PieceFaithful(cl, phrase, aligned, pieces[k]);
    }
    forall j, k | 0 <= j < k < |pieces| ensures groups[j].end <= groups[k].start {
      GroupsInOrder(cl, phrase, aligned, pieces, j, k);
    }
  }

  /** Splitting conserves every non-space character in order, across groups and inside each group; groups
      have ordered, non-overlapping times of their own; without complete evidence the phrase stays whole
      and loses only its words. */
  lemma SplitFaithful(cl: Classes, phrase: Phrase)
    ensures Evidence(cl, phrase).None? ==> Split(cl, phrase) == [phrase.(words := [])]
    ensures Evidence(cl, phrase).Some? ==> Split(cl, phrase) != [] && Faithful(cl, phrase, Split(cl, phrase))
  {
    if Evidence(cl, phrase).Some? {
      var aligned, pieces := SplitPieces(cl, phrase);
      GroupsFaithful(cl, phrase, aligned, pieces, Split(cl, phrase));
    }
  }

  /** How many words the first groups hold. */
  function WordCount(groups: seq<Phrase>): nat {
    if groups == [] then 0 else WordCount(groups[..|groups| - 1]) + |groups[|groups| - 1].words|
  }

  /** The groups have as many words as their pieces, which follow one another from the first word on. */
  predicate Counted(pieces: seq<Piece>, groups: seq<Phrase>) {
    && |groups| == |pieces| && (pieces != [] ==> pieces[0].wordFrom == 0)
    && (forall k :: 0 <= k < |pieces| ==> |groups[k].words| == pieces[k].wordTo - pieces[k].wordFrom)
    && (forall k :: 0 < k < |pieces| ==> pieces[k - 1].wordTo == pieces[k].wordFrom)
  }

  lemma PiecesCounted(cl: Classes, phrase: Phrase, aligned: seq<Aligned>, pieces: seq<Piece>, groups: seq<Phrase>)
    requires PiecesTile(cl, phrase.text, aligned, pieces, 0, 0) && AreGroups(cl, phrase, aligned, pieces, groups)
    ensures Counted(pieces, groups)
  {
    forall k | 0 < k < |pieces| ensures pieces[k - 1].wordTo == pieces[k].wordFrom {
      assert pieces[k - 1].wordTo == pieces[k - 1 + 1].wordFrom;
    }
  }

  lemma {:induction false} WordCountIs(pieces: seq<Piece>, groups: seq<Phrase>, n: nat)
    requires Counted(pieces, groups) && n < |pieces|
    ensures WordCount(groups[..n + 1]) == pieces[n].wordTo
  {
    var some := groups[..n + 1];
    assert some[..|some| - 1] == groups[..n] && some[|some| - 1] == groups[n];
    if n > 0 { WordCountIs(pieces, groups, n - 1); }
  }

  /** The piece that ends with word i ends at the last sentence end before the next word. */
  predicate AtLastEnd(cl: Classes, text: string, aligned: seq<Aligned>, p: Piece, i: nat)
    requires i < |aligned|
  {
    p.wordTo == i + 1
    && LastEndWithin(SentenceSpans(cl, text), aligned[i].to, NextStart(text, aligned, i)) == Some(p.textTo)
  }

  lemma {:induction false} PieceFor(cl: Classes, text: string, aligned: seq<Aligned>, index: nat, textFrom: nat,
                                    wordFrom: nat, i: nat)
    returns (k: nat)
    requires index <= i < |aligned|
    requires LastEndWithin(SentenceSpans(cl, text), aligned[i].to, NextStart(text, aligned, i)).Some?
    ensures k < |PiecesFrom(cl, text, aligned, index, textFrom, wordFrom)|
    ensures AtLastEnd(cl, text, aligned, PiecesFrom(cl, text, aligned, index, textFrom, wordFrom)[k], i)
    decreases |aligned| - index
  {
    match LastEndWithin(SentenceSpans(cl, text), aligned[index].to, NextStart(text, aligned, index))
    case None => k := PieceFor(cl, text, aligned, index + 1, textFrom, wordFrom, i);
    case Some(end) =>
      if index == i { return 0; }
      k := PieceFor(cl, text, aligned, index + 1, end, index + 1, i);
      k := k + 1;
  }

  lemma {:induction false} PieceAtLast(cl: Classes, text: string, aligned: seq<Aligned>, index: nat, textFrom: nat,
                                       wordFrom: nat, k: nat)
    requires index <= |aligned| && k < |PiecesFrom(cl, text, aligned, index, textFrom, wordFrom)|
    ensures var p := PiecesFrom(cl, text, aligned, index, textFrom, wordFrom)[k];
      0 < p.wordTo <= |aligned| && AtLastEnd(cl, text, aligned, p, p.wordTo - 1)
    decreases |aligned| - index
  {
    match LastEndWithin(SentenceSpans(cl, text), aligned[index].to, NextStart(text, aligned, index))
    case None => PieceAtLast(cl, text, aligned, index + 1, textFrom, wordFrom, k);
    case Some(end) => if k > 0 { PieceAtLast(cl, text, aligned, index + 1, end, index + 1, k - 1); }
  }

  /** A sentence ends after word i and before the next one. */
  ghost predicate EndInGap(cl: Classes, text: string, aligned: seq<Aligned>, i: nat)
    requires i < |aligned|
  {
    exists end: nat :: SentenceEnd(cl, text, end) && aligned[i].to <= end <= NextStart(text, aligned, i)
  }

  /** Some group ends with word i. */
  ghost predicate CutAfter(groups: seq<Phrase>, i: nat) { exists k: nat :: EndsWith(groups, k, i) }

  predicate EndsWith(groups: seq<Phrase>, k: nat, i: nat) { k < |groups| && WordCount(groups[..k + 1]) == i + 1 }

  /** Every gap between words that holds a sentence end is cut, and no other. */
  lemma CutWhereSentencesEnd(cl: Classes, phrase: Phrase, i: nat)
    requires Evidence(cl, phrase).Some? && i < |Evidence(cl, phrase).value|
    ensures EndInGap(cl, phrase.text, Evidence(cl, phrase).value, i) <==> CutAfter(Split(cl, phrase), i)
  {
    var aligned, pieces := SplitPieces(cl, phrase);
    var groups := Split(cl, phrase);
    LastEndIsLast(SentenceSpans(cl, phrase.text), aligned[i].to, NextStart(phrase.text, aligned, i));
    PiecesCounted(cl, phrase, aligned, pieces, groups);
    if EndInGap(cl, phrase.text, aligned, i) {
      var k := PieceFor(cl, phrase.text, aligned, 0, 0, 0, i);
      WordCountIs(pieces, groups, k);
      assert EndsWith(groups, k, i);
    }
    if CutAfter(groups, i) {
      var k: nat :| EndsWith(groups, k, i);
      WordCountIs(pieces, groups, k);
      PieceAtLast(cl, phrase.text, aligned, 0, 0, 0, k);
      assert SentenceEnd(cl, phrase.text, pieces[k].textTo);
    }
  }

  /** No sentence ends later than this before the word after word i. */
  ghost predicate NoneLater(cl: Classes, text: string, aligned: seq<Aligned>, i: nat, to: nat)
    requires i < |aligned|
  {
    forall end: nat :: SentenceEnd(cl, text, end) && end <= NextStart(text, aligned, i) ==> end <= to
  }

  lemma LastMeansNoneLater(cl: Classes, text: string, aligned: seq<Aligned>, p: Piece, i: nat)
    requires i < |aligned| && AtLastEnd(cl, text, aligned, p, i)
    ensures NoneLater(cl, text, aligned, i, p.textTo)
  {
    var spans := SentenceSpans(cl, text);
    LastEndIsLast(spans, aligned[i].to, NextStart(text, aligned, i));
    forall end: nat | SentenceEnd(cl, text, end) && end <= NextStart(text, aligned, i) ensures end <= p.textTo {
      var n :| 0 <= n < |spans| && spans[n].end == end;
    }
  }

  predicate Unstraddled(aligned: seq<Aligned>, at: nat) {
    forall k :: 0 <= k < |aligned| ==> aligned[k].to <= at || at <= aligned[k].from
  }

  lemma NoneStraddles(cl: Classes, text: string, aligned: seq<Aligned>, p: Piece)
    requires GoodPiece(cl, text, aligned, p)
    ensures Unstraddled(aligned, p.textTo)
  {
  }

  lemma CutText(cl: Classes, phrase: Phrase, aligned: seq<Aligned>, pieces: seq<Piece>, groups: seq<Phrase>, k: nat)
    requires PiecesTile(cl, phrase.text, aligned, pieces, 0, 0) && AreGroups(cl, phrase, aligned, pieces, groups)
        && k < |pieces|
    ensures var p := pieces[k];
      && p.textFrom <= p.textTo <= |phrase.text| && groups[k].text == Strip(cl, phrase.text[p.textFrom..p.textTo])
      && SentenceEnd(cl, phrase.text, p.textTo) && Unstraddled(aligned, p.textTo)
  {
    var p := pieces[k];
    PieceBounds(cl, phrase.text, aligned, pieces, k);
    NoneStraddles(cl, phrase.text, aligned, p);
    assert groups[k] == GroupOf(cl, phrase, aligned, p);
  }

  lemma CutWords(cl: Classes, text: string, aligned: seq<Aligned>, pieces: seq<Piece>, groups: seq<Phrase>, k: nat)
    requires Counted(pieces, groups) && k < |pieces| && pieces == PiecesFrom(cl, text, aligned, 0, 0, 0)
    ensures var p := pieces[k];
      && WordCount(groups[..k + 1]) == p.wordTo && 0 < p.wordTo <= |aligned|
          && NoneLater(cl, text, aligned, p.wordTo - 1, p.textTo)
  {
    WordCountIs(pieces, groups, k);
    PieceAtLast(cl, text, aligned, 0, 0, 0, k);
    LastMeansNoneLater(cl, text, aligned, pieces[k], pieces[k].wordTo - 1);
  }

  /** Where group k ends in the original text: at the last sentence end before its next word, which no aligned word
      straddles, the last group at the end of the text; its text is what lies after the previous cut. */
  lemma CutsAreSentenceEnds(cl: Classes, phrase: Phrase, k: nat) returns (from: nat, to: nat, words: nat)
    requires Evidence(cl, phrase).Some? && k < |Split(cl, phrase)|
    ensures from <= to <= |phrase.text| && SentenceEnd(cl, phrase.text, to)
    ensures Split(cl, phrase)[k].text == Strip(cl, phrase.text[from..to])
    ensures Unstraddled(Evidence(cl, phrase).value, to)
    ensures k == |Split(cl, phrase)| - 1 ==> to == |phrase.text|
    ensures WordCount(Split(cl, phrase)[..k + 1]) == words && 0 < words <= |Evidence(cl, phrase).value|
    ensures NoneLater(cl, phrase.text, Evidence(cl, phrase).value, words - 1, to)
  {
    var aligned, pieces := SplitPieces(cl, phrase);
    CutText(cl, phrase, aligned, pieces, Split(cl, phrase), k);
    PiecesCounted(cl, phrase, aligned, pieces, Split(cl, phrase));
    CutWords(cl, phrase.text, aligned, pieces, Split(cl, phrase), k);
    from, to, words := pieces[k].textFrom, pieces[k].textTo, pieces[k].wordTo;
  }

  /** The last sentence end between aligned word i and the next. */
  ghost predicate CutBehind(cl: Classes, text: string, aligned: seq<Aligned>, i: nat, at: nat) {
    && i < |aligned| && aligned[i].to <= at <= (if i + 1 < |aligned| then aligned[i + 1].from else |text|)
    && SentenceEnd(cl, text, at) && NoneLater(cl, text, aligned, i, at)
  }

  /** Word j of a group of text[from..to] is aligned word first + j: it has its times, and the text from it, or from the
      beginning of the group, to the next one, or to the end of the group. */
  predicate GroupWord(cl: Classes, text: string, aligned: seq<Aligned>, g: Phrase, first: nat, from: nat, to: nat,
                      j: nat)
    requires j < |g.words| && first + |g.words| <= |aligned|
  {
    var a := aligned[first + j];
    var begin, end := if j == 0 then from else a.from, if j + 1 == |g.words| then to else aligned[first + j + 1].from;
    && g.words[j].start == a.start && g.words[j].end == a.end
    && begin <= end <= |text| && g.words[j].text == Strip(cl, text[begin..end])
  }

  lemma PieceWordRight(cl: Classes, phrase: Phrase, aligned: seq<Aligned>, p: Piece, j: nat)
    requires WordsInPiece(aligned, p, |phrase.text|) && j < p.wordTo - p.wordFrom
    ensures GroupWord(cl, phrase.text, aligned, GroupOf(cl, phrase, aligned, p), p.wordFrom, p.textFrom, p.textTo, j)
  {
    var k := p.wordFrom + j;
    assert p.textFrom <= WordFrom(aligned, p, k) <= WordTo(aligned, p, k) <= p.textTo;
    assert PieceWords(cl, phrase.text, aligned, p)[j] == WordOf(cl, phrase.text, aligned, p, k);
  }

  lemma PieceCutBehind(cl: Classes, text: string, aligned: seq<Aligned>, pieces: seq<Piece>, k: nat)
    requires k < |pieces| && pieces == PiecesFrom(cl, text, aligned, 0, 0, 0)
    ensures 0 < pieces[k].wordTo <= |aligned|
    ensures CutBehind(cl, text, aligned, pieces[k].wordTo - 1, pieces[k].textTo)
  {
    PieceAtLast(cl, text, aligned, 0, 0, 0, k);
    var i := pieces[k].wordTo - 1;
    LastMeansNoneLater(cl, text, aligned, pieces[k], i);
    LastEndIsLast(SentenceSpans(cl, text), aligned[i].to, NextStart(text, aligned, i));
  }

  lemma PieceBegins(cl: Classes, text: string, aligned: seq<Aligned>, pieces: seq<Piece>, k: nat)
    requires k < |pieces| && pieces == PiecesFrom(cl, text, aligned, 0, 0, 0)
    requires PiecesTile(cl, text, aligned, pieces, 0, 0)
    ensures if k == 0 then pieces[k].textFrom == 0 && pieces[k].wordFrom == 0
            else 0 < pieces[k].wordFrom && CutBehind(cl, text, aligned, pieces[k].wordFrom - 1, pieces[k].textFrom)
  {
    if k > 0 {
      PieceCutBehind(cl, text, aligned, pieces, k - 1);
      assert pieces[k - 1].textTo == pieces[k - 1 + 1].textFrom && pieces[k - 1].wordTo == pieces[k - 1 + 1].wordFrom;
    }
  }

  ghost predicate GroupWords(cl: Classes, text: string, aligned: seq<Aligned>, g: Phrase, first: nat, from: nat,
                             to: nat)
  {
    && g.words != [] && first + |g.words| <= |aligned|
    && forall j: nat :: j < |g.words| ==> GroupWord(cl, text, aligned, g, first, from, to, j)
  }

  /** Group k holds the aligned words after those of the groups before it, each with its own times and text; it begins
      at the cut behind them and ends at the cut behind its last word. */
  lemma GroupsHoldWords(cl: Classes, phrase: Phrase, k: nat) returns (first: nat, from: nat, to: nat)
    requires Evidence(cl, phrase).Some? && k < |Split(cl, phrase)|
    ensures GroupWords(cl, phrase.text, Evidence(cl, phrase).value, Split(cl, phrase)[k], first, from, to)
    ensures if k == 0 then first == 0 && from == 0
            else first > 0 && CutBehind(cl, phrase.text, Evidence(cl, phrase).value, first - 1, from)
    ensures WordCount(Split(cl, phrase)[..k + 1]) == first + |Split(cl, phrase)[k].words| > 0
    ensures CutBehind(cl, phrase.text, Evidence(cl, phrase).value, WordCount(Split(cl, phrase)[..k + 1]) - 1, to)
  {
    var aligned, pieces := SplitPieces(cl, phrase);
    var p := pieces[k];
    first, from, to := p.wordFrom, p.textFrom, p.textTo;
    PieceCutBehind(cl, phrase.text, aligned, pieces, k);
    PieceBegins(cl, phrase.text, aligned, pieces, k);
    PiecesCounted(cl, phrase, aligned, pieces, Split(cl, phrase));
    WordCountIs(pieces, Split(cl, phrase), k);
    PieceHoldsWords(cl, phrase, aligned, pieces, k);
  }

  lemma PieceHoldsWords(cl: Classes, phrase: Phrase, aligned: seq<Aligned>, pieces: seq<Piece>, k: nat)
    requires k < |pieces| && AlignedInOrder(phrase.text, aligned) && PiecesTile(cl, phrase.text, aligned, pieces, 0, 0)
    ensures HasWords(aligned, pieces[k])
    ensures GroupWords(cl, phrase.text, aligned, GroupOf(cl, phrase, aligned, pieces[k]), pieces[k].wordFrom,
                       pieces[k].textFrom, pieces[k].textTo)
  {
    var p := pieces[k];
    PieceBounds(cl, phrase.text, aligned, pieces, k);
    GoodPieceWords(cl, phrase.text, aligned, p);
    forall j: nat | j < p.wordTo - p.wordFrom
      ensures GroupWord(cl, phrase.text, aligned, GroupOf(cl, phrase, aligned, p), p.wordFrom, p.textFrom, p.textTo, j)
    {
      PieceWordRight(cl, phrase, aligned, p, j);
    }
  }

  // ----- The loops -----

  lemma {:induction false} AlignStuck(cl: Classes, text: string, f: Frame, words: seq<Word>, n: nat)
    requires n <= |words| && AlignAll(cl, text, f, words[..n]).None?
    ensures AlignAll(cl, text, f, words).None?
    decreases |words|
  {
    if n < |words| {
      assert words[..|words| - 1][..n] == words[..n];
      AlignStuck(cl, text, f, words[..|words| - 1], n);
    } else {
      assert words[..n] == words;
    }
  }

  method AlignWord(cl: Classes, text: string, positions: seq<nat>, content: string, f: Frame, s: Scan, w: Word)
    returns (next: Option<Scan>)
    requires positions == LexicalPositions(cl, text) && content == Content(cl, text)
    ensures next == AlignOne(cl, text, f, s, w)
  {
    if Blank(cl, w.text) || w.start < s.previousEnd || w.start >= w.end
        || (f.timed && (w.start < f.start || w.end > f.end)) {
      return None;
    }
    var token := Content(cl, w.text);
    if token == [] {
      var gapEnd := if s.cursor < |positions| then positions[s.cursor] else |text|;
      var mark := Strip(cl, w.text);
      var at := Find(text, mark, s.rawCursor, gapEnd);
      if at.None? { return Some(s.(previousEnd := w.end)); }
      var rawEnd := at.value + |mark|;
      return Some(Scan(s.cursor, rawEnd, w.end, s.aligned + [Aligned(at.value, rawEnd, w.start, w.end)]));
    }
    if s.cursor + |token| > |content| || content[s.cursor..s.cursor + |token|] != token { return None; }
    var rawStart := positions[s.cursor];
    var cursor := s.cursor + |token|;
    var rawEnd := positions[cursor - 1] + 1;
    return Some(Scan(cursor, rawEnd, w.end, s.aligned + [Aligned(rawStart, rawEnd, w.start, w.end)]));
  }

  /** Aligns every repaired word, or gives up at the first one the text does not support. */
  method AlignWords(cl: Classes, phrase: Phrase) returns (evidence: Option<seq<Aligned>>)
    ensures evidence == Evidence(cl, phrase)
  {
    var f := Frame(phrase.start, phrase.end, phrase.timed);
    var positions := Positions(cl, phrase.text);
    var content := Content(cl, phrase.text);
    var words := RepairWordTimes(phrase.words, f);
    var s := Scan(0, 0, -1, []);
    for n := 0 to |words|
      invariant AlignAll(cl, phrase.text, f, words[..n]) == Some(s)
    {
      AlignNext(cl, phrase.text, f, words, n);
      var next := AlignWord(cl, phrase.text, positions, content, f, s, words[n]);
      if next.None? {
        AlignStuck(cl, phrase.text, f, words, n + 1);
        return None;
      }
      s := next.value;
    }
    assert words[..|words|] == words;
    if s.cursor != |positions| || s.aligned == [] { return None; }
    return Some(s.aligned);
  }

  lemma AlignNext(cl: Classes, text: string, f: Frame, words: seq<Word>, n: nat)
    requires n < |words| && AlignAll(cl, text, f, words[..n]).Some?
    ensures AlignAll(cl, text, f, words[..n + 1])
        == AlignOne(cl, text, f, AlignAll(cl, text, f, words[..n]).value, words[n])
  {
    assert words[..n + 1][..n] == words[..n];
  }

  method SplitTimedPhrase(cl: Classes, phrase: Phrase) returns (groups: seq<Phrase>)
    ensures groups == Split(cl, phrase)
  {
    var evidence := AlignWords(cl, phrase);
    if evidence.None? { return [phrase.(words := [])]; }
    ghost var aligned, pieces := SplitPieces(cl, phrase);
    forall k | 0 <= k < |pieces| ensures WordsInPiece(aligned, pieces[k], |phrase.text|) {
      PieceBounds(cl, phrase.text, aligned, pieces, k);
      GoodPieceWords(cl, phrase.text, aligned, pieces[k]);
    }
    groups := CutAtSentenceEnds(cl, phrase, evidence.value, pieces, Split(cl, phrase));
  }

  method CutAtSentenceEnds(cl: Classes, phrase: Phrase, aligned: seq<Aligned>, ghost pieces: seq<Piece>,
                           ghost expected: seq<Phrase>)
    returns (groups: seq<Phrase>)
    requires pieces == PiecesFrom(cl, phrase.text, aligned, 0, 0, 0) != []
        && pieces[|pieces| - 1].textTo == |phrase.text|
    requires forall k :: 0 <= k < |pieces| ==> WordsInPiece(aligned, pieces[k], |phrase.text|)
    requires AreGroups(cl, phrase, aligned, pieces, expected)
    ensures groups == expected
  {
    var text := phrase.text;
    var spans := Spans(cl, text);
    ghost var done: nat := 0;
    groups := [];
    var textStart: nat, wordStart: nat := 0, 0;
    for index := 0 to |aligned|
      invariant Cutting(cl, text, aligned, pieces, done, index, textStart, wordStart)
      invariant groups == expected[..done]
    {
      var nextStart := if index + 1 < |aligned| then aligned[index + 1].from else |text|;
      var end := LastEndWithin(spans, aligned[index].to, nextStart);
      CuttingNext(cl, text, aligned, pieces, done, index, textStart, wordStart, end);
      if end.None? { continue; }
      var g := MakeGroup(cl, phrase, aligned, textStart, end.value, wordStart, index);
      GroupNext(cl, phrase, aligned, pieces, expected, done, g);
      groups := groups + [g];
      textStart, wordStart, done := end.value, index + 1, done + 1;
    }
    assert done == |pieces|;
    // The text's last sentence end is the end of the text, so the text is used up here.
    assert textStart == |text|;
  }

  lemma GroupNext(cl: Classes, phrase: Phrase, aligned: seq<Aligned>, pieces: seq<Piece>, expected: seq<Phrase>,
                  done: nat, g: Phrase)
    requires AreGroups(cl, phrase, aligned, pieces, expected) && done < |pieces|
    requires HasWords(aligned, pieces[done]) && g == GroupOf(cl, phrase, aligned, pieces[done])
    ensures expected[..done + 1] == expected[..done] + [g]
  {
    assert expected[done] == g;
  }

  /** After the words before index: the pieces cut off so far, and those still to come. */
  ghost predicate Cutting(cl: Classes, text: string, aligned: seq<Aligned>, pieces: seq<Piece>, done: nat, index: nat,
                          textStart: nat, wordStart: nat) {
    && index <= |aligned| && done <= |pieces|
    && pieces[done..] == PiecesFrom(cl, text, aligned, index, textStart, wordStart)
    && (done > 0 ==> textStart == pieces[done - 1].textTo)
  }

  lemma CuttingNext(cl: Classes, text: string, aligned: seq<Aligned>, pieces: seq<Piece>, done: nat, index: nat,
                    textStart: nat, wordStart: nat,
                    end: Option<nat>)
    requires Cutting(cl, text, aligned, pieces, done, index, textStart, wordStart) && index < |aligned|
    requires end == LastEndWithin(SentenceSpans(cl, text), aligned[index].to, NextStart(text, aligned, index))
    ensures end.None? ==> Cutting(cl, text, aligned, pieces, done, index + 1, textStart, wordStart)
    ensures end.Some? ==> done < |pieces| && pieces[done] == Piece(textStart, end.value, wordStart, index + 1)
    ensures end.Some? ==> Cutting(cl, text, aligned, pieces, done + 1, index + 1, end.value, index + 1)
  {
    if end.Some? {
      PieceNext(pieces, done, Piece(textStart, end.value, wordStart, index + 1),
                PiecesFrom(cl, text, aligned, index + 1, end.value, index + 1));
    }
  }

  lemma PieceNext(pieces: seq<Piece>, done: nat, p: Piece, rest: seq<Piece>)
    requires done <= |pieces| && pieces[done..] == [p] + rest
    ensures done < |pieces| && pieces[done] == p && pieces[done + 1..] == rest
  {
    assert pieces[done] == pieces[done..][0];
    assert pieces[done + 1..] == pieces[done..][1..];
  }

  method MakeGroup(cl: Classes, phrase: Phrase, aligned: seq<Aligned>, textStart: nat, textEnd: nat, wordStart: nat,
                   index: nat)
    returns (g: Phrase)
    requires WordsInPiece(aligned, Piece(textStart, textEnd, wordStart, index + 1), |phrase.text|)
    ensures g == GroupOf(cl, phrase, aligned, Piece(textStart, textEnd, wordStart, index + 1))
  {
    ghost var p := Piece(textStart, textEnd, wordStart, index + 1);
    var words: seq<Word> := [];
    for k := wordStart to index + 1
      invariant words == PieceWords(cl, phrase.text, aligned, p)[..k - wordStart]
    {
      assert p.textFrom <= WordFrom(aligned, p, k) <= WordTo(aligned, p, k) <= p.textTo;
      var from := if k == wordStart then textStart else aligned[k].from;
      var to := if k < index then aligned[k + 1].from else textEnd;
      assert PieceWords(cl, phrase.text, aligned, p)[k - wordStart] == WordOf(cl, phrase.text, aligned, p, k);
      words := words + [Word(Strip(cl, phrase.text[from..to]), aligned[k].start, aligned[k].end)];
    }
    g := Phrase(Strip(cl, phrase.text[textStart..textEnd]), aligned[wordStart].start, aligned[index].end,
                phrase.language, phrase.speaker, true, words);
  }
}
