/** Words that recognition attached to the previous phrase, given back to the phrase whose text has them. */
module Seams {
  import opened Common
  import opened CharacterClasses
  import opened Sentences
  import opened WordTimes
  import opened Mai

  const RESYNC_CHARACTERS := 8

  /** The lexical characters of the words' tokens, put together. */
  function Spoken(cl: Classes, words: seq<Word>): string {
    Content(cl, Joined(words))
  }

  /** How many of the first k words stay: words go from the end while the rest says more than the text. */
  function KeepCount(cl: Classes, words: seq<Word>, limit: nat, k: nat): (r: nat)
    requires k <= |words|
    ensures r <= k
  {
    if k > 0 && |Spoken(cl, words[..k])| > limit then KeepCount(cl, words, limit, k - 1) else k
  }

  datatype Seam = Seam(kept: seq<Word>, moved: seq<Word>)

  /** The words of a phrase divided into those its text accounts for and the rest, dividing the token that
      straddles the boundary after the missing lexical characters. */
  function Divide(cl: Classes, text: string, words: seq<Word>): Seam {
    var k := KeepCount(cl, words, |Content(cl, text)|, |words|);
    var kept, moved := words[..k], words[k..];
    var missing := |Content(cl, text)| - |Spoken(cl, kept)|;
    if moved != [] && 0 < missing < |LexicalPositions(cl, moved[0].text)| then
      var w, split := moved[0], LexicalPositions(cl, moved[0].text)[missing];
      Seam(kept + [Word(w.text[..split], w.start, w.end)], [Word(w.text[split..], w.start, w.end)] + moved[1..])
    else Seam(kept, moved)
  }

  function Take(s: string, n: nat): string {
    if n <= |s| then s[..n] else s
  }

  /** The move is made only when the kept words say exactly this phrase's text, and the moved words say
      the beginning of the next phrase's text, where its own first words then continue. */
  predicate Confirmed(cl: Classes, current: Phrase, following: Phrase, seam: Seam) {
    var prefix, rest := Spoken(cl, seam.moved), Content(cl, following.text);
    && seam.moved != []
    && Spoken(cl, seam.kept) == Content(cl, current.text)
    && prefix <= rest
    && Take(Spoken(cl, following.words), RESYNC_CHARACTERS) <= rest[|prefix|..]
  }

  function TakeBack(cl: Classes, current: Phrase, following: Phrase): (Phrase, Phrase) {
    var seam := Divide(cl, current.text, current.words);
    if Confirmed(cl, current, following, seam) then
      (current.(words := seam.kept), following.(words := seam.moved + following.words))
    else (current, following)
  }

  /** The phrases after the first n seams have been looked at, from left to right. */
  function Reassigned(cl: Classes, phrases: seq<Phrase>, n: nat): (r: seq<Phrase>)
    requires n == 0 || n < |phrases|
    ensures |r| == |phrases|
  {
    if n == 0 then phrases
    else
      AtSeam(cl, Reassigned(cl, phrases, n - 1), n)
  }

  function AtSeam(cl: Classes, phrases: seq<Phrase>, n: nat): (r: seq<Phrase>)
    requires 0 < n < |phrases|
    ensures |r| == |phrases|
  {
    var (a, b) := TakeBack(cl, phrases[n - 1], phrases[n]);
    phrases[n - 1 := a][n := b]
  }

  // ----- What it keeps -----

  /** All tokens of all phrases, in order. */
  function Tokens(phrases: seq<Phrase>): string {
    if phrases == [] then "" else Tokens(phrases[..|phrases| - 1]) + Joined(phrases[|phrases| - 1].words)
  }

  function WithoutWords(phrases: seq<Phrase>): (r: seq<Phrase>)
    ensures |r| == |phrases|
  {
    seq(|phrases|, k requires 0 <= k < |phrases| => phrases[k].(words := []))
  }

  predicate SameButWords(a: seq<Phrase>, b: seq<Phrase>) { WithoutWords(a) == WithoutWords(b) }

  lemma JoinedOne(w: Word)
    ensures Joined([w]) == w.text
  {
    assert [w][..0] == [];
  }

  /** Dividing one token between the two lists keeps the text. */
  lemma DivideTokenKeeps(kept: seq<Word>, w: Word, left: Word, right: Word, rest: seq<Word>)
    requires left.text + right.text == w.text
    ensures Joined(kept + [left]) + Joined([right] + rest) == Joined(kept) + Joined([w] + rest)
  {
    JoinedConcat(kept, [left]);
    JoinedConcat([right], rest);
    JoinedConcat([w], rest);
    JoinedOne(left);
    JoinedOne(right);
    JoinedOne(w);
    Regroup(Joined(kept), left.text, right.text, Joined(rest));
  }

  lemma Regroup(a: string, b: string, c: string, d: string)
    ensures (a + b) + (c + d) == a + ((b + c) + d)
  {
  }

  lemma DivideKeeps(cl: Classes, text: string, words: seq<Word>)
    ensures var seam := Divide(cl, text, words); Joined(seam.kept) + Joined(seam.moved) == Joined(words)
  {
    var k := KeepCount(cl, words, |Content(cl, text)|, |words|);
    var kept, moved := words[..k], words[k..];
    assert kept + moved == words;
    JoinedConcat(kept, moved);
    var missing := |Content(cl, text)| - |Spoken(cl, kept)|;
    if moved != [] && 0 < missing < |LexicalPositions(cl, moved[0].text)| {
      var w, split := moved[0], LexicalPositions(cl, moved[0].text)[missing];
      assert [w] + moved[1..] == moved;
      assert w.text[..split] + w.text[split..] == w.text;
      DivideTokenKeeps(kept, w, Word(w.text[..split], w.start, w.end), Word(w.text[split..], w.start, w.end),
                       moved[1..]);
    }
  }

  lemma TakeBackKeeps(cl: Classes, current: Phrase, following: Phrase)
    ensures var (a, b) := TakeBack(cl, current, following);
            && Joined(a.words) + Joined(b.words) == Joined(current.words) + Joined(following.words)
            && a.(words := []) == current.(words := []) && b.(words := []) == following.(words := [])
  {
    var seam := Divide(cl, current.text, current.words);
    DivideKeeps(cl, current.text, current.words);
    JoinedConcat(seam.moved, following.words);
    assert Joined(seam.kept) + (Joined(seam.moved) + Joined(following.words))
        == Joined(seam.kept) + Joined(seam.moved) + Joined(following.words);
  }

  lemma TokensAppend(phrases: seq<Phrase>, p: Phrase)
    ensures Tokens(phrases + [p]) == Tokens(phrases) + Joined(p.words)
  {
    assert (phrases + [p])[..|phrases|] == phrases;
  }

  lemma {:induction false} TokensConcat(a: seq<Phrase>, b: seq<Phrase>)
    ensures Tokens(a + b) == Tokens(a) + Tokens(b)
  {
    if b == [] {
      assert a + b == a;
    } else {
      var front, last := b[..|b| - 1], b[|b| - 1];
      TokensConcat(a, front);
      assert a + b == a + front + [last];
      TokensAppend(a + front, last);
      Associate(Tokens(a), Tokens(front), Joined(last.words));
    }
  }

  lemma Associate(a: string, b: string, c: string)
    ensures (a + b) + c == a + (b + c)
  {
  }

  lemma TokensTwo(p: Phrase, q: Phrase)
    ensures Tokens([p, q]) == Joined(p.words) + Joined(q.words)
  {
    assert [p, q][..1] == [p] && [p][..0] == [];
    assert Tokens([p]) == Tokens([]) + Joined(p.words) == Joined(p.words);
  }

  lemma TokensUpdateTwo(phrases: seq<Phrase>, n: nat, a: Phrase, b: Phrase)
    requires 0 < n < |phrases|
    requires Joined(a.words) + Joined(b.words) == Joined(phrases[n - 1].words) + Joined(phrases[n].words)
    ensures Tokens(phrases[n - 1 := a][n := b]) == Tokens(phrases)
  {
    var front, back := phrases[..n - 1], phrases[n + 1..];
    var p, q := phrases[n - 1], phrases[n];
    assert phrases == front + [p, q] + back && phrases[n - 1 := a][n := b] == front + [a, b] + back;
    TokensConcat(front + [p, q], back);
    TokensConcat(front, [p, q]);
    TokensConcat(front + [a, b], back);
    TokensConcat(front, [a, b]);
    TokensTwo(p, q);
    TokensTwo(a, b);
  }

  lemma SeamKeeps(cl: Classes, phrases: seq<Phrase>, n: nat)
    requires 0 < n < |phrases|
    ensures SameButWords(AtSeam(cl, phrases, n), phrases)
    ensures Tokens(AtSeam(cl, phrases, n)) == Tokens(phrases)
  {
    TakeBackKeeps(cl, phrases[n - 1], phrases[n]);
    var (a, b) := TakeBack(cl, phrases[n - 1], phrases[n]);
    TokensUpdateTwo(phrases, n, a, b);
    SameUpdateTwo(phrases, n, a, b);
  }

  lemma SameUpdateTwo(phrases: seq<Phrase>, n: nat, a: Phrase, b: Phrase)
    requires 0 < n < |phrases|
    requires a.(words := []) == phrases[n - 1].(words := []) && b.(words := []) == phrases[n].(words := [])
    ensures SameButWords(phrases[n - 1 := a][n := b], phrases)
  {
  }

  lemma SeamChain(cl: Classes, before: seq<Phrase>, phrases: seq<Phrase>, n: nat, after: seq<Phrase>)
    requires SameButWords(before, phrases) && Tokens(before) == Tokens(phrases) && 0 < n < |phrases|
    requires after == AtSeam(cl, before, n)
    ensures SameButWords(after, phrases) && Tokens(after) == Tokens(phrases)
  {
    SeamKeeps(cl, before, n);
  }

  /** Reassignment changes no phrase but its words, and keeps the concatenation of all word tokens. */
  lemma {:induction false} ReassignKeeps(cl: Classes, phrases: seq<Phrase>, n: nat)
    requires n == 0 || n < |phrases|
    ensures SameButWords(Reassigned(cl, phrases, n), phrases)
    ensures Tokens(Reassigned(cl, phrases, n)) == Tokens(phrases)
  {
    if n > 0 {
      ReassignKeeps(cl, phrases, n - 1);
      SeamChain(cl, Reassigned(cl, phrases, n - 1), phrases, n, Reassigned(cl, phrases, n));
    }
  }

  /** A phrase that gave words away says exactly its own text afterwards. */
  lemma GivingPhraseIsExact(cl: Classes, current: Phrase, following: Phrase)
    requires TakeBack(cl, current, following).0 != current
    ensures Spoken(cl, TakeBack(cl, current, following).0.words) == Content(cl, current.text)
    ensures TakeBack(cl, current, following).1.words != following.words
  {
    var seam := Divide(cl, current.text, current.words);
    assert |seam.moved + following.words| > |following.words|;
  }

  // ----- Which words move -----

  /** The kept words say the giver's text exactly; the moved ones say the beginning of the receiver's text, and the
      first eight characters the receiver already said come right after. */
  predicate Fits(cl: Classes, current: Phrase, following: Phrase, seam: Seam) {
    var prefix, rest, resumed := Spoken(cl, seam.moved), Content(cl, following.text), Spoken(cl, following.words);
    && seam.moved != [] && Spoken(cl, seam.kept) == Content(cl, current.text)
    && |prefix| <= |rest| && prefix == rest[..|prefix|]
    && (if |resumed| <= 8 then resumed else resumed[..8]) <= rest[|prefix|..]
  }

  /** The word k is the first of which something goes: all words before it say no more than the text, and with any
      longer beginning of the words they say more. */
  ghost predicate FirstToGo(cl: Classes, text: string, words: seq<Word>, k: nat) {
    && k < |words| && |Spoken(cl, words[..k])| <= |Content(cl, text)|
    && forall j :: k < j <= |words| ==> |Spoken(cl, words[..j])| > |Content(cl, text)|
  }

  predicate LexicalBehind(cl: Classes, text: string, i: nat, count: nat) {
    i < |text| && Lexical(cl, text, i) && |LexicalBefore(cl, text, i)| == count
  }

  function CutBefore(words: seq<Word>, k: nat, split: nat): Seam
    requires k < |words| && split <= |words[k].text|
  {
    var w := words[k];
    Seam(words[..k] + [Word(w.text[..split], w.start, w.end)], [Word(w.text[split..], w.start, w.end)] + words[k + 1..])
  }

  /** That word goes as a whole if nothing is missing before it, or more than it has; else it is cut before the lexical
      character that has as many before it as are missing. */
  ghost predicate CutInWord(cl: Classes, text: string, words: seq<Word>, k: nat, seam: Seam)
    requires k < |words|
  {
    var w, missing := words[k], |Content(cl, text)| - |Spoken(cl, words[..k])|;
    if 0 < missing < |Content(cl, w.text)| then
      exists split: nat :: LexicalBehind(cl, w.text, split, missing) && seam == CutBefore(words, k, split)
    else seam == Seam(words[..k], words[k..])
  }

  /** The division that gives up as few words as may be. */
  ghost predicate Division(cl: Classes, text: string, words: seq<Word>, seam: Seam) {
    exists k: nat :: FirstToGo(cl, text, words, k) && CutInWord(cl, text, words, k, seam)
  }

  /** At one seam the words of that division move if it fits; if there is none, or it does not fit, nothing changes. */
  ghost predicate SeamDecided(cl: Classes, current: Phrase, following: Phrase, a: Phrase, b: Phrase) {
    || (exists seam :: Division(cl, current.text, current.words, seam) && Fits(cl, current, following, seam)
          && a == current.(words := seam.kept) && b == following.(words := seam.moved + following.words))
    || (a == current && b == following
        && forall seam :: Division(cl, current.text, current.words, seam) ==> !Fits(cl, current, following, seam))
  }

  lemma {:induction false} KeepCountMeans(cl: Classes, words: seq<Word>, limit: nat, k: nat)
    requires k <= |words|
    ensures |Spoken(cl, words[..KeepCount(cl, words, limit, k)])| <= limit
    ensures forall j :: KeepCount(cl, words, limit, k) < j <= k ==> |Spoken(cl, words[..j])| > limit
  {
    if k > 0 && |Spoken(cl, words[..k])| > limit { KeepCountMeans(cl, words, limit, k - 1); }
    assert words[..0] == [];
  }

  lemma {:induction false} LexicalAt(cl: Classes, text: string, n: nat, m: nat)
    requires n <= |text| && m < |LexicalBefore(cl, text, n)|
    ensures var p := LexicalBefore(cl, text, n)[m]; Lexical(cl, text, p) && |LexicalBefore(cl, text, p)| == m
  {
    if m < |LexicalBefore(cl, text, n - 1)| { LexicalAt(cl, text, n - 1, m); }
  }

  lemma {:induction false} LexicalGrows(cl: Classes, text: string, p: nat, n: nat)
    requires p < n <= |text| && Lexical(cl, text, p)
    ensures |LexicalBefore(cl, text, p)| < |LexicalBefore(cl, text, n)|
  {
    if p < n - 1 { LexicalGrows(cl, text, p, n - 1); }
  }

  lemma CutOnce(cl: Classes, text: string, p: nat, q: nat)
    requires p < |text| && q < |text| && Lexical(cl, text, p) && Lexical(cl, text, q)
    requires |LexicalBefore(cl, text, p)| == |LexicalBefore(cl, text, q)|
    ensures p == q
  {
    if p < q { LexicalGrows(cl, text, p, q); } else if q < p { LexicalGrows(cl, text, q, p); }
  }

  /** Words that say too much have one division, and it is the one made. */
  lemma DivideDivides(cl: Classes, text: string, words: seq<Word>)
    requires |Spoken(cl, words)| > |Content(cl, text)|
    ensures Divide(cl, text, words).moved != [] && Division(cl, text, words, Divide(cl, text, words))
  {
    var limit := |Content(cl, text)|;
    var k := KeepCount(cl, words, limit, |words|);
    KeepCountMeans(cl, words, limit, |words|);
    assert words[..|words|] == words;
    assert FirstToGo(cl, text, words, k);
    DivideCuts(cl, text, words, k);
  }

  lemma DivideCuts(cl: Classes, text: string, words: seq<Word>, k: nat)
    requires k == KeepCount(cl, words, |Content(cl, text)|, |words|) && k < |words|
    ensures Divide(cl, text, words).moved != [] && CutInWord(cl, text, words, k, Divide(cl, text, words))
  {
    var missing := |Content(cl, text)| - |Spoken(cl, words[..k])|;
    assert words[k..][0] == words[k] && words[k..][1..] == words[k + 1..];
    if 0 < missing < |Content(cl, words[k].text)| {
      LexicalAt(cl, words[k].text, |words[k].text|, missing);
      var split := LexicalPositions(cl, words[k].text)[missing];
      assert LexicalBehind(cl, words[k].text, split, missing);
      assert Divide(cl, text, words) == CutBefore(words, k, split);
    }
  }

  lemma DividedOnce(cl: Classes, text: string, words: seq<Word>, one: Seam, other: Seam)
    requires Division(cl, text, words, one) && Division(cl, text, words, other)
    ensures one == other
  {
    var j: nat :| FirstToGo(cl, text, words, j) && CutInWord(cl, text, words, j, one);
    var k: nat :| FirstToGo(cl, text, words, k) && CutInWord(cl, text, words, k, other);
    FirstOnce(cl, text, words, j, k);
    CutInWordOnce(cl, text, words, k, one, other);
  }

  lemma FirstOnce(cl: Classes, text: string, words: seq<Word>, j: nat, k: nat)
    requires FirstToGo(cl, text, words, j) && FirstToGo(cl, text, words, k)
    ensures j == k
  {
  }

  lemma CutInWordOnce(cl: Classes, text: string, words: seq<Word>, k: nat, one: Seam, other: Seam)
    requires k < |words| && CutInWord(cl, text, words, k, one) && CutInWord(cl, text, words, k, other)
    ensures one == other
  {
    var w, missing := words[k], |Content(cl, text)| - |Spoken(cl, words[..k])|;
    if 0 < missing < |Content(cl, w.text)| {
      var p: nat :| LexicalBehind(cl, w.text, p, missing) && one == CutBefore(words, k, p);
      var q: nat :| LexicalBehind(cl, w.text, q, missing) && other == CutBefore(words, k, q);
      CutOnce(cl, w.text, p, q);
    }
  }

  /** Words that do not say too much have no division. */
  lemma NoDivision(cl: Classes, text: string, words: seq<Word>)
    requires |Spoken(cl, words)| <= |Content(cl, text)|
    ensures Divide(cl, text, words).moved == [] && forall seam :: !Division(cl, text, words, seam)
  {
    assert words[..|words|] == words;
    assert KeepCount(cl, words, |Content(cl, text)|, |words|) == |words|;
  }

  lemma FitsConfirmed(cl: Classes, current: Phrase, following: Phrase, seam: Seam)
    ensures Fits(cl, current, following, seam) <==> Confirmed(cl, current, following, seam)
  {
  }

  lemma TakeBackDecides(cl: Classes, current: Phrase, following: Phrase)
    ensures var (a, b) := TakeBack(cl, current, following); SeamDecided(cl, current, following, a, b)
  {
    var seam := Divide(cl, current.text, current.words);
    FitsConfirmed(cl, current, following, seam);
    if |Spoken(cl, current.words)| > |Content(cl, current.text)| {
      DivideDivides(cl, current.text, current.words);
      forall other | Division(cl, current.text, current.words, other) ensures other == seam {
        DividedOnce(cl, current.text, current.words, other, seam);
      }
    } else {
      NoDivision(cl, current.text, current.words);
    }
  }

  /** Seam n is decided, and every phrase not at it stays. */
  ghost predicate SeamStep(cl: Classes, before: seq<Phrase>, after: seq<Phrase>, n: nat) {
    && 0 < n < |before| && |after| == |before|
    && after == before[n - 1 := after[n - 1]][n := after[n]]
    && SeamDecided(cl, before[n - 1], before[n], after[n - 1], after[n])
  }

  /** All seams decided one after another, from left to right. */
  ghost predicate SeamsDecided(cl: Classes, phrases: seq<Phrase>, stages: seq<seq<Phrase>>, result: seq<Phrase>) {
    && |stages| == Max(|phrases|, 1) && stages[0] == phrases && stages[|stages| - 1] == result
    && forall n: nat :: 0 < n < |stages| ==> SeamStep(cl, stages[n - 1], stages[n], n)
  }

  function Stages(cl: Classes, phrases: seq<Phrase>, n: nat): (stages: seq<seq<Phrase>>)
    requires n == 0 || n < |phrases|
    ensures |stages| == n + 1
  {
    if n == 0 then [phrases] else Stages(cl, phrases, n - 1) + [Reassigned(cl, phrases, n)]
  }

  lemma SeamIsDecided(cl: Classes, before: seq<Phrase>, n: nat)
    requires 0 < n < |before|
    ensures SeamStep(cl, before, AtSeam(cl, before, n), n)
  {
    TakeBackDecides(cl, before[n - 1], before[n]);
  }

  lemma {:induction false} StagesDecided(cl: Classes, phrases: seq<Phrase>, n: nat)
    requires n == 0 || n < |phrases|
    ensures var stages := Stages(cl, phrases, n); stages[0] == phrases && stages[n] == Reassigned(cl, phrases, n)
    ensures forall j: nat :: 0 < j <= n ==> SeamStep(cl, Stages(cl, phrases, n)[j - 1], Stages(cl, phrases, n)[j], j)
  {
    if n > 0 {
      StagesDecided(cl, phrases, n - 1);
      SeamIsDecided(cl, Reassigned(cl, phrases, n - 1), n);
      var stages, before := Stages(cl, phrases, n), Stages(cl, phrases, n - 1);
      forall j: nat | 0 < j <= n ensures SeamStep(cl, stages[j - 1], stages[j], j) {
        if j < n { assert stages[j - 1] == before[j - 1] && stages[j] == before[j]; }
      }
    }
  }

  // ----- Words without separating marks -----

  /** No mark in the text separates digits or letters: what counts are the characters that are no marks. */
  predicate PlainMarks(cl: Classes, text: string) {
    forall i :: 0 <= i < |text| && Lexical(cl, text, i) ==> text[i] !in FORMATTING_MARKS
  }

  predicate Letter(cl: Classes, c: char) { !cl.space(c) && c !in FORMATTING_MARKS }

  function Letters(cl: Classes, s: string): string {
    if s == "" then ""
    else Letters(cl, s[..|s| - 1]) + if Letter(cl, s[|s| - 1]) then [s[|s| - 1]] else ""
  }

  lemma {:induction false} LettersConcat(cl: Classes, a: string, b: string)
    ensures Letters(cl, a + b) == Letters(cl, a) + Letters(cl, b)
  {
    if b == "" {
      assert a + b == a;
    } else {
      assert (a + b)[..|a + b| - 1] == a + b[..|b| - 1];
      LettersConcat(cl, a, b[..|b| - 1]);
    }
  }

  /** The characters at positions. */
  function Chars(text: string, positions: seq<nat>): string
    requires forall k :: 0 <= k < |positions| ==> positions[k] < |text|
  {
    seq(|positions|, k requires 0 <= k < |positions| => text[positions[k]])
  }

  lemma {:induction false} LettersBefore(cl: Classes, text: string, n: nat)
    requires PlainMarks(cl, text) && n <= |text|
    ensures Chars(text, LexicalBefore(cl, text, n)) == Letters(cl, text[..n])
  {
    if n > 0 {
      LettersBefore(cl, text, n - 1);
      assert text[..n][..n - 1] == text[..n - 1];
    }
  }

  lemma PlainContent(cl: Classes, text: string)
    requires PlainMarks(cl, text)
    ensures Content(cl, text) == Letters(cl, text)
  {
    LettersBefore(cl, text, |text|);
    assert text[..|text|] == text;
  }

  /** A piece of such a text is one too. */
  lemma PlainPiece(cl: Classes, a: string, b: string, c: string)
    requires PlainMarks(cl, a + b + c)
    ensures PlainMarks(cl, b)
  {
    var text := a + b + c;
    forall i | 0 <= i < |b| && Lexical(cl, b, i) ensures b[i] !in FORMATTING_MARKS {
      assert text[|a| + i] == b[i];
      assert i > 0 ==> text[|a| + i - 1] == b[i - 1];
      assert i + 1 < |b| ==> text[|a| + i + 1] == b[i + 1];
      assert Lexical(cl, text, |a| + i);
    }
  }

  /** Spoken characters add up over any division of such words. */
  lemma PlainParts(cl: Classes, words: seq<Word>, seam: Seam)
    requires PlainMarks(cl, Joined(words)) && Joined(seam.kept) + Joined(seam.moved) == Joined(words)
    ensures Spoken(cl, seam.kept) == Letters(cl, Joined(seam.kept))
    ensures Spoken(cl, seam.moved) == Letters(cl, Joined(seam.moved))
    ensures Spoken(cl, seam.kept) + Spoken(cl, seam.moved) == Spoken(cl, words)
  {
    var a, b := Joined(seam.kept), Joined(seam.moved);
    assert "" + a + b == Joined(words) == a + b + "";
    PlainPiece(cl, "", a, b);
    PlainPiece(cl, a, b, "");
    PlainContent(cl, a);
    PlainContent(cl, b);
    PlainContent(cl, a + b);
    LettersConcat(cl, a, b);
  }

  lemma PlainWord(cl: Classes, words: seq<Word>, k: nat)
    requires PlainMarks(cl, Joined(words)) && k < |words|
    ensures PlainMarks(cl, words[k].text)
    ensures Spoken(cl, words[..k]) == Letters(cl, Joined(words[..k]))
    ensures Spoken(cl, words[..k + 1]) == Spoken(cl, words[..k]) + Content(cl, words[k].text)
  {
    var front, w, back := words[..k], words[k], words[k + 1..];
    assert words == front + [w] + back && words == words[..k + 1] + back && words == front + words[k..];
    JoinedConcat(front + [w], back);
    JoinedConcat(words[..k + 1], back);
    JoinedConcat(front, words[k..]);
    JoinedConcat(front, [w]);
    JoinedOne(w);
    PlainPiece(cl, Joined(front), w.text, Joined(back));
    PlainParts(cl, words, Seam(front, words[k..]));
    PlainParts(cl, words, Seam(words[..k + 1], back));
    PlainContent(cl, w.text);
    assert words[..k + 1] == front + [w];
    LettersConcat(cl, Joined(front), w.text);
  }

  /** Such words can always be divided right behind the text. */
  lemma PlainDivision(cl: Classes, text: string, words: seq<Word>)
    requires PlainMarks(cl, Joined(words)) && |Spoken(cl, words)| > |Content(cl, text)|
    ensures |Spoken(cl, Divide(cl, text, words).kept)| == |Content(cl, text)|
  {
    var limit, seam := |Content(cl, text)|, Divide(cl, text, words);
    var k := KeepCount(cl, words, limit, |words|);
    KeepCountMeans(cl, words, limit, |words|);
    assert words[..|words|] == words;
    var missing := limit - |Spoken(cl, words[..k])|;
    if missing > 0 {
      PlainWord(cl, words, k);
      assert |Spoken(cl, words[..k + 1])| > limit;
      assert words[k..][0] == words[k];
      var w := words[k];
      var split := LexicalPositions(cl, w.text)[missing];
      LexicalAt(cl, w.text, |w.text|, missing);
      LettersBefore(cl, w.text, split);
      var left := Word(w.text[..split], w.start, w.end);
      assert seam.kept == words[..k] + [left];
      JoinedConcat(words[..k], [left]);
      JoinedOne(left);
      LettersConcat(cl, Joined(words[..k]), left.text);
      DivideKeeps(cl, text, words);
      PlainParts(cl, words, seam);
    }
  }

  lemma FitsWhen(cl: Classes, current: Phrase, following: Phrase, kept: string, moved: string)
    requires var seam := Divide(cl, current.text, current.words);
      seam.moved != [] && kept == Spoken(cl, seam.kept) && moved == Spoken(cl, seam.moved)
    ensures var rest, resumed := Content(cl, following.text), Spoken(cl, following.words);
      TakeBack(cl, current, following) != (current, following) <==>
        && kept == Content(cl, current.text) && moved <= rest
        && (if |resumed| <= 8 then resumed else resumed[..8]) <= rest[|moved|..]
  {
    var seam := Divide(cl, current.text, current.words);
    assert |seam.moved + following.words| > |following.words|;
  }

  lemma PlainSeam(cl: Classes, text: string, words: seq<Word>)
    requires PlainMarks(cl, Joined(words)) && |Spoken(cl, words)| > |Content(cl, text)|
    ensures Spoken(cl, Divide(cl, text, words).kept) == Spoken(cl, words)[..|Content(cl, text)|]
    ensures Spoken(cl, Divide(cl, text, words).moved) == Spoken(cl, words)[|Content(cl, text)|..]
  {
    PlainDivision(cl, text, words);
    DivideKeeps(cl, text, words);
    PlainParts(cl, words, Divide(cl, text, words));
  }

  /** When no mark in the words separates digits or letters, what is said alone decides: words move if and only if the
      giver's words say its own text and then something more, that is how the receiver's text begins, and the
      receiver's first eight characters come next there. */
  lemma PlainMovesIff(cl: Classes, current: Phrase, following: Phrase)
    requires PlainMarks(cl, Joined(current.words))
    ensures var said, own, rest, resumed := Spoken(cl, current.words), Content(cl, current.text),
                                            Content(cl, following.text), Spoken(cl, following.words);
      TakeBack(cl, current, following) != (current, following) <==>
        && |own| < |said| && said[..|own|] == own && said[|own|..] <= rest
        && (if |resumed| <= 8 then resumed else resumed[..8]) <= rest[|said| - |own|..]
  {
    var said, own := Spoken(cl, current.words), Content(cl, current.text);
    if |own| < |said| {
      DivideDivides(cl, current.text, current.words);
      PlainSeam(cl, current.text, current.words);
      FitsWhen(cl, current, following, said[..|own|], said[|own|..]);
    } else {
      NoDivision(cl, current.text, current.words);
    }
  }

  // ----- When a fitting division means that words move -----

  /** A division, anywhere, with which the giver says its own text and something is left to say. */
  ghost predicate LeavesExact(cl: Classes, current: Phrase, seam: Seam) {
    && Joined(seam.kept) + Joined(seam.moved) == Joined(current.words)
    && Spoken(cl, seam.kept) == Content(cl, current.text) && Spoken(cl, seam.moved) != ""
  }

  /** All such divisions leave the same to say as the one that is made. */
  ghost predicate OneReading(cl: Classes, current: Phrase) {
    var made := Divide(cl, current.text, current.words);
    forall seam :: LeavesExact(cl, current, seam) ==>
      Spoken(cl, made.kept) == Content(cl, current.text) && Spoken(cl, made.moved) == Spoken(cl, seam.moved)
  }

  /** Before whatever phrase, if any such division fits, words move. */
  ghost predicate FitMeansMove(cl: Classes, current: Phrase) {
    forall following, seam :: LeavesExact(cl, current, seam) && Fits(cl, current, following, seam) ==>
      TakeBack(cl, current, following) != (current, following)
  }

  /** A blank is space and no letter or digit; two letters are no space. */
  predicate RealLetters(cl: Classes) {
    cl.space(' ') && !cl.decimal(' ') && !cl.digit(' ') && !cl.alnum(' ') && !cl.space('x') && !cl.space('y')
  }

  lemma SpeakingSomething(cl: Classes, words: seq<Word>)
    requires Spoken(cl, words) != ""
    ensures words != []
  {
    assert words == [] ==> Joined(words) == "" && Content(cl, "") == "";
  }

  lemma OneReadingMoves(cl: Classes, current: Phrase, following: Phrase, seam: Seam)
    requires OneReading(cl, current) && LeavesExact(cl, current, seam) && Fits(cl, current, following, seam)
    ensures TakeBack(cl, current, following) != (current, following)
  {
    var made := Divide(cl, current.text, current.words);
    SpeakingSomething(cl, made.moved);
    FitsWhen(cl, current, following, Spoken(cl, made.kept), Spoken(cl, made.moved));
  }

  /** Another word behind a text, set off by a blank. */
  lemma ContentApart(cl: Classes, text: string, x: char)
    requires RealLetters(cl) && (x == 'x' || x == 'y')
    ensures Content(cl, text + [' ', x]) == Content(cl, text) + [x]
  {
    var all, n := text + [' ', x], |text|;
    forall i | 0 <= i < n ensures Lexical(cl, all, i) == Lexical(cl, text, i) {
      assert all[i] == text[i];
      assert i > 0 ==> all[i - 1] == text[i - 1];
      assert i + 1 < n ==> all[i + 1] == text[i + 1];
    }
    SameBefore(cl, text, all, n);
    LetterNoMark(x);
    assert !Lexical(cl, all, n) && Lexical(cl, all, n + 1);
    assert LexicalBefore(cl, all, n + 1) == LexicalBefore(cl, text, n);
    assert LexicalBefore(cl, all, n + 2) == LexicalBefore(cl, text, n) + [n + 1];
  }

  lemma LetterNoMark(x: char)
    requires x == 'x' || x == 'y'
    ensures x !in FORMATTING_MARKS
  {
  }

  lemma {:induction false} SameBefore(cl: Classes, text: string, all: string, n: nat)
    requires n <= |text| <= |all| && forall i :: 0 <= i < n ==> Lexical(cl, all, i) == Lexical(cl, text, i)
    ensures LexicalBefore(cl, all, n) == LexicalBefore(cl, text, n)
  {
    if n > 0 { SameBefore(cl, text, all, n - 1); }
  }

  /** A phrase that says what a division leaves, then one more letter, which it has already said. */
  lemma PhraseAfter(cl: Classes, current: Phrase, seam: Seam, x: char) returns (following: Phrase)
    requires RealLetters(cl) && LeavesExact(cl, current, seam) && (x == 'x' || x == 'y')
    ensures Content(cl, following.text) == Spoken(cl, seam.moved) + [x] && Spoken(cl, following.words) == [x]
    ensures Fits(cl, current, following, seam)
  {
    var word := Word([x], 0, 1);
    following := current.(text := Joined(seam.moved) + [' ', x], words := [word]);
    ContentApart(cl, Joined(seam.moved), x);
    JoinedOne(word);
    LetterNoMark(x);
    assert LexicalBefore(cl, [x], 1) == LexicalBefore(cl, [x], 0) + [0];
    assert Content(cl, [x]) == [x];
    SpeakingSomething(cl, seam.moved);
  }

  /** A letter that does not come at a place in a text. */
  function OtherLetter(text: string, n: nat): char { if n < |text| && text[n] == 'x' then 'y' else 'x' }

  lemma MovesOneReading(cl: Classes, current: Phrase, seam: Seam)
    requires RealLetters(cl) && FitMeansMove(cl, current) && LeavesExact(cl, current, seam)
    ensures var made := Divide(cl, current.text, current.words);
      Spoken(cl, made.kept) == Content(cl, current.text) && Spoken(cl, made.moved) == Spoken(cl, seam.moved)
  {
    var made := Divide(cl, current.text, current.words);
    var kept, moved, left := Spoken(cl, made.kept), Spoken(cl, made.moved), Spoken(cl, seam.moved);
    var x := OtherLetter(left, |moved|);
    var following := PhraseAfter(cl, current, seam, x);
    assert TakeBack(cl, current, following) != (current, following);
    assert made.moved != [];
    FitsWhen(cl, current, following, kept, moved);
    SamePrefix(moved, left, x);
  }

  lemma SamePrefix(moved: string, left: string, x: char)
    requires moved <= left + [x] && [x] <= (left + [x])[|moved|..] && x == OtherLetter(left, |moved|)
    ensures moved == left
  {
    var rest := (left + [x])[|moved|..];
    assert rest[0] == [x][0] && rest[0] == (left + [x])[|moved|];
    assert (left + [x])[..|left|] == left;
  }

  /** Whatever comes after a phrase, a fitting division means that words move, if and only if all divisions that
      leave the phrase exact leave the same to say as the one that is made. */
  lemma FitMovesIff(cl: Classes, current: Phrase)
    requires RealLetters(cl)
    ensures FitMeansMove(cl, current) <==> OneReading(cl, current)
  {
    if OneReading(cl, current) {
      forall following, seam | LeavesExact(cl, current, seam) && Fits(cl, current, following, seam)
        ensures TakeBack(cl, current, following) != (current, following)
      {
        OneReadingMoves(cl, current, following, seam);
      }
    }
    if FitMeansMove(cl, current) {
      forall seam | LeavesExact(cl, current, seam)
        ensures var made := Divide(cl, current.text, current.words);
          Spoken(cl, made.kept) == Content(cl, current.text) && Spoken(cl, made.moved) == Spoken(cl, seam.moved)
      {
        MovesOneReading(cl, current, seam);
      }
    }
  }

  /** So it is for words whose marks separate nothing. */
  lemma PlainOneReading(cl: Classes, current: Phrase)
    requires PlainMarks(cl, Joined(current.words))
    ensures OneReading(cl, current)
  {
    var made, own := Divide(cl, current.text, current.words), Content(cl, current.text);
    forall seam | LeavesExact(cl, current, seam)
      ensures Spoken(cl, made.kept) == own && Spoken(cl, made.moved) == Spoken(cl, seam.moved)
    {
      PlainParts(cl, current.words, seam);
      PlainSeam(cl, current.text, current.words);
    }
  }

  /** Every character counts: none is a space or a mark, but for periods before a decimal digit. */
  predicate AllCount(cl: Classes, text: string) { forall i: nat :: i < |text| ==> Counts(cl, text, i) }

  predicate Counts(cl: Classes, text: string, i: nat)
    requires i < |text|
  {
    Letter(cl, text[i]) || (!cl.space(text[i]) && text[i] == '.' && i + 1 < |text| && cl.decimal(text[i + 1]))
  }

  lemma {:induction false} AllCountBefore(cl: Classes, text: string, n: nat)
    requires AllCount(cl, text) && n <= |text|
    ensures Chars(text, LexicalBefore(cl, text, n)) == text[..n]
  {
    if n > 0 {
      AllCountBefore(cl, text, n - 1);
      assert Counts(cl, text, n - 1);
      assert text[..n] == text[..n - 1] + [text[n - 1]];
    }
  }

  lemma AllCountContent(cl: Classes, text: string)
    requires AllCount(cl, text)
    ensures Content(cl, text) == text
  {
    AllCountBefore(cl, text, |text|);
    assert text[..|text|] == text;
  }

  /** A period at the end does not count. */
  lemma LastPeriodContent(cl: Classes, text: string)
    requires AllCount(cl, text) && '.' in FORMATTING_MARKS
    ensures Content(cl, text + ".") == text
  {
    var all := text + ".";
    assert !Lexical(cl, all, |text|);
    forall i: nat | i < |text| ensures Lexical(cl, all, i) {
      assert Counts(cl, text, i) && all[i] == text[i];
      if i + 1 < |text| { assert all[i + 1] == text[i + 1]; }
    }
    AllLexicalBefore(cl, all, |text|);
    assert LexicalBefore(cl, all, |all|) == LexicalBefore(cl, all, |text|);
  }

  lemma {:induction false} AllLexicalBefore(cl: Classes, text: string, n: nat)
    requires n <= |text| && forall i :: 0 <= i < n ==> Lexical(cl, text, i)
    ensures Chars(text, LexicalBefore(cl, text, n)) == text[..n]
  {
    if n > 0 {
      AllLexicalBefore(cl, text, n - 1);
      assert text[..n] == text[..n - 1] + [text[n - 1]];
    }
  }

  lemma OneWordSays(cl: Classes, a: Word)
    requires AllCount(cl, a.text)
    ensures Spoken(cl, [a]) == a.text
  {
    JoinedOne(a);
    AllCountContent(cl, a.text);
  }

  lemma JoinedPair(a: Word, b: Word)
    ensures Joined([a, b]) == a.text + b.text
  {
    assert [a, b] == [a] + [b];
    JoinedConcat([a], [b]);
    JoinedOne(a);
    JoinedOne(b);
  }

  /** A period behind a word counts only with the word that follows. */
  lemma SeparatedWordsSay(cl: Classes, a: Word, period: Word)
    requires period.text == "." && '.' in FORMATTING_MARKS && AllCount(cl, a.text)
    ensures Spoken(cl, [a, period]) == a.text
  {
    JoinedPair(a, period);
    LastPeriodContent(cl, a.text);
  }

  lemma PairSays(cl: Classes, a: Word, b: Word)
    requires AllCount(cl, a.text + b.text)
    ensures Spoken(cl, [a, b]) == a.text + b.text
  {
    JoinedPair(a, b);
    AllCountContent(cl, a.text + b.text);
  }

  lemma ThreeSay(cl: Classes, a: Word, b: Word, c: Word, text: string)
    requires AllCount(cl, text) && text == a.text + (b.text + c.text)
    ensures Spoken(cl, [a, b, c]) == text
  {
    assert [a, b, c] == [a] + [b, c];
    JoinedConcat([a], [b, c]);
    JoinedOne(a);
    JoinedPair(b, c);
    AllCountContent(cl, text);
  }

  /** With a separating mark it can be otherwise: of words a, "." and b of a phrase a before a phrase "." and b the last
      two say what follows, but the period stays behind and nothing moves. */
  lemma SeparatorStays(cl: Classes, current: Phrase, following: Phrase, a: Word, period: Word, b: Word)
    requires current.words == [a, period, b] && current.text == a.text && following.words == []
    requires following.text == period.text + b.text && period.text == "." && '.' in FORMATTING_MARKS
    requires b.text != "" && b.text[0] != '.' && AllCount(cl, a.text) && AllCount(cl, b.text)
    requires AllCount(cl, period.text + b.text) && AllCount(cl, a.text + (period.text + b.text))
    ensures Fits(cl, current, following, Seam([a], [period, b]))
    ensures TakeBack(cl, current, following) == (current, following)
  {
    OneWordSays(cl, a);
    SeparatedWordsSay(cl, a, period);
    OneWordSays(cl, b);
    PairSays(cl, period, b);
    ThreeSay(cl, a, period, b, a.text + (period.text + b.text));
    AllCountContent(cl, a.text);
    AllCountContent(cl, period.text + b.text);
    assert (period.text + b.text)[0] == '.';
    SeparatedUnmoved(cl, current, following, a, period, b);
    SeparatedFits(cl, current, following, a, period, b);
  }

  lemma SeparatedUnmoved(cl: Classes, current: Phrase, following: Phrase, a: Word, period: Word, b: Word)
    requires current.words == [a, period, b]
    requires |Spoken(cl, [a, period])| == |Content(cl, current.text)| < |Spoken(cl, [a, period, b])|
    requires Spoken(cl, [b]) != "" && Content(cl, following.text) != ""
    requires Spoken(cl, [b])[0] != Content(cl, following.text)[0]
    ensures TakeBack(cl, current, following) == (current, following)
  {
    DivideSeparated(cl, current.text, current.words);
  }

  lemma SeparatedFits(cl: Classes, current: Phrase, following: Phrase, a: Word, period: Word, b: Word)
    requires Spoken(cl, [a]) == Content(cl, current.text) && Spoken(cl, [period, b]) == Content(cl, following.text)
    requires following.words == []
    ensures Fits(cl, current, following, Seam([a], [period, b]))
  {
    assert Joined([]) == "" && Content(cl, "") == "";
  }

  /** For example the words "3", "." and "14". */
  lemma SeparatingMarkStays(cl: Classes) returns (current: Phrase, following: Phrase, seam: Seam)
    requires cl.decimal('1') && !cl.space('3') && !cl.space('.') && !cl.space('1') && !cl.space('4')
    ensures Fits(cl, current, following, seam) && seam.kept + seam.moved == current.words
    ensures TakeBack(cl, current, following) == (current, following)
  {
    var a, period, b := Word("3", 0, 1), Word(".", 1, 2), Word("14", 2, 3);
    current := Phrase("3", 0, 3, "en", None, true, [a, period, b]);
    following := Phrase(".14", 3, 6, "en", None, true, []);
    seam := Seam([a], [period, b]);
    AllCountHere(cl);
    assert "." + "14" == ".14" && "3" + ".14" == "3.14";
    SeparatorStays(cl, current, following, a, period, b);
  }

  lemma AllCountHere(cl: Classes)
    requires cl.decimal('1') && !cl.space('3') && !cl.space('.') && !cl.space('1') && !cl.space('4')
    ensures AllCount(cl, "3") && AllCount(cl, "14") && AllCount(cl, ".14") && AllCount(cl, "3.14")
    ensures '.' in FORMATTING_MARKS
  {
    NoMark('3');
    NoMark('1');
    NoMark('4');
    assert FORMATTING_MARKS[3] == '.';
    assert AllCount(cl, "");
    AllCountMore(cl, '3', "");
    AllCountMore(cl, '4', "");
    AllCountMore(cl, '1', "4");
    AllCountMore(cl, '.', "14");
    AllCountMore(cl, '3', ".14");
    assert ['1'] + "4" == "14" && ['.'] + "14" == ".14" && ['3'] + ".14" == "3.14";
    assert ['3'] + "" == "3" && ['4'] + "" == "4";
  }

  lemma NoMark(c: char)
    requires c == '3' || c == '1' || c == '4'
    ensures c !in FORMATTING_MARKS
  {
  }

  lemma AllCountMore(cl: Classes, c: char, text: string)
    requires AllCount(cl, text)
    requires Letter(cl, c) || (!cl.space(c) && c == '.' && text != "" && cl.decimal(text[0]))
    ensures AllCount(cl, [c] + text)
  {
    forall i: nat | i < |[c] + text| ensures Counts(cl, [c] + text, i) {
      if i > 0 { assert Counts(cl, text, i - 1); }
    }
  }

  lemma DivideSeparated(cl: Classes, text: string, words: seq<Word>)
    requires |words| == 3 && |Spoken(cl, words)| > |Content(cl, text)| == |Spoken(cl, [words[0], words[1]])|
    ensures Divide(cl, text, words) == Seam([words[0], words[1]], [words[2]])
  {
    var limit := |Content(cl, text)|;
    assert words[..3] == words && words[..2] == [words[0], words[1]] && words[2..] == [words[2]];
    assert KeepCount(cl, words, limit, 3) == KeepCount(cl, words, limit, 2) == 2;
  }

  // ----- The loops -----

  lemma KeepNext(cl: Classes, words: seq<Word>, limit: nat, k: nat)
    requires 0 < k <= |words| && |Spoken(cl, words[..k])| > limit
    ensures KeepCount(cl, words, limit, k) == KeepCount(cl, words, limit, k - 1)
    ensures words[..k][..k - 1] == words[..k - 1] && [words[..k][k - 1]] + words[k..] == words[k - 1..]
  {
  }

  /** Moves words from the end while the rest says more than the limit. */
  method DropExcess(cl: Classes, words: seq<Word>, limit: nat) returns (kept: seq<Word>, moved: seq<Word>)
    ensures var k := KeepCount(cl, words, limit, |words|); kept == words[..k] && moved == words[k..]
  {
    kept, moved := words, [];
    while kept != [] && |Spoken(cl, kept)| > limit
      invariant |kept| <= |words| && kept == words[..|kept|] && moved == words[|kept|..]
      invariant KeepCount(cl, words, limit, |kept|) == KeepCount(cl, words, limit, |words|)
      decreases |kept|
    {
      KeepNext(cl, words, limit, |kept|);
      moved := [kept[|kept| - 1]] + moved;
      kept := kept[..|kept| - 1];
    }
  }

  method DivideWords(cl: Classes, text: string, words: seq<Word>) returns (seam: Seam)
    ensures seam == Divide(cl, text, words)
  {
    var content := Content(cl, text);
    var kept, moved := DropExcess(cl, words, |content|);
    var missing := |content| - |Spoken(cl, kept)|;
    if moved != [] {
      var positions := Positions(cl, moved[0].text);
      if 0 < missing < |positions| {
        var w, split := moved[0], positions[missing];
        kept := kept + [Word(w.text[..split], w.start, w.end)];
        moved := [Word(w.text[split..], w.start, w.end)] + moved[1..];
      }
    }
    seam := Seam(kept, moved);
  }

  method LookAtSeam(cl: Classes, current: Phrase, following: Phrase) returns (a: Phrase, b: Phrase)
    ensures (a, b) == TakeBack(cl, current, following)
  {
    a, b := current, following;
    var seam := DivideWords(cl, current.text, current.words);
    var prefix, rest, resumed := Spoken(cl, seam.moved), Content(cl, following.text), Spoken(cl, following.words);
    if seam.moved != [] && Spoken(cl, seam.kept) == Content(cl, current.text)
       && prefix <= rest && Take(resumed, RESYNC_CHARACTERS) <= rest[|prefix|..] {
      a, b := current.(words := seam.kept), following.(words := seam.moved + following.words);
    }
  }

  method ReassignBoundaryWords(cl: Classes, phrases: seq<Phrase>) returns (result: seq<Phrase>)
    ensures result == Reassigned(cl, phrases, if |phrases| <= 1 then 0 else |phrases| - 1)
    ensures SameButWords(result, phrases) && Tokens(result) == Tokens(phrases)
    ensures exists stages :: SeamsDecided(cl, phrases, stages, result)
  {
    var seams := if |phrases| <= 1 then 0 else |phrases| - 1;
    ReassignKeeps(cl, phrases, seams);
    StagesDecided(cl, phrases, seams);
    assert SeamsDecided(cl, phrases, Stages(cl, phrases, seams), Reassigned(cl, phrases, seams));
    if |phrases| <= 1 { return phrases; }
    result := WalkSeams(cl, phrases);
  }

  method WalkSeams(cl: Classes, phrases: seq<Phrase>) returns (result: seq<Phrase>)
    requires |phrases| > 1
    ensures result == Reassigned(cl, phrases, |phrases| - 1)
  {
    result := phrases;
    for index := 0 to |phrases| - 1
      invariant result == Reassigned(cl, phrases, index)
    {
      var a, b := LookAtSeam(cl, result[index], result[index + 1]);
      SeamNext(cl, phrases, index, result, a, b);
      result := result[index := a][index + 1 := b];
    }
  }

  lemma SeamNext(cl: Classes, phrases: seq<Phrase>, index: nat, before: seq<Phrase>, a: Phrase, b: Phrase)
    requires index + 1 < |phrases| && before == Reassigned(cl, phrases, index)
    requires (a, b) == TakeBack(cl, before[index], before[index + 1])
    ensures before[index := a][index + 1 := b] == Reassigned(cl, phrases, index + 1)
  {
  }

  // ----- Locales -----

  const SHORT_LOCALE_CHARACTERS := 12

  predicate Cjk(language: string) { language == "zh" || language == "ja" }

  /** Kana in a phrase guessed to be Chinese or Japanese settle it. */
  predicate HasKana(kana: char -> bool, p: Phrase) {
    Cjk(p.language) && exists i :: 0 <= i < |p.text| && kana(p.text[i])
  }

  function Detected(kana: char -> bool, p: Phrase): string { if HasKana(kana, p) then "ja" else p.language }

  function Neighbours(kana: char -> bool, phrases: seq<Phrase>, k: nat): set<string>
    requires k < |phrases|
  {
    (if k > 0 then {Detected(kana, phrases[k - 1])} else {})
    + (if k + 1 < |phrases| then {Detected(kana, phrases[k + 1])} else {})
  }

  function SmoothedLocale(cl: Classes, kana: char -> bool, phrases: seq<Phrase>, k: nat): string
    requires k < |phrases|
  {
    var locale, around := Detected(kana, phrases[k]), Neighbours(kana, phrases, k);
    if Cjk(locale) && !HasKana(kana, phrases[k]) && |LexicalPositions(cl, phrases[k].text)| <= SHORT_LOCALE_CHARACTERS
    then if around == {"zh"} then "zh" else if around == {"ja"} then "ja" else locale
    else locale
  }

  function Smoothed(cl: Classes, kana: char -> bool, phrases: seq<Phrase>): (r: seq<Phrase>)
    ensures |r| == |phrases|
  {
    seq(|phrases|, k requires 0 <= k < |phrases| => phrases[k].(language := SmoothedLocale(cl, kana, phrases, k)))
  }

  predicate SameButLanguage(a: seq<Phrase>, b: seq<Phrase>) {
    |a| == |b| && forall k :: 0 <= k < |a| ==> a[k].(language := "") == b[k].(language := "")
  }

  /** Smoothing trades Chinese for Japanese and back, touches nothing else, and never overrules kana. */
  lemma SmoothingStaysInside(cl: Classes, kana: char -> bool, phrases: seq<Phrase>, k: nat)
    requires k < |phrases|
    ensures SameButLanguage(Smoothed(cl, kana, phrases), phrases)
    ensures var language := Smoothed(cl, kana, phrases)[k].language;
      && (Cjk(language) <==> Cjk(phrases[k].language))
      && (!Cjk(phrases[k].language) ==> language == phrases[k].language)
      && (HasKana(kana, phrases[k]) ==> language == "ja")
  {
  }

  function OtherCjk(locale: string): string { if locale == "zh" then "ja" else "zh" }

  /** There is a neighbour, and each one was heard in this language. */
  predicate SurroundedBy(kana: char -> bool, phrases: seq<Phrase>, k: nat, language: string)
    requires k < |phrases|
  {
    && |phrases| > 1
    && (k > 0 ==> Detected(kana, phrases[k - 1]) == language)
    && (k + 1 < |phrases| ==> Detected(kana, phrases[k + 1]) == language)
  }

  /** A phrase changes exactly when it is Chinese or Japanese, short, without kana, and all its neighbours speak the
      other one. */
  lemma SmoothingChangesIff(cl: Classes, kana: char -> bool, phrases: seq<Phrase>, k: nat)
    requires k < |phrases|
    ensures var before, after := Detected(kana, phrases[k]), Smoothed(cl, kana, phrases)[k].language;
      && (after == before || after == OtherCjk(before))
      && (after != before <==>
            && Cjk(before) && !HasKana(kana, phrases[k])
                && |LexicalPositions(cl, phrases[k].text)| <= SHORT_LOCALE_CHARACTERS
            && SurroundedBy(kana, phrases, k, OtherCjk(before)))
  {
  }

  // ----- The whole adaptation -----

  function SplitAll(cl: Classes, phrases: seq<Phrase>): seq<Phrase> {
    if phrases == [] then [] else SplitAll(cl, phrases[..|phrases| - 1]) + Split(cl, phrases[|phrases| - 1])
  }

  lemma {:induction false} TextsConcat(a: seq<Phrase>, b: seq<Phrase>)
    ensures Texts(a + b) == Texts(a) + Texts(b)
  {
    if b == [] {
      assert a + b == a;
    } else {
      assert (a + b)[..|a + b| - 1] == a + b[..|b| - 1];
      TextsConcat(a, b[..|b| - 1]);
    }
  }

  lemma SplitConserves(cl: Classes, phrase: Phrase)
    ensures Dense(cl, Texts(Split(cl, phrase))) == Dense(cl, phrase.text)
  {
    SplitFaithful(cl, phrase);
    if Evidence(cl, phrase).None? {
      var one := phrase.(words := []);
      assert [one][..0] == [];
      assert Texts([one]) == "" + one.text == phrase.text;
    }
  }

  lemma {:induction false} SplitAllConserves(cl: Classes, phrases: seq<Phrase>)
    ensures Dense(cl, Texts(SplitAll(cl, phrases))) == Dense(cl, Texts(phrases))
  {
    if phrases != [] {
      var front, last := phrases[..|phrases| - 1], phrases[|phrases| - 1];
      SplitAllConserves(cl, front);
      SplitConserves(cl, last);
      TextsConcat(SplitAll(cl, front), Split(cl, last));
      DenseConcat(cl, Texts(SplitAll(cl, front)), Texts(Split(cl, last)));
      DenseConcat(cl, Texts(front), last.text);
    }
  }

  lemma {:induction false} SameTexts(a: seq<Phrase>, b: seq<Phrase>)
    requires |a| == |b| && forall k :: 0 <= k < |a| ==> a[k].text == b[k].text
    ensures Texts(a) == Texts(b)
  {
    if a != [] { SameTexts(a[..|a| - 1], b[..|b| - 1]); }
  }

  /** From recognised phrases to stored ones: words given back, locales smoothed, sentences split, and no character
      lost. */
  method Adapt(cl: Classes, kana: char -> bool, phrases: seq<Phrase>) returns (result: seq<Phrase>)
    ensures Dense(cl, Texts(result)) == Dense(cl, Texts(phrases))
    ensures exists reassigned :: SameButWords(reassigned, phrases) && Tokens(reassigned) == Tokens(phrases)
                                 && result == SplitAll(cl, Smoothed(cl, kana, reassigned))
  {
    var reassigned := ReassignBoundaryWords(cl, phrases);
    var smoothed := Smoothed(cl, kana, reassigned);
    result := SplitPhrases(cl, smoothed);
    SplitAllConserves(cl, smoothed);
    SmoothedTexts(cl, kana, reassigned, phrases);
  }

  method SplitPhrases(cl: Classes, phrases: seq<Phrase>) returns (result: seq<Phrase>)
    ensures result == SplitAll(cl, phrases)
  {
    result := [];
    for k := 0 to |phrases|
      invariant result == SplitAll(cl, phrases[..k])
    {
      assert phrases[..k + 1][..k] == phrases[..k];
      var groups := SplitTimedPhrase(cl, phrases[k]);
      result := result + groups;
    }
    assert phrases[..|phrases|] == phrases;
  }

  lemma SmoothedTexts(cl: Classes, kana: char -> bool, reassigned: seq<Phrase>, phrases: seq<Phrase>)
    requires SameButWords(reassigned, phrases)
    ensures Texts(Smoothed(cl, kana, reassigned)) == Texts(phrases)
  {
    var smoothed := Smoothed(cl, kana, reassigned);
    forall k | 0 <= k < |phrases| ensures smoothed[k].text == phrases[k].text {
      assert WithoutWords(reassigned)[k].text == WithoutWords(phrases)[k].text;
    }
    SameTexts(smoothed, phrases);
  }
}
