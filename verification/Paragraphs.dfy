/** Readable paragraphs: the grouping and rebalancing policy, what its paragraphs satisfy, and the
    backend's loops proved against it. */
module Paragraphs {
  import opened CharacterClasses
  import opened Sentences

  const PARAGRAPH_CHARACTERS := 300
  const PARAGRAPH_SENTENCES := 6
  const PARAGRAPH_MIN_CHARACTERS := 60

  datatype Slice = Slice(source: nat, start: nat, end: nat)

  /** The sources: their texts, and whether a boundary or a long pause comes before each. */
  datatype Document = Document(cl: Classes, texts: seq<string>, explicit: seq<bool>, pauses: seq<bool>) {
    predicate Aligned() { |explicit| == |texts| && |pauses| == |texts| }

    predicate Has(s: Slice) { s.source < |texts| && s.start <= s.end <= |texts[s.source]| }

    function Piece(s: Slice): string
      requires Has(s)
    {
      texts[s.source][s.start..s.end]
    }

    function Length(s: Slice): nat
      requires Has(s)
    {
      |Strip(cl, Piece(s))|
    }
  }

  predicate HasAll(d: Document, p: seq<Slice>) {
    forall k :: 0 <= k < |p| ==> d.Has(p[k])
  }

  function TextLength(d: Document, p: seq<Slice>): nat
    requires HasAll(d, p)
  {
    if p == [] then 0 else TextLength(d, p[..|p| - 1]) + d.Length(p[|p| - 1])
  }

  /** The text ends with a blank line. */
  predicate EndsBlank(cl: Classes, text: string) {
    exists k :: 0 <= k < |text| && BlankLineAt(text, k) && Blank(cl, text[BlankLineEnd(text, k)..])
  }

  // ----- The slices -----

  function SourceSlices(source: nat, spans: seq<Span>): seq<Slice> {
    seq(|spans|, k requires 0 <= k < |spans| => Slice(source, spans[k].start, spans[k].end))
  }

  /** All sentence slices of the first n sources, in order. */
  function SlicesBefore(d: Document, n: nat): seq<Slice>
    requires n <= |d.texts|
  {
    if n == 0 then [] else SlicesBefore(d, n - 1) + SourceSlices(n - 1, SentenceSpans(d.cl, d.texts[n - 1]))
  }

  lemma {:induction false} SlicesInDocument(d: Document, n: nat)
    requires n <= |d.texts|
    ensures HasAll(d, SlicesBefore(d, n))
  {
    if n > 0 {
      SlicesInDocument(d, n - 1);
      SpansPartition(d.cl, d.texts[n - 1]);
      SpansWithin(SentenceSpans(d.cl, d.texts[n - 1]), 0, |d.texts[n - 1]|);
    }
  }

  lemma SpansWithin(spans: seq<Span>, from: nat, to: nat)
    requires Tiles(spans, from, to)
    ensures forall k :: 0 <= k < |spans| ==> from <= spans[k].start <= spans[k].end <= to
  {
    var k := 0;
    while k < |spans|
      invariant k <= |spans|
      invariant forall j :: 0 <= j < k ==> from <= spans[j].start
    {
      if k > 0 { assert spans[k - 1].end == spans[k - 1 + 1].start; }
      k := k + 1;
    }
    while k > 0
      invariant k <= |spans|
      invariant forall j :: k <= j < |spans| ==> spans[j].end <= to
    {
      k := k - 1;
      if k + 1 < |spans| { assert spans[k].end == spans[k + 1].start; }
    }
  }

  // ----- Grouping -----

  /** Finished paragraphs, the indices of those that continue across a size limit, and the present one. */
  datatype Building = Building(paragraphs: seq<seq<Slice>>, soft: seq<nat>, current: seq<Slice>)

  predicate BuildingIn(d: Document, b: Building) {
    (forall k :: 0 <= k < |b.paragraphs| ==> HasAll(d, b.paragraphs[k])) && HasAll(d, b.current)
  }

  /** A boundary before slice s that no paragraph may cross. */
  predicate Hard(d: Document, before: seq<Slice>, s: Slice)
    requires d.Aligned() && HasAll(d, before) && d.Has(s)
  {
    || (s.start == 0 && (d.explicit[s.source]
                         || (d.pauses[s.source] && TextLength(d, before) >= PARAGRAPH_MIN_CHARACTERS)))
    || (before != [] && EndsBlank(d.cl, d.Piece(before[|before| - 1])))
  }

  predicate Full(d: Document, before: seq<Slice>, s: Slice)
    requires HasAll(d, before) && d.Has(s)
  {
    |before| >= PARAGRAPH_SENTENCES || TextLength(d, before) + d.Length(s) > PARAGRAPH_CHARACTERS
  }

  function AddSlice(d: Document, b: Building, s: Slice): (r: Building)
    requires d.Aligned() && BuildingIn(d, b) && d.Has(s)
    ensures BuildingIn(d, r)
  {
    if b.current != [] && (Hard(d, b.current, s) || Full(d, b.current, s)) then
      Building(b.paragraphs + [b.current],
               if Hard(d, b.current, s) then b.soft else b.soft + [|b.paragraphs| + 1], [s])
    else b.(current := b.current + [s])
  }

  function Group(d: Document, slices: seq<Slice>): (r: Building)
    requires d.Aligned() && HasAll(d, slices)
    ensures BuildingIn(d, r)
  {
    if slices == [] then Building([], [], [])
    else AddSlice(d, Group(d, slices[..|slices| - 1]), slices[|slices| - 1])
  }

  function Finish(b: Building): seq<seq<Slice>> {
    if b.current == [] then b.paragraphs else b.paragraphs + [b.current]
  }

  // ----- Rebalancing -----

  predicate AllIn(d: Document, paragraphs: seq<seq<Slice>>) {
    forall k :: 0 <= k < |paragraphs| ==> HasAll(d, paragraphs[k])
  }

  /** The last count slices of the previous paragraph and the tail. */
  function Moved(previous: seq<Slice>, tail: seq<Slice>, count: nat): seq<Slice>
    requires count <= |previous|
  {
    previous[|previous| - count..] + tail
  }

  predicate Fits(d: Document, previous: seq<Slice>, tail: seq<Slice>, count: nat)
    requires HasAll(d, previous) && HasAll(d, tail) && count <= |previous|
  {
    TextLength(d, Moved(previous, tail, count)) <= PARAGRAPH_CHARACTERS
  }

  /** How many slices to move to the tail: the largest count that still fits, or none. */
  function MoveCount(d: Document, previous: seq<Slice>, tail: seq<Slice>, count: nat): (r: nat)
    requires HasAll(d, previous) && HasAll(d, tail) && count <= |previous|
    ensures r <= count
    ensures r > 0 ==> Fits(d, previous, tail, r)
    ensures forall k :: r < k <= count ==> !Fits(d, previous, tail, k)
  {
    if count == 0 || Fits(d, previous, tail, count) then count else MoveCount(d, previous, tail, count - 1)
  }

  function BalanceAt(d: Document, paragraphs: seq<seq<Slice>>, index: nat): (r: seq<seq<Slice>>)
    requires AllIn(d, paragraphs)
    ensures AllIn(d, r) && |r| == |paragraphs|
  {
    if index == 0 || index >= |paragraphs| then paragraphs
    else
      var previous, tail := paragraphs[index - 1], paragraphs[index];
      if |tail| != 1 || |previous| < 4 then paragraphs
      else
        var count := MoveCount(d, previous, tail, if |previous| - 3 < 2 then |previous| - 3 else 2);
        if count == 0 then paragraphs
        else paragraphs[index - 1 := previous[..|previous| - count]][index := Moved(previous, tail, count)]
  }

  function Balance(d: Document, paragraphs: seq<seq<Slice>>, soft: seq<nat>): (r: seq<seq<Slice>>)
    requires AllIn(d, paragraphs)
    ensures AllIn(d, r) && |r| == |paragraphs|
  {
    if soft == [] then paragraphs else BalanceAt(d, Balance(d, paragraphs, soft[..|soft| - 1]), soft[|soft| - 1])
  }

  function ReadableParagraphs(d: Document): seq<seq<Slice>>
    requires d.Aligned()
  {
    SlicesInDocument(d, |d.texts|);
    var b := Group(d, SlicesBefore(d, |d.texts|));
    Balance(d, Finish(b), b.soft)
  }

  // ----- What paragraphs satisfy -----

  function Flatten(paragraphs: seq<seq<Slice>>): seq<Slice> {
    if paragraphs == [] then [] else Flatten(paragraphs[..|paragraphs| - 1]) + paragraphs[|paragraphs| - 1]
  }

  /** No slice of the paragraph except the first starts after an explicit boundary, a blank line, or a
      pause that comes when the paragraph already has enough text. */
  predicate Unbroken(d: Document, p: seq<Slice>)
    requires d.Aligned() && HasAll(d, p)
  {
    forall j :: 0 < j < |p| ==> !Hard(d, p[..j], p[j])
  }

  predicate Limited(d: Document, p: seq<Slice>)
    requires HasAll(d, p)
  {
    0 < |p| <= PARAGRAPH_SENTENCES && (|p| == 1 || TextLength(d, p) <= PARAGRAPH_CHARACTERS)
  }

  predicate Good(d: Document, p: seq<Slice>)
    requires d.Aligned() && HasAll(d, p)
  {
    Limited(d, p) && Unbroken(d, p)
  }

  lemma FlattenAppend(paragraphs: seq<seq<Slice>>, last: seq<Slice>)
    ensures Flatten(paragraphs + [last]) == Flatten(paragraphs) + last
  {
    assert (paragraphs + [last])[..|paragraphs|] == paragraphs;
  }

  lemma {:induction false} TextLengthConcat(d: Document, a: seq<Slice>, b: seq<Slice>)
    requires HasAll(d, a) && HasAll(d, b)
    ensures TextLength(d, a + b) == TextLength(d, a) + TextLength(d, b)
  {
    if b == [] {
      assert a + b == a;
    } else {
      assert (a + b)[..|a + b| - 1] == a + b[..|b| - 1];
      TextLengthConcat(d, a, b[..|b| - 1]);
    }
  }

  /** While grouping: nothing is lost, every paragraph is good, and every index marked as continuing is
      preceded by a paragraph that the next one's first slice did not have to leave. */
  predicate GroupInv(d: Document, slices: seq<Slice>, b: Building)
    requires d.Aligned() && BuildingIn(d, b)
  {
    && Flatten(Finish(b)) == slices
    && (b.current == [] ==> b.paragraphs == [])
    && AllGood(d, Finish(b))
    && SoftOrdered(b.soft, |Finish(b)|)
    && SoftJoins(d, Finish(b), b.soft)
  }

  predicate AllGood(d: Document, paragraphs: seq<seq<Slice>>)
    requires d.Aligned()
  {
    forall k :: 0 <= k < |paragraphs| ==> HasAll(d, paragraphs[k]) && Good(d, paragraphs[k])
  }

  predicate SoftOrdered(soft: seq<nat>, n: nat) {
    && (forall j, k :: 0 <= j < k < |soft| ==> soft[j] < soft[k])
    && (forall k :: 0 <= k < |soft| ==> 0 < soft[k] < n)
  }

  predicate SoftJoins(d: Document, paragraphs: seq<seq<Slice>>, soft: seq<nat>)
    requires d.Aligned()
  {
    forall k :: 0 <= k < |soft| ==> SoftJoin(d, paragraphs, soft[k])
  }

  /** The paragraph at index may continue the one before it, as far as hard boundaries go. */
  predicate SoftJoin(d: Document, paragraphs: seq<seq<Slice>>, index: nat)
    requires d.Aligned()
  {
    0 < index < |paragraphs| && Continues(d, paragraphs[index - 1], paragraphs[index])
  }

  predicate Continues(d: Document, previous: seq<Slice>, next: seq<Slice>)
    requires d.Aligned()
  {
    HasAll(d, previous) && HasAll(d, next) && previous != [] && next != [] && !Hard(d, previous, next[0])
  }

  /** A slice that starts a new paragraph. */
  lemma CutKeeps(d: Document, paragraphs: seq<seq<Slice>>, soft: seq<nat>, s: Slice, hard: bool)
    requires d.Aligned() && d.Has(s) && paragraphs != []
    requires AllGood(d, paragraphs) && SoftOrdered(soft, |paragraphs|) && SoftJoins(d, paragraphs, soft)
    requires hard == Hard(d, paragraphs[|paragraphs| - 1], s)
    ensures var after, soft' := paragraphs + [[s]], if hard then soft else soft + [|paragraphs|];
            && Flatten(after) == Flatten(paragraphs) + [s]
            && AllGood(d, after) && SoftOrdered(soft', |after|) && SoftJoins(d, after, soft')
  {
    FlattenAppend(paragraphs, [s]);
    if !hard {
      assert Good(d, paragraphs[|paragraphs| - 1]);
      CutSoft(d, paragraphs, soft, s);
    }
  }

  lemma CutSoft(d: Document, paragraphs: seq<seq<Slice>>, soft: seq<nat>, s: Slice)
    requires d.Aligned() && d.Has(s) && paragraphs != [] && HasAll(d, paragraphs[|paragraphs| - 1])
    requires Good(d, paragraphs[|paragraphs| - 1]) && !Hard(d, paragraphs[|paragraphs| - 1], s)
    requires SoftOrdered(soft, |paragraphs|) && SoftJoins(d, paragraphs + [[s]], soft)
    ensures SoftOrdered(soft + [|paragraphs|], |paragraphs| + 1)
    ensures SoftJoins(d, paragraphs + [[s]], soft + [|paragraphs|])
  {
    var after := paragraphs + [[s]];
    assert after[|paragraphs|] == [s] && after[|paragraphs| - 1] == paragraphs[|paragraphs| - 1];
    assert SoftJoin(d, after, |paragraphs|);
  }

  /** Dropping slices from the front of a paragraph makes no boundary hard. */
  lemma HardSuffix(d: Document, a: seq<Slice>, b: seq<Slice>, s: Slice)
    requires d.Aligned() && HasAll(d, a) && HasAll(d, b) && d.Has(s) && b != []
    requires !Hard(d, a + b, s)
    ensures !Hard(d, b, s)
  {
    TextLengthConcat(d, a, b);
    assert (a + b)[|a + b| - 1] == b[|b| - 1];
  }

  lemma PrefixUnbroken(d: Document, p: seq<Slice>, to: nat)
    requires d.Aligned() && HasAll(d, p) && Unbroken(d, p) && to <= |p|
    ensures Unbroken(d, p[..to])
  {
    forall j | 0 < j < to ensures !Hard(d, p[..to][..j], p[..to][j]) {
      assert p[..to][..j] == p[..j];
      assert !Hard(d, p[..j], p[j]);
    }
  }

  lemma SuffixUnbroken(d: Document, p: seq<Slice>, from: nat)
    requires d.Aligned() && HasAll(d, p) && Unbroken(d, p) && from <= |p|
    ensures Unbroken(d, p[from..])
  {
    var q := p[from..];
    forall j | 0 < j < |q| ensures !Hard(d, q[..j], q[j]) {
      assert p[..from] + q[..j] == p[..from + j] && q[j] == p[from + j];
      assert !Hard(d, p[..from + j], p[from + j]);
      HardSuffix(d, p[..from], q[..j], q[j]);
    }
  }

  lemma AppendUnbroken(d: Document, p: seq<Slice>, s: Slice)
    requires d.Aligned() && HasAll(d, p) && d.Has(s) && Unbroken(d, p) && (p == [] || !Hard(d, p, s))
    ensures Unbroken(d, p + [s])
  {
    var r := p + [s];
    forall j | 0 < j < |r| ensures !Hard(d, r[..j], r[j]) {
      if j < |p| {
        assert r[..j] == p[..j] && !Hard(d, p[..j], p[j]);
      } else {
        assert r[..j] == p;
      }
    }
  }

  lemma ExtendGood(d: Document, p: seq<Slice>, s: Slice)
    requires d.Aligned() && d.Has(s) && HasAll(d, p)
    requires p == [] || (Good(d, p) && !Hard(d, p, s) && !Full(d, p, s))
    ensures Good(d, p + [s])
  {
    AppendUnbroken(d, p, s);
    assert (p + [s])[..|p|] == p;
  }

  lemma SoftJoinExtends(d: Document, paragraphs: seq<seq<Slice>>, last: seq<Slice>, s: Slice, index: nat)
    requires d.Aligned() && d.Has(s) && last != [] && SoftJoin(d, paragraphs + [last], index)
    ensures SoftJoin(d, paragraphs + [last + [s]], index)
  {
    var before, after := paragraphs + [last], paragraphs + [last + [s]];
    assert after[index - 1] == before[index - 1];
    if index == |paragraphs| {
      assert (last + [s])[0] == last[0];
    } else {
      assert after[index] == before[index];
    }
  }

  lemma AllGoodReplaceLast(d: Document, paragraphs: seq<seq<Slice>>, last: seq<Slice>, longer: seq<Slice>)
    requires d.Aligned() && AllGood(d, paragraphs + [last])
    requires HasAll(d, longer) && Good(d, longer)
    ensures AllGood(d, paragraphs + [longer])
  {
    forall k | 0 <= k < |paragraphs| ensures HasAll(d, paragraphs[k]) && Good(d, paragraphs[k]) {
      assert (paragraphs + [last])[k] == paragraphs[k];
    }
  }

  /** A slice that joins the last paragraph. */
  lemma ExtendKeeps(d: Document, paragraphs: seq<seq<Slice>>, soft: seq<nat>, last: seq<Slice>, s: Slice)
    requires d.Aligned() && d.Has(s) && last != []
    requires AllGood(d, paragraphs + [last]) && SoftJoins(d, paragraphs + [last], soft)
    requires HasAll(d, last) && Good(d, last) && !Hard(d, last, s) && !Full(d, last, s)
    ensures AllGood(d, paragraphs + [last + [s]]) && SoftJoins(d, paragraphs + [last + [s]], soft)
  {
    ExtendGood(d, last, s);
    AllGoodReplaceLast(d, paragraphs, last, last + [s]);
    forall k | 0 <= k < |soft| ensures SoftJoin(d, paragraphs + [last + [s]], soft[k]) {
      SoftJoinExtends(d, paragraphs, last, s, soft[k]);
    }
  }

  lemma AddCutKeeps(d: Document, slices: seq<Slice>, b: Building, s: Slice)
    requires d.Aligned() && BuildingIn(d, b) && d.Has(s) && GroupInv(d, slices, b) && b.current != []
    requires Hard(d, b.current, s) || Full(d, b.current, s)
    ensures GroupInv(d, slices + [s], AddSlice(d, b, s))
  {
    var hard, all := Hard(d, b.current, s), Finish(b);
    var after := AddSlice(d, b, s);
    assert all == b.paragraphs + [b.current];
    CutKeeps(d, all, b.soft, s, hard);
    assert after == Building(all, if hard then b.soft else b.soft + [|all|], [s]);
    assert Finish(after) == all + [[s]];
  }

  lemma AddExtendKeeps(d: Document, slices: seq<Slice>, b: Building, s: Slice)
    requires d.Aligned() && BuildingIn(d, b) && d.Has(s) && GroupInv(d, slices, b) && b.current != []
    requires !Hard(d, b.current, s) && !Full(d, b.current, s)
    ensures GroupInv(d, slices + [s], AddSlice(d, b, s))
  {
    var all, after := Finish(b), AddSlice(d, b, s);
    assert all == b.paragraphs + [b.current] && all[|b.paragraphs|] == b.current;
    assert HasAll(d, b.current) && Good(d, b.current);
    ExtendKeeps(d, b.paragraphs, b.soft, b.current, s);
    assert after == Building(b.paragraphs, b.soft, b.current + [s]);
    assert Finish(after) == b.paragraphs + [b.current + [s]];
    FlattenAppend(b.paragraphs, b.current);
    FlattenAppend(b.paragraphs, b.current + [s]);
  }

  lemma AddSliceKeeps(d: Document, slices: seq<Slice>, b: Building, s: Slice)
    requires d.Aligned() && BuildingIn(d, b) && d.Has(s) && GroupInv(d, slices, b)
    ensures GroupInv(d, slices + [s], AddSlice(d, b, s))
  {
    if b.current == [] {
      ExtendGood(d, [], s);
      FlattenAppend([], [s]);
      assert [] + [s] == [s];
      assert Finish(AddSlice(d, b, s)) == [[s]] && Finish(b) == [];
    } else if Hard(d, b.current, s) || Full(d, b.current, s) {
      AddCutKeeps(d, slices, b, s);
    } else {
      AddExtendKeeps(d, slices, b, s);
    }
  }

  lemma GroupStep(d: Document, slices: seq<Slice>, b: Building)
    requires d.Aligned() && slices != [] && HasAll(d, slices) && BuildingIn(d, b)
        && GroupInv(d, slices[..|slices| - 1], b)
    ensures GroupInv(d, slices, AddSlice(d, b, slices[|slices| - 1]))
  {
    var front, last := slices[..|slices| - 1], slices[|slices| - 1];
    assert d.Has(last) && front + [last] == slices;
    AddSliceKeeps(d, front, b, last);
  }

  lemma {:induction false} GroupKeeps(d: Document, slices: seq<Slice>)
    requires d.Aligned() && HasAll(d, slices)
    ensures GroupInv(d, slices, Group(d, slices))
  {
    if slices != [] {
      var front, last := slices[..|slices| - 1], slices[|slices| - 1];
      GroupKeeps(d, front);
      GroupStep(d, slices, Group(d, front));
    } else {
      assert Finish(Building([], [], [])) == [];
    }
  }

  // ----- Rebalancing keeps it -----

  lemma PrefixLimited(d: Document, p: seq<Slice>, to: nat)
    requires HasAll(d, p) && Limited(d, p) && 0 < to <= |p|
    ensures Limited(d, p[..to])
  {
    TextLengthConcat(d, p[..to], p[to..]);
    assert p[..to] + p[to..] == p;
  }

  lemma MovedUnbroken(d: Document, previous: seq<Slice>, s: Slice, n: nat)
    requires d.Aligned() && HasAll(d, previous) && d.Has(s) && n < |previous|
    requires Unbroken(d, previous) && !Hard(d, previous, s)
    ensures Unbroken(d, previous[n..] + [s])
  {
    SuffixUnbroken(d, previous, n);
    assert previous[..n] + previous[n..] == previous;
    HardSuffix(d, previous[..n], previous[n..], s);
    AppendUnbroken(d, previous[n..], s);
  }

  /** A suffix of a paragraph followed by a single slice that may continue it. */
  lemma MovedGood(d: Document, previous: seq<Slice>, s: Slice, count: nat)
    requires d.Aligned() && HasAll(d, previous) && d.Has(s) && Good(d, previous) && !Hard(d, previous, s)
    requires 0 < count <= 2 && count < |previous|
    requires TextLength(d, previous[|previous| - count..] + [s]) <= PARAGRAPH_CHARACTERS
    ensures Good(d, previous[|previous| - count..] + [s]) && Good(d, previous[..|previous| - count])
  {
    var n := |previous| - count;
    PrefixGood(d, previous, n);
    MovedUnbroken(d, previous, s, n);
  }

  lemma PrefixGood(d: Document, p: seq<Slice>, n: nat)
    requires d.Aligned() && HasAll(d, p) && Good(d, p) && 0 < n <= |p|
    ensures Good(d, p[..n])
  {
    PrefixUnbroken(d, p, n);
    PrefixLimited(d, p, n);
  }

  /** A soft join as grouping left it, or one after a paragraph too short to give anything away. */
  predicate PendingJoin(d: Document, paragraphs: seq<seq<Slice>>, index: nat)
    requires d.Aligned()
  {
    0 < index < |paragraphs| && (|paragraphs[index - 1]| >= 4 ==>
                                 Continues(d, paragraphs[index - 1], paragraphs[index]))
  }

  /** What rebalancing keeps: the slices in order, good paragraphs, and the joins still to be looked at. */
  predicate BalanceInv(d: Document, slices: seq<Slice>, paragraphs: seq<seq<Slice>>, soft: seq<nat>, done: nat)
    requires d.Aligned()
  {
    && Flatten(paragraphs) == slices && AllGood(d, paragraphs) && SoftOrdered(soft, |paragraphs|)
    && forall k :: done <= k < |soft| ==> PendingJoin(d, paragraphs, soft[k])
  }

  lemma {:induction false} FlattenConcat(a: seq<seq<Slice>>, b: seq<seq<Slice>>)
    ensures Flatten(a + b) == Flatten(a) + Flatten(b)
  {
    if b == [] {
      assert a + b == a;
    } else {
      assert (a + b)[..|a + b| - 1] == a + b[..|b| - 1];
      FlattenConcat(a, b[..|b| - 1]);
    }
  }

  lemma FlattenTwo(p: seq<Slice>, q: seq<Slice>)
    ensures Flatten([p, q]) == p + q
  {
    assert [p, q] == [p] + [q] && [p] == [] + [p];
    FlattenAppend([p], q);
    FlattenAppend([], p);
  }

  /** Shifting slices between two neighbours keeps their order. */
  lemma FlattenShift(paragraphs: seq<seq<Slice>>, index: nat, p: seq<Slice>, q: seq<Slice>)
    requires 0 < index < |paragraphs| && p + q == paragraphs[index - 1] + paragraphs[index]
    ensures Flatten(paragraphs[index - 1 := p][index := q]) == Flatten(paragraphs)
  {
    var a, b := paragraphs[..index - 1], paragraphs[index + 1..];
    var p0, q0 := paragraphs[index - 1], paragraphs[index];
    assert paragraphs == a + [p0, q0] + b && paragraphs[index - 1 := p][index := q] == a + [p, q] + b;
    FlattenConcat(a + [p0, q0], b);
    FlattenConcat(a, [p0, q0]);
    FlattenConcat(a + [p, q], b);
    FlattenConcat(a, [p, q]);
    FlattenTwo(p0, q0);
    FlattenTwo(p, q);
  }

  /** One rebalancing: nothing, or the last one or two slices of the previous paragraph move to its tail. */
  lemma BalanceAtCases(d: Document, paragraphs: seq<seq<Slice>>, index: nat) returns (count: nat)
    requires AllIn(d, paragraphs) && 0 < index < |paragraphs|
    ensures count == 0 ==> BalanceAt(d, paragraphs, index) == paragraphs
    ensures var previous, tail := paragraphs[index - 1], paragraphs[index];
      count > 0 ==>
        && |tail| == 1 && |previous| >= 4 && count <= 2 && count < |previous|
        && TextLength(d, previous[|previous| - count..] + [tail[0]]) <= PARAGRAPH_CHARACTERS
        && BalanceAt(d, paragraphs, index)
           == paragraphs[index - 1 := previous[..|previous| - count]]
                        [index := previous[|previous| - count..] + [tail[0]]]
  {
    var previous, tail := paragraphs[index - 1], paragraphs[index];
    if |tail| != 1 || |previous| < 4 {
      count := 0;
    } else {
      count := MoveCount(d, previous, tail, if |previous| - 3 < 2 then |previous| - 3 else 2);
      assert tail == [tail[0]];
    }
  }

  lemma BalanceAtKeeps(d: Document, slices: seq<Slice>, paragraphs: seq<seq<Slice>>, soft: seq<nat>, k: nat)
    requires d.Aligned() && AllIn(d, paragraphs) && k < |soft| && BalanceInv(d, slices, paragraphs, soft, k)
    ensures BalanceInv(d, slices, BalanceAt(d, paragraphs, soft[k]), soft, k + 1)
  {
    assert PendingJoin(d, paragraphs, soft[k]);
    var moved, p, q := BalanceAtShift(d, paragraphs, soft[k]);
    if moved {
      ShiftKeepsJoins(d, paragraphs, soft, k, p, q);
    }
  }

  lemma BalanceAtShift(d: Document, paragraphs: seq<seq<Slice>>, index: nat)
    returns (moved: bool, p: seq<Slice>, q: seq<Slice>)
    requires d.Aligned() && AllGood(d, paragraphs) && AllIn(d, paragraphs) && PendingJoin(d, paragraphs, index)
    ensures !moved ==> BalanceAt(d, paragraphs, index) == paragraphs
    ensures moved ==> BalanceAt(d, paragraphs, index) == paragraphs[index - 1 := p][index := q] && |q| < 4
    ensures moved ==> Flatten(BalanceAt(d, paragraphs, index)) == Flatten(paragraphs) && AllGood(d,
        BalanceAt(d, paragraphs, index))
  {
    var count := BalanceAtCases(d, paragraphs, index);
    moved := count > 0;
    if moved {
      p, q := Shifted(d, paragraphs, index, count);
    } else {
      p, q := [], [];
    }
  }

  lemma Shifted(d: Document, paragraphs: seq<seq<Slice>>, index: nat, count: nat) returns (p: seq<Slice>, q: seq<Slice>)
    requires d.Aligned() && AllGood(d, paragraphs) && AllIn(d, paragraphs) && PendingJoin(d, paragraphs, index)
    requires |paragraphs[index]| == 1 && |paragraphs[index - 1]| >= 4 && 0 < count <= 2
    requires TextLength(d, paragraphs[index - 1][|paragraphs[index - 1]| - count..] + [paragraphs[index][0]])
        <= PARAGRAPH_CHARACTERS
    ensures p == paragraphs[index - 1][..|paragraphs[index - 1]| - count]
    ensures q == paragraphs[index - 1][|paragraphs[index - 1]| - count..] + [paragraphs[index][0]] && |q| < 4
    ensures Flatten(paragraphs[index - 1 := p][index := q]) == Flatten(paragraphs)
    ensures AllGood(d, paragraphs[index - 1 := p][index := q])
  {
    var previous, s := paragraphs[index - 1], paragraphs[index][0];
    p, q := previous[..|previous| - count], previous[|previous| - count..] + [s];
    assert paragraphs[index] == [s];
    ShiftKeeps(d, paragraphs, index, count, previous, s, p, q);
  }

  lemma ShiftKeeps(d: Document, paragraphs: seq<seq<Slice>>, index: nat, count: nat, previous: seq<Slice>, s: Slice,
                   p: seq<Slice>, q: seq<Slice>)
    requires d.Aligned() && AllGood(d, paragraphs) && PendingJoin(d, paragraphs, index)
    requires paragraphs[index - 1] == previous && paragraphs[index] == [s]
    requires |previous| >= 4 && 0 < count <= 2 && count < |previous|
    requires p == previous[..|previous| - count] && q == previous[|previous| - count..] + [s]
    requires HasAll(d, q) && TextLength(d, q) <= PARAGRAPH_CHARACTERS
    ensures Flatten(paragraphs[index - 1 := p][index := q]) == Flatten(paragraphs)
    ensures AllGood(d, paragraphs[index - 1 := p][index := q])
  {
    assert Continues(d, previous, [s]) && [s][0] == s && HasAll(d, previous) && Good(d, previous);
    assert d.Has([s][0]);
    MovedGood(d, previous, s, count);
    assert HasAll(d, p);
    TwoGoodUpdate(d, paragraphs, index, p, q);
    assert p + q == previous + [s];
    FlattenShift(paragraphs, index, p, q);
  }

  lemma TwoGoodUpdate(d: Document, paragraphs: seq<seq<Slice>>, index: nat, p: seq<Slice>, q: seq<Slice>)
    requires d.Aligned() && AllGood(d, paragraphs) && 0 < index < |paragraphs|
    requires HasAll(d, p) && Good(d, p) && HasAll(d, q) && Good(d, q)
    ensures AllGood(d, paragraphs[index - 1 := p][index := q])
  {
    AllGoodUpdate(d, paragraphs, index - 1, p);
    AllGoodUpdate(d, paragraphs[index - 1 := p], index, q);
  }

  lemma AllGoodUpdate(d: Document, paragraphs: seq<seq<Slice>>, i: nat, p: seq<Slice>)
    requires d.Aligned() && AllGood(d, paragraphs) && i < |paragraphs| && HasAll(d, p) && Good(d, p)
    ensures AllGood(d, paragraphs[i := p])
  {
  }

  lemma ShiftKeepsJoins(d: Document, paragraphs: seq<seq<Slice>>, soft: seq<nat>, k: nat, p: seq<Slice>, q: seq<Slice>)
    requires d.Aligned() && SoftOrdered(soft, |paragraphs|) && k < |soft| && |q| < 4
    requires forall j :: k <= j < |soft| ==> PendingJoin(d, paragraphs, soft[j])
    ensures forall j :: k < j < |soft| ==> PendingJoin(d, paragraphs[soft[k] - 1 := p][soft[k] := q], soft[j])
  {
    var after := paragraphs[soft[k] - 1 := p][soft[k] := q];
    forall j | k < j < |soft| ensures PendingJoin(d, after, soft[j]) {
      assert PendingJoin(d, paragraphs, soft[j]) && soft[k] < soft[j];
      if soft[j] - 1 != soft[k] {
        assert after[soft[j] - 1] == paragraphs[soft[j] - 1] && after[soft[j]] == paragraphs[soft[j]];
      }
    }
  }

  lemma {:induction false} BalanceKeeps(d: Document, slices: seq<Slice>, paragraphs: seq<seq<Slice>>, soft: seq<nat>,
                                        n: nat)
    requires d.Aligned() && AllIn(d, paragraphs) && n <= |soft| && BalanceInv(d, slices, paragraphs, soft, 0)
    ensures BalanceInv(d, slices, Balance(d, paragraphs, soft[..n]), soft, n)
  {
    if n > 0 {
      BalanceKeeps(d, slices, paragraphs, soft, n - 1);
      assert soft[..n][..n - 1] == soft[..n - 1];
      BalanceAtKeeps(d, slices, Balance(d, paragraphs, soft[..n - 1]), soft, n - 1);
    }
  }

  /** The readable paragraphs are all sentence slices of all sources in order; each paragraph is
      non-empty, has at most six slices, has at most 300 trimmed characters unless it is a single slice,
      and crosses no explicit boundary, blank line or long pause. */
  lemma ReadableParagraphsGood(d: Document)
    requires d.Aligned()
    ensures Flatten(ReadableParagraphs(d)) == SlicesBefore(d, |d.texts|)
    ensures AllGood(d, ReadableParagraphs(d))
  {
    var slices := SlicesBefore(d, |d.texts|);
    SlicesInDocument(d, |d.texts|);
    GroupKeeps(d, slices);
    var b := Group(d, slices);
    forall k | 0 <= k < |b.soft| ensures PendingJoin(d, Finish(b), b.soft[k]) {
      assert SoftJoin(d, Finish(b), b.soft[k]);
    }
    BalanceKeeps(d, slices, Finish(b), b.soft, |b.soft|);
    assert b.soft[..|b.soft|] == b.soft;
  }

  // ----- Where paragraphs end -----

  /** The text ends with a blank line, and at most space behind it. */
  predicate EndsInBlankLine(cl: Classes, text: string) {
    exists i, j :: 0 <= i < j < |text| && text[i] == '\n' && text[j] == '\n' && BlankBetween(text, i + 1, j)
                   && Spaces(cl, text, j + 1, |text|)
  }

  /** Between the slices so far and the next one a source begins with a boundary, or after a long pause and 60 or more
      characters; or there is a blank line. */
  predicate Boundary(d: Document, before: seq<Slice>, s: Slice)
    requires d.Aligned() && HasAll(d, before) && d.Has(s) && before != []
  {
    var last := before[|before| - 1];
    || (s.start == 0 && d.explicit[s.source])
    || (s.start == 0 && d.pauses[s.source] && TextLength(d, before) >= 60)
    || EndsInBlankLine(d.cl, d.texts[last.source][last.start..last.end])
  }

  /** Every paragraph goes on for as long as it may, and a boundary, a full six slices or the 300 characters part it
      from the next. */
  ghost predicate GroupsRight(d: Document, slices: seq<Slice>, groups: seq<seq<Slice>>)
    requires d.Aligned()
  {
    && Flatten(groups) == slices
    && (forall k :: 0 <= k < |groups| ==> HasAll(d, groups[k]) && GroupRight(d, groups[k]))
    && (forall k :: 0 < k < |groups| ==> PartedRight(d, groups[k - 1], groups[k]))
  }

  predicate GroupRight(d: Document, p: seq<Slice>)
    requires d.Aligned() && HasAll(d, p)
  {
    && 0 < |p| <= 6 && (|p| == 1 || TextLength(d, p) <= 300)
    && forall j :: 0 < j < |p| ==> !Boundary(d, p[..j], p[j])
  }

  predicate PartedRight(d: Document, previous: seq<Slice>, next: seq<Slice>)
    requires d.Aligned() && HasAll(d, previous) && HasAll(d, next)
  {
    previous != [] && next != []
    && (|| Boundary(d, previous, next[0]) || |previous| == 6
        || TextLength(d, previous) + d.Length(next[0]) > 300)
  }

  /** How many slices a group gives to the next: one or two, if the next is a single slice parted from it by size only,
      three or more stay, and together they are within 300 characters; two rather than one. */
  predicate MoveRight(d: Document, previous: seq<Slice>, next: seq<Slice>, count: nat)
    requires d.Aligned() && HasAll(d, previous) && HasAll(d, next) && previous != [] && next != []
  {
    if |next| != 1 || |previous| < 4 || Boundary(d, previous, next[0]) then count == 0
    else
      && count <= 2 && count + 3 <= |previous|
      && (count > 0 ==> !TooLong(d, previous, next, count))
      && (forall c: nat :: count < c <= 2 && c + 3 <= |previous| ==> TooLong(d, previous, next, c))
  }

  predicate TooLong(d: Document, previous: seq<Slice>, next: seq<Slice>, count: nat)
    requires HasAll(d, previous) && HasAll(d, next) && count <= |previous|
  {
    TextLength(d, previous[|previous| - count..] + next) > 300
  }

  /** The paragraphs are the groups after those moves. */
  ghost predicate Arranged(d: Document, groups: seq<seq<Slice>>, moves: seq<nat>, paragraphs: seq<seq<Slice>>)
    requires d.Aligned() && forall k :: 0 <= k < |groups| ==> HasAll(d, groups[k]) && groups[k] != []
  {
    && |paragraphs| == |groups| && |moves| == |groups| + 1 && moves[0] == 0 && moves[|groups|] == 0
    && (forall k :: 0 < k < |groups| ==> MoveRight(d, groups[k - 1], groups[k], moves[k]))
    && (forall k :: 0 <= k < |groups| ==> ParagraphFrom(groups, moves, k, paragraphs[k]))
  }

  /** Paragraph k: what it got from the group before it and what it kept of its own. */
  predicate ParagraphFrom(groups: seq<seq<Slice>>, moves: seq<nat>, k: nat, p: seq<Slice>)
    requires k < |groups| && |moves| == |groups| + 1
  {
    && moves[k + 1] <= |groups[k]| && (k > 0 ==> moves[k] <= |groups[k - 1]|)
    && p == (if k > 0 then groups[k - 1][|groups[k - 1]| - moves[k]..] else [])
        + groups[k][..|groups[k]| - moves[k + 1]]
  }

  lemma EndsBlankMeans(cl: Classes, text: string)
    ensures EndsBlank(cl, text) <==> EndsInBlankLine(cl, text)
  {
    if EndsBlank(cl, text) {
      var k :| 0 <= k < |text| && BlankLineAt(text, k) && Blank(cl, text[BlankLineEnd(text, k)..]);
      BlankLineMeans(text, k);
      var end := BlankLineEnd(text, k);
      forall i | end <= i < |text| ensures cl.space(text[i]) { assert text[end..][i - end] == text[i]; }
    }
    if EndsInBlankLine(cl, text) {
      var i, j :| 0 <= i < j < |text| && text[i] == '\n' && text[j] == '\n' && BlankBetween(text, i + 1, j)
          && Spaces(cl, text, j + 1, |text|);
      BlankLineMeans(text, i);
      assert BlankLineEnd(text, i) == j + 1;
    }
  }

  lemma HardMeans(d: Document, before: seq<Slice>, s: Slice)
    requires d.Aligned() && HasAll(d, before) && d.Has(s) && before != []
    ensures Hard(d, before, s) <==> Boundary(d, before, s)
  {
    EndsBlankMeans(d.cl, d.Piece(before[|before| - 1]));
  }

  /** Why the next paragraph begins where it does, and whether it is marked as continuing. */
  predicate Parted(d: Document, previous: seq<Slice>, next: seq<Slice>, marked: bool)
    requires d.Aligned()
  {
    && HasAll(d, previous) && HasAll(d, next) && previous != [] && next != []
    && (Hard(d, previous, next[0]) || Full(d, previous, next[0]))
    && (marked <==> !Hard(d, previous, next[0]))
  }

  predicate AllParted(d: Document, paragraphs: seq<seq<Slice>>, soft: seq<nat>)
    requires d.Aligned()
  {
    forall k :: 0 < k < |paragraphs| ==> Parted(d, paragraphs[k - 1], paragraphs[k], k in soft)
  }

  lemma CutParted(d: Document, paragraphs: seq<seq<Slice>>, soft: seq<nat>, s: Slice, marks: seq<nat>)
    requires d.Aligned() && d.Has(s) && AllParted(d, paragraphs, soft) && paragraphs != []
    requires forall k :: 0 <= k < |soft| ==> soft[k] < |paragraphs|
    requires var last := paragraphs[|paragraphs| - 1];
      && HasAll(d, last) && last != [] && (Hard(d, last, s) || Full(d, last, s))
      && marks == if Hard(d, last, s) then soft else soft + [|paragraphs|]
    ensures AllParted(d, paragraphs + [[s]], marks)
  {
    var after := paragraphs + [[s]];
    forall k | 0 < k < |after| ensures Parted(d, after[k - 1], after[k], k in marks) {
      if k < |paragraphs| { assert Parted(d, paragraphs[k - 1], paragraphs[k], k in soft); }
    }
  }

  lemma ExtendParted(d: Document, paragraphs: seq<seq<Slice>>, soft: seq<nat>, last: seq<Slice>, s: Slice)
    requires d.Aligned() && d.Has(s) && last != [] && AllParted(d, paragraphs + [last], soft)
    ensures AllParted(d, paragraphs + [last + [s]], soft)
  {
    var before, after := paragraphs + [last], paragraphs + [last + [s]];
    forall k | 0 < k < |after| ensures Parted(d, after[k - 1], after[k], k in soft) {
      assert Parted(d, before[k - 1], before[k], k in soft);
    }
  }

  lemma AddSliceParted(d: Document, slices: seq<Slice>, b: Building, s: Slice)
    requires d.Aligned() && BuildingIn(d, b) && d.Has(s) && GroupInv(d, slices, b) && AllParted(d, Finish(b), b.soft)
    ensures AllParted(d, Finish(AddSlice(d, b, s)), AddSlice(d, b, s).soft)
  {
    var all, after := Finish(b), AddSlice(d, b, s);
    if b.current == [] {
      assert after.current == [s] && Finish(after) == [[s]];
    } else if Hard(d, b.current, s) || Full(d, b.current, s) {
      assert all[|all| - 1] == b.current && Finish(after) == all + [[s]];
      CutParted(d, all, b.soft, s, after.soft);
    } else {
      assert all == b.paragraphs + [b.current] && Finish(after) == b.paragraphs + [b.current + [s]];
      ExtendParted(d, b.paragraphs, b.soft, b.current, s);
    }
  }

  lemma {:induction false} GroupParts(d: Document, slices: seq<Slice>)
    requires d.Aligned() && HasAll(d, slices)
    ensures AllParted(d, Finish(Group(d, slices)), Group(d, slices).soft)
  {
    if slices != [] {
      var front := slices[..|slices| - 1];
      GroupKeeps(d, front);
      GroupParts(d, front);
      AddSliceParted(d, front, Group(d, front), slices[|slices| - 1]);
    }
  }

  lemma GoodRight(d: Document, p: seq<Slice>)
    requires d.Aligned() && HasAll(d, p) && Good(d, p)
    ensures GroupRight(d, p)
  {
    forall j | 0 < j < |p| ensures !Boundary(d, p[..j], p[j]) {
      assert !Hard(d, p[..j], p[j]);
      HardMeans(d, p[..j], p[j]);
    }
  }

  lemma GroupsAreRight(d: Document, slices: seq<Slice>)
    requires d.Aligned() && HasAll(d, slices)
    ensures GroupsRight(d, slices, Finish(Group(d, slices)))
  {
    var b := Group(d, slices);
    var groups := Finish(b);
    GroupKeeps(d, slices);
    GroupParts(d, slices);
    forall k | 0 <= k < |groups| ensures GroupRight(d, groups[k]) {
      assert Good(d, groups[k]);
      GoodRight(d, groups[k]);
    }
    forall k | 0 < k < |groups| ensures PartedRight(d, groups[k - 1], groups[k]) {
      assert Parted(d, groups[k - 1], groups[k], k in b.soft) && Good(d, groups[k - 1]);
      HardMeans(d, groups[k - 1], groups[k][0]);
    }
  }

  // ----- The moves -----

  /** How many slices group k gets from the one before. */
  function MoveTo(d: Document, groups: seq<seq<Slice>>, soft: seq<nat>, k: nat): (r: nat)
    requires AllIn(d, groups)
    ensures r <= 2 && (r > 0 ==> 0 < k < |groups| && |groups[k]| == 1 && r + 3 <= |groups[k - 1]|)
  {
    if 0 < k < |groups| && k in soft && |groups[k]| == 1 && |groups[k - 1]| >= 4 then
      MoveCount(d, groups[k - 1], groups[k], if |groups[k - 1]| - 3 < 2 then |groups[k - 1]| - 3 else 2)
    else 0
  }

  function MovesTo(d: Document, groups: seq<seq<Slice>>, soft: seq<nat>): (r: seq<nat>)
    requires AllIn(d, groups)
    ensures |r| == |groups| + 1 && forall k: nat :: k <= |groups| ==> r[k] == MoveTo(d, groups, soft, k)
  {
    seq(|groups| + 1, k requires 0 <= k <= |groups| => MoveTo(d, groups, soft, k))
  }

  predicate MovedSoFar(groups: seq<seq<Slice>>, moves: seq<nat>, paragraphs: seq<seq<Slice>>) {
    && |paragraphs| == |groups| && |moves| == |groups| + 1
    && forall k: nat :: k < |groups| ==> ParagraphFrom(groups, moves, k, paragraphs[k])
  }

  lemma SoftFront(soft: seq<nat>, groups: nat, n: nat)
    requires SoftOrdered(soft, groups) && n < |soft|
    ensures forall k :: k in soft[..n] ==> k < soft[n]
    ensures forall k :: k in soft[..n + 1] <==> k in soft[..n] || k == soft[n]
  {
    assert soft[..n + 1] == soft[..n] + [soft[n]];
  }

  /** One more mark changes one move, which was none before; there are none behind it yet. */
  lemma MovesStep(d: Document, groups: seq<seq<Slice>>, soft: seq<nat>, n: nat, k: nat)
    requires AllIn(d, groups) && SoftOrdered(soft, |groups|) && n < |soft|
    ensures k != soft[n] ==> MoveTo(d, groups, soft[..n + 1], k) == MoveTo(d, groups, soft[..n], k)
    ensures k >= soft[n] ==> MoveTo(d, groups, soft[..n], k) == 0
  {
    SoftFront(soft, |groups|, n);
  }

  /** The two paragraphs of a rebalancing are still groups, unless the first is too short to give. */
  lemma StillGroups(d: Document, groups: seq<seq<Slice>>, moves: seq<nat>, index: nat, previous: seq<Slice>,
                    tail: seq<Slice>)
    requires AllIn(d, groups) && 0 < index < |groups| && |moves| == |groups| + 1
    requires moves[index] == 0 && moves[index + 1] == 0
    requires moves[index - 1] <= 2 && (moves[index - 1] > 0 ==> |groups[index - 1]| == 1)
    requires ParagraphFrom(groups, moves, index - 1, previous) && ParagraphFrom(groups, moves, index, tail)
    ensures tail == groups[index]
    ensures |groups[index - 1]| >= 4 ==> previous == groups[index - 1]
    ensures |groups[index - 1]| < 4 ==> |previous| < 4
  {
  }

  lemma BalanceMoves(d: Document, groups: seq<seq<Slice>>, soft: seq<nat>, index: nat, paragraphs: seq<seq<Slice>>,
                     m: nat)
    requires AllIn(d, groups) && AllIn(d, paragraphs) && |paragraphs| == |groups| && 0 < index < |groups|
        && index in soft
    requires paragraphs[index] == groups[index]
    requires |groups[index - 1]| >= 4 ==> paragraphs[index - 1] == groups[index - 1]
    requires |groups[index - 1]| < 4 ==> |paragraphs[index - 1]| < 4
    requires m == MoveTo(d, groups, soft, index)
    ensures BalanceAt(d, paragraphs, index) == MakeMove(groups, paragraphs, index, m)
  {
  }

  function MakeMove(groups: seq<seq<Slice>>, paragraphs: seq<seq<Slice>>, index: nat, m: nat): seq<seq<Slice>>
    requires |paragraphs| == |groups| && 0 < index < |groups| && (m > 0 ==> m <= |groups[index - 1]|)
  {
    var p := groups[index - 1];
    if m == 0 then paragraphs
    else paragraphs[index - 1 := p[..|p| - m]][index := p[|p| - m..] + groups[index]]
  }

  lemma MoveKept(groups: seq<seq<Slice>>, moves: seq<nat>, after: seq<nat>, k: nat, p: seq<Slice>)
    requires k < |groups| && |moves| == |groups| + 1 == |after| && ParagraphFrom(groups, moves, k, p)
    requires after[k] == moves[k] && after[k + 1] == moves[k + 1]
    ensures ParagraphFrom(groups, after, k, p)
  {
  }

  /** The two paragraphs between which slices move. */
  lemma MoveMade(groups: seq<seq<Slice>>, after: seq<nat>, index: nat, m: nat)
    requires 0 < index < |groups| && |after| == |groups| + 1
    requires after[index - 1] == 0 && after[index] == m <= |groups[index - 1]| && after[index + 1] == 0
    ensures ParagraphFrom(groups, after, index - 1, groups[index - 1][..|groups[index - 1]| - m])
    ensures ParagraphFrom(groups, after, index, groups[index - 1][|groups[index - 1]| - m..] + groups[index])
  {
    assert groups[index][..|groups[index]| - 0] == groups[index];
    if index > 1 {
      var p := groups[index - 2];
      assert p[|p| - 0..] + groups[index - 1][..|groups[index - 1]| - m]
          == groups[index - 1][..|groups[index - 1]| - m];
    } else {
      assert [] + groups[index - 1][..|groups[index - 1]| - m] == groups[index - 1][..|groups[index - 1]| - m];
    }
  }

  lemma MoveUpdates(groups: seq<seq<Slice>>, moves: seq<nat>, after: seq<nat>, paragraphs: seq<seq<Slice>>,
                    index: nat, m: nat)
    requires MovedSoFar(groups, moves, paragraphs) && 0 < index < |groups| && |after| == |moves|
    requires forall k :: 0 <= k < |moves| && k != index ==> after[k] == moves[k]
    requires moves[index] == 0 && moves[index + 1] == 0 && after[index] == m
    requires m > 0 ==> m <= |groups[index - 1]| && moves[index - 1] == 0
    ensures MovedSoFar(groups, after, MakeMove(groups, paragraphs, index, m))
  {
    if m > 0 { MoveMade(groups, after, index, m); }
    forall k: nat | k < |groups| && (m == 0 || (k != index && k + 1 != index))
      ensures ParagraphFrom(groups, after, k, paragraphs[k])
    {
      assert ParagraphFrom(groups, moves, k, paragraphs[k]);
      MoveKept(groups, moves, after, k, paragraphs[k]);
    }
  }

  /** One rebalancing makes its move. */
  lemma MoveOne(d: Document, groups: seq<seq<Slice>>, soft: seq<nat>, n: nat, moves: seq<nat>, after: seq<nat>,
                paragraphs: seq<seq<Slice>>, index: nat)
    requires AllIn(d, groups) && AllIn(d, paragraphs) && SoftOrdered(soft, |groups|) && n < |soft| && index == soft[n]
    requires moves == MovesTo(d, groups, soft[..n]) && after == MovesTo(d, groups, soft[..n + 1])
    requires MovedSoFar(groups, moves, paragraphs)
    ensures MovedSoFar(groups, after, BalanceAt(d, paragraphs, index))
  {
    MovesDiffer(d, groups, soft, n, moves, after, index);
    MoveUpdates(groups, moves, after, paragraphs, index, after[index]);
    BalanceIsMove(d, groups, soft, n, moves, paragraphs, index, after[index]);
  }

  lemma BalanceIsMove(d: Document, groups: seq<seq<Slice>>, soft: seq<nat>, n: nat, moves: seq<nat>,
                      paragraphs: seq<seq<Slice>>, index: nat, m: nat)
    requires AllIn(d, groups) && AllIn(d, paragraphs) && SoftOrdered(soft, |groups|) && n < |soft| && index == soft[n]
    requires moves == MovesTo(d, groups, soft[..n]) && MovedSoFar(groups, moves, paragraphs)
    requires m == MoveTo(d, groups, soft[..n + 1], index)
    ensures 0 < index < |groups| == |paragraphs| && (m > 0 ==> m <= |groups[index - 1]|)
    ensures BalanceAt(d, paragraphs, index) == MakeMove(groups, paragraphs, index, m)
  {
    StillToMove(d, groups, soft, n, moves, paragraphs, index);
    assert soft[..n + 1][n] == index;
    BalanceMoves(d, groups, soft[..n + 1], index, paragraphs, m);
  }

  lemma MovesDiffer(d: Document, groups: seq<seq<Slice>>, soft: seq<nat>, n: nat, moves: seq<nat>, after: seq<nat>,
                    index: nat)
    requires AllIn(d, groups) && SoftOrdered(soft, |groups|) && n < |soft| && index == soft[n]
    requires moves == MovesTo(d, groups, soft[..n]) && after == MovesTo(d, groups, soft[..n + 1])
    ensures 0 < index < |groups| && moves[index] == 0 && moves[index + 1] == 0
    ensures forall k :: 0 <= k < |moves| && k != index ==> after[k] == moves[k]
    ensures after[index] > 0 ==> after[index] <= |groups[index - 1]| && moves[index - 1] == 0
  {
    MovesStep(d, groups, soft, n, index);
    MovesStep(d, groups, soft, n, index + 1);
    forall k | 0 <= k < |moves| && k != index ensures after[k] == moves[k] { MovesStep(d, groups, soft, n, k); }
  }

  lemma StillToMove(d: Document, groups: seq<seq<Slice>>, soft: seq<nat>, n: nat, moves: seq<nat>,
                    paragraphs: seq<seq<Slice>>, index: nat)
    requires AllIn(d, groups) && SoftOrdered(soft, |groups|) && n < |soft| && index == soft[n]
    requires moves == MovesTo(d, groups, soft[..n]) && MovedSoFar(groups, moves, paragraphs)
    ensures 0 < index < |groups| && paragraphs[index] == groups[index]
    ensures |groups[index - 1]| >= 4 ==> paragraphs[index - 1] == groups[index - 1]
    ensures |groups[index - 1]| < 4 ==> |paragraphs[index - 1]| < 4
  {
    MovesStep(d, groups, soft, n, index);
    MovesStep(d, groups, soft, n, index + 1);
    assert ParagraphFrom(groups, moves, index - 1, paragraphs[index - 1]);
    assert ParagraphFrom(groups, moves, index, paragraphs[index]);
    StillGroups(d, groups, moves, index, paragraphs[index - 1], paragraphs[index]);
  }

  lemma NothingMoved(d: Document, groups: seq<seq<Slice>>)
    requires AllIn(d, groups)
    ensures MovedSoFar(groups, MovesTo(d, groups, []), groups)
  {
    var moves := MovesTo(d, groups, []);
    forall k: nat | k < |groups| ensures ParagraphFrom(groups, moves, k, groups[k]) {
      assert moves[k] == 0 && moves[k + 1] == 0;
      assert groups[k] == [] + groups[k][..|groups[k]| - 0];
      assert k > 0 ==> groups[k - 1][|groups[k - 1]| - 0..] == [];
    }
  }

  lemma {:induction false} BalanceMovesAll(d: Document, groups: seq<seq<Slice>>, soft: seq<nat>, n: nat)
    requires AllIn(d, groups) && SoftOrdered(soft, |groups|) && n <= |soft|
    ensures MovedSoFar(groups, MovesTo(d, groups, soft[..n]), Balance(d, groups, soft[..n]))
  {
    if n == 0 {
      NothingMoved(d, groups);
    } else {
      BalanceMovesAll(d, groups, soft, n - 1);
      assert soft[..n][..n - 1] == soft[..n - 1];
      MoveOne(d, groups, soft, n - 1, MovesTo(d, groups, soft[..n - 1]), MovesTo(d, groups, soft[..n]),
              Balance(d, groups, soft[..n - 1]), soft[n - 1]);
    }
  }

  lemma MoveToRight(d: Document, groups: seq<seq<Slice>>, soft: seq<nat>, k: nat)
    requires d.Aligned() && AllIn(d, groups) && 0 < k < |groups| && Parted(d, groups[k - 1], groups[k], k in soft)
    ensures MoveRight(d, groups[k - 1], groups[k], MoveTo(d, groups, soft, k))
  {
    var previous, next, count := groups[k - 1], groups[k], MoveTo(d, groups, soft, k);
    HardMeans(d, previous, next[0]);
    if k in soft && |next| == 1 && |previous| >= 4 {
      forall c: nat | count < c <= 2 && c + 3 <= |previous| ensures TooLong(d, previous, next, c) {
        assert !Fits(d, previous, next, c);
      }
      assert count > 0 ==> Fits(d, previous, next, count);
    }
  }

  /** The paragraphs of any document are its right groups after the right moves. */
  lemma ParagraphsArranged(d: Document) returns (groups: seq<seq<Slice>>, moves: seq<nat>)
    requires d.Aligned()
    ensures GroupsRight(d, SlicesBefore(d, |d.texts|), groups)
    ensures Arranged(d, groups, moves, ReadableParagraphs(d))
  {
    var slices := SlicesBefore(d, |d.texts|);
    SlicesInDocument(d, |d.texts|);
    GroupsAreRight(d, slices);
    GroupKeeps(d, slices);
    GroupParts(d, slices);
    var soft := Group(d, slices).soft;
    groups := Finish(Group(d, slices));
    moves := MovesTo(d, groups, soft);
    BalanceMovesAll(d, groups, soft, |soft|);
    assert soft[..|soft|] == soft;
    MovesRight(d, groups, soft, moves);
  }

  /** The paragraphs are right groups of all slices after the right moves. */
  ghost predicate RightlyParted(d: Document, paragraphs: seq<seq<Slice>>)
    requires d.Aligned()
  {
    exists groups, moves :: GroupsRight(d, SlicesBefore(d, |d.texts|), groups) && Arranged(d, groups, moves, paragraphs)
  }

  lemma ParagraphsParted(d: Document, paragraphs: seq<seq<Slice>>)
    requires d.Aligned() && paragraphs == ReadableParagraphs(d)
    ensures RightlyParted(d, paragraphs)
  {
    var groups, moves := ParagraphsArranged(d);
  }

  lemma MovesRight(d: Document, groups: seq<seq<Slice>>, soft: seq<nat>, moves: seq<nat>)
    requires d.Aligned() && AllIn(d, groups) && AllParted(d, groups, soft) && moves == MovesTo(d, groups, soft)
    requires forall k :: 0 <= k < |groups| ==> groups[k] != []
    ensures moves[0] == 0 && moves[|groups|] == 0
    ensures forall k :: 0 < k < |groups| ==> MoveRight(d, groups[k - 1], groups[k], moves[k])
  {
    forall k | 0 < k < |groups| ensures MoveRight(d, groups[k - 1], groups[k], moves[k]) {
      assert Parted(d, groups[k - 1], groups[k], k in soft);
      MoveToRight(d, groups, soft, k);
    }
  }

  // ----- The loops -----

  /** The rebalancing of one continuing paragraph, as both readers write it. */
  method BalanceTail(d: Document, paragraphs: seq<seq<Slice>>, index: nat) returns (r: seq<seq<Slice>>)
    requires AllIn(d, paragraphs) && 0 < index < |paragraphs|
    ensures r == BalanceAt(d, paragraphs, index)
  {
    r := paragraphs;
    var previous, tail := r[index - 1], r[index];
    if |tail| != 1 || |previous| < 4 { return; }
    var count := LargestMove(d, previous, tail, if |previous| - 3 < 2 then |previous| - 3 else 2);
    if count > 0 {
      r := r[index - 1 := previous[..|previous| - count]];
      r := r[index := previous[|previous| - count..] + tail];
    }
  }

  /** Tries the larger move first. */
  method LargestMove(d: Document, previous: seq<Slice>, tail: seq<Slice>, first: nat) returns (count: nat)
    requires HasAll(d, previous) && HasAll(d, tail) && first < |previous|
    ensures count == MoveCount(d, previous, tail, first)
  {
    count := first;
    while count > 0
      invariant 0 <= count <= first
      invariant forall k :: count < k <= first ==> !Fits(d, previous, tail, k)
    {
      var balanced := previous[|previous| - count..] + tail;
      assert balanced == Moved(previous, tail, count);
      if TextLength(d, balanced) <= PARAGRAPH_CHARACTERS {
        assert Fits(d, previous, tail, count);
        return;
      }
      count := count - 1;
    }
  }

  // ----- The building before each slice -----

  function NthSlice(d: Document, source: nat, j: nat): Slice
    requires source < |d.texts| && j < |SentenceSpans(d.cl, d.texts[source])|
  {
    var span := SentenceSpans(d.cl, d.texts[source])[j];
    Slice(source, span.start, span.end)
  }

  lemma SpanInDocument(d: Document, source: nat, j: nat)
    requires source < |d.texts| && j < |SentenceSpans(d.cl, d.texts[source])|
    ensures var spans := SentenceSpans(d.cl, d.texts[source]); d.Has(Slice(source, spans[j].start, spans[j].end))
  {
    SpansPartition(d.cl, d.texts[source]);
    SpansWithin(SentenceSpans(d.cl, d.texts[source]), 0, |d.texts[source]|);
  }

  /** The slices before slice j of a source. */
  function SeenBefore(d: Document, source: nat, j: nat): seq<Slice>
    requires source < |d.texts| && j <= |SentenceSpans(d.cl, d.texts[source])|
  {
    SlicesBefore(d, source) + SourceSlices(source, SentenceSpans(d.cl, d.texts[source]))[..j]
  }

  lemma SeenInDocument(d: Document, source: nat, j: nat)
    requires source < |d.texts| && j <= |SentenceSpans(d.cl, d.texts[source])|
    ensures HasAll(d, SeenBefore(d, source, j))
  {
    SlicesInDocument(d, source);
    forall k | 0 <= k < j ensures d.Has(NthSlice(d, source, k)) {
      SpanInDocument(d, source, k);
    }
    var spans := SentenceSpans(d.cl, d.texts[source]);
    assert forall k :: 0 <= k < j ==> SourceSlices(source, spans)[..j][k] == NthSlice(d, source, k);
  }

  function BuiltBefore(d: Document, n: nat): (r: Building)
    requires d.Aligned() && n <= |d.texts|
    ensures BuildingIn(d, r)
  {
    SlicesInDocument(d, n);
    Group(d, SlicesBefore(d, n))
  }

  function Built(d: Document, source: nat, j: nat): (r: Building)
    requires d.Aligned() && source < |d.texts| && j <= |SentenceSpans(d.cl, d.texts[source])|
    ensures BuildingIn(d, r)
  {
    SeenInDocument(d, source, j);
    Group(d, SeenBefore(d, source, j))
  }

  lemma BuiltStep(d: Document, source: nat, j: nat)
    requires d.Aligned() && source < |d.texts| && j < |SentenceSpans(d.cl, d.texts[source])|
    ensures d.Has(NthSlice(d, source, j))
    ensures Built(d, source, j + 1) == AddSlice(d, Built(d, source, j), NthSlice(d, source, j))
  {
    SpanInDocument(d, source, j);
    SeenInDocument(d, source, j + 1);
    var front, s := SeenBefore(d, source, j), NthSlice(d, source, j);
    assert SeenBefore(d, source, j + 1) == front + [s];
    assert (front + [s])[..|front|] == front;
  }

  lemma BuiltEnds(d: Document, source: nat)
    requires d.Aligned() && source < |d.texts|
    ensures Built(d, source, 0) == BuiltBefore(d, source)
    ensures Built(d, source, |SentenceSpans(d.cl, d.texts[source])|) == BuiltBefore(d, source + 1)
  {
    var slices := SourceSlices(source, SentenceSpans(d.cl, d.texts[source]));
    assert SeenBefore(d, source, 0) == SlicesBefore(d, source);
    assert slices[..|slices|] == slices;
  }

  // ----- The tests the loops make -----

  predicate Cuts(b: Building, characters: nat, length: nat, hard: bool) {
    b.current != [] && (hard || |b.current| >= PARAGRAPH_SENTENCES || characters + length > PARAGRAPH_CHARACTERS)
  }

  /** The building after one slice, given the outcome of the two tests. */
  function Placed(b: Building, s: Slice, cut: bool, hard: bool): Building {
    if cut then Building(b.paragraphs + [b.current], if hard then b.soft else b.soft + [|b.paragraphs| + 1], [s])
    else b.(current := b.current + [s])
  }

  lemma PlacedIsAdded(d: Document, b: Building, s: Slice, characters: nat, hard: bool)
    requires d.Aligned() && BuildingIn(d, b) && d.Has(s) && characters == TextLength(d, b.current)
    requires b.current != [] ==> hard == Hard(d, b.current, s)
    ensures Placed(b, s, Cuts(b, characters, d.Length(s), hard), hard) == AddSlice(d, b, s)
  {
  }

  lemma LaterSpansStartLater(cl: Classes, text: string)
    ensures forall j :: 0 < j < |SentenceSpans(cl, text)| ==> SentenceSpans(cl, text)[j].start > 0
  {
    var spans := SentenceSpans(cl, text);
    SpansPartition(cl, text);
    if |spans| > 1 {
      SpansWithin(spans[1..], spans[1].start, |text|) by {
        forall k | 0 <= k < |spans[1..]| - 1 ensures spans[1..][k].end == spans[1..][k + 1].start {
          assert spans[k + 1].end == spans[k + 1 + 1].start;
        }
      }
      assert spans[0].end == spans[0 + 1].start;
      assert text != [];
      forall j | 0 < j < |spans| ensures spans[j].start > 0 {
        assert spans[j] == spans[1..][j - 1];
      }
    }
  }

  /** The source's own boundary, computed when the source begins, is the policy's for its first slice. */
  predicate SourceTest(d: Document, source: nat, current: seq<Slice>, sourceBoundary: bool, j: nat)
    requires d.Aligned() && source < |d.texts| && HasAll(d, current)
  {
    j == 0 ==> sourceBoundary == (d.explicit[source]
                                  || (d.pauses[source] && TextLength(d, current) >= PARAGRAPH_MIN_CHARACTERS))
  }

  /** The boundary test of the loops is the hard boundary of the policy. */
  lemma HardTest(d: Document, source: nat, j: nat, current: seq<Slice>, sourceBoundary: bool)
    requires d.Aligned() && source < |d.texts| && HasAll(d, current) && current != []
    requires j < |SentenceSpans(d.cl, d.texts[source])| && SourceTest(d, source, current, sourceBoundary, j)
    ensures var s := NthSlice(d, source, j);
            d.Has(s) && Hard(d, current, s) ==
              ((s.start == 0 && sourceBoundary) || EndsBlank(d.cl, d.Piece(current[|current| - 1])))
  {
    LaterSpansStartLater(d.cl, d.texts[source]);
    SpanInDocument(d, source, j);
  }

  // ----- The backend's loops -----

  /** The variables of the backend's grouping loop. */
  datatype Loop = Loop(paragraphs: seq<seq<Slice>>, continuations: set<nat>, current: seq<Slice>, characters: nat,
                       previousText: string)

  /** The continuing paragraphs as a set. */
  function Marked(soft: seq<nat>): set<nat> {
    if soft == [] then {} else Marked(soft[..|soft| - 1]) + {soft[|soft| - 1]}
  }

  ghost predicate Follows(d: Document, b: Building, v: Loop)
    requires BuildingIn(d, b)
  {
    && v.paragraphs == b.paragraphs && v.current == b.current
    && v.characters == TextLength(d, b.current)
    && (b.current != [] ==> v.previousText == d.Piece(b.current[|b.current| - 1]))
    && v.continuations == Marked(b.soft)
  }

  lemma MarkedAdd(soft: seq<nat>, k: nat)
    ensures Marked(soft + [k]) == Marked(soft) + {k}
  {
    assert (soft + [k])[..|soft|] == soft;
  }

  lemma {:induction false} MarkedMembers(soft: seq<nat>)
    ensures forall k :: k in Marked(soft) <==> k in soft
  {
    if soft != [] {
      MarkedMembers(soft[..|soft| - 1]);
      assert soft == soft[..|soft| - 1] + [soft[|soft| - 1]];
    }
  }

  lemma PlacedIn(d: Document, b: Building, s: Slice, cut: bool, hard: bool)
    requires BuildingIn(d, b) && d.Has(s)
    ensures BuildingIn(d, Placed(b, s, cut, hard))
  {
  }

  lemma TextLengthAppend(d: Document, p: seq<Slice>, s: Slice)
    requires HasAll(d, p) && d.Has(s)
    ensures TextLength(d, p + [s]) == TextLength(d, p) + d.Length(s)
  {
    assert (p + [s])[..|p|] == p;
  }

  lemma FollowsCut(d: Document, b: Building, before: Loop, s: Slice, hard: bool)
    requires BuildingIn(d, b) && d.Has(s) && Follows(d, b, before)
    ensures var marked := if hard then before.continuations else before.continuations + {|b.paragraphs| + 1};
            var v := Loop(b.paragraphs + [b.current], marked, [s], d.Length(s), d.Piece(s));
            BuildingIn(d, Placed(b, s, true, hard)) && Follows(d, Placed(b, s, true, hard), v)
  {
    PlacedIn(d, b, s, true, hard);
    MarkedAdd(b.soft, |b.paragraphs| + 1);
    TextLengthAppend(d, [], s);
    assert [] + [s] == [s];
  }

  lemma FollowsJoin(d: Document, b: Building, before: Loop, s: Slice, hard: bool)
    requires BuildingIn(d, b) && d.Has(s) && Follows(d, b, before)
    ensures var v := Loop(b.paragraphs, before.continuations, b.current + [s], before.characters + d.Length(s),
                          d.Piece(s));
            BuildingIn(d, Placed(b, s, false, hard)) && Follows(d, Placed(b, s, false, hard), v)
  {
    PlacedIn(d, b, s, false, hard);
    TextLengthAppend(d, b.current, s);
  }

  /** One slice, once the boundary before it has been tested. */
  method GroupPiece(d: Document, ghost b: Building, before: Loop, s: Slice, hardBoundary: bool) returns (v: Loop)
    requires BuildingIn(d, b) && d.Has(s) && Follows(d, b, before)
    ensures var b' := Placed(b, s, Cuts(b, before.characters, d.Length(s), hardBoundary), hardBoundary);
            BuildingIn(d, b') && Follows(d, b', v)
  {
    v := before;
    var length := d.Length(s);
    var sizeBoundary := |v.current| >= PARAGRAPH_SENTENCES || v.characters + length > PARAGRAPH_CHARACTERS;
    if v.current != [] && (hardBoundary || sizeBoundary) {
      FollowsCut(d, b, before, s, hardBoundary);
      var paragraphs, continuations := v.paragraphs + [v.current], v.continuations;
      if !hardBoundary {
        continuations := continuations + {|paragraphs|};
      }
      v := Loop(paragraphs, continuations, [s], length, d.Piece(s));
    } else {
      FollowsJoin(d, b, before, s, hardBoundary);
      v := Loop(v.paragraphs, v.continuations, v.current + [s], v.characters + length, d.Piece(s));
    }
  }

  /** Slice j of a source. */
  method GroupSpan(d: Document, source: nat, j: nat, s: Slice, before: Loop, sourceBoundary: bool) returns (v: Loop)
    requires d.Aligned() && source < |d.texts| && j < |SentenceSpans(d.cl, d.texts[source])|
    requires s == NthSlice(d, source, j)
    requires Follows(d, Built(d, source, j), before)
        && SourceTest(d, source, Built(d, source, j).current, sourceBoundary, j)
    ensures Follows(d, Built(d, source, j + 1), v)
  {
    ghost var b := Built(d, source, j);
    BuiltStep(d, source, j);
    var hardBoundary := (s.start == 0 && sourceBoundary) || EndsBlank(d.cl, before.previousText);
    if before.current != [] { HardTest(d, source, j, b.current, sourceBoundary); }
    PlacedIsAdded(d, b, s, before.characters, hardBoundary);
    v := GroupPiece(d, b, before, s, hardBoundary);
  }

  /** All slices of one source. */
  method GroupSource(d: Document, source: nat, before: Loop) returns (v: Loop)
    requires source < |d.texts| && FollowsSources(d, source, before)
    ensures FollowsSources(d, source + 1, v)
  {
    var sourceBoundary := d.explicit[source] || (d.pauses[source] && before.characters >= PARAGRAPH_MIN_CHARACTERS);
    var spans := Spans(d.cl, d.texts[source]);
    BuiltEnds(d, source);
    v := GroupSpans(d, source, spans, before, sourceBoundary);
  }

  method GroupSpans(d: Document, source: nat, spans: seq<Span>, before: Loop, sourceBoundary: bool) returns (v: Loop)
    requires d.Aligned() && source < |d.texts| && spans == SentenceSpans(d.cl, d.texts[source])
    requires Follows(d, Built(d, source, 0), before)
        && SourceTest(d, source, Built(d, source, 0).current, sourceBoundary, 0)
    ensures Follows(d, Built(d, source, |spans|), v)
  {
    v := before;
    for j := 0 to |spans|
      invariant Follows(d, Built(d, source, j), v)
    {
      v := GroupSpan(d, source, j, Slice(source, spans[j].start, spans[j].end), v, sourceBoundary);
    }
  }

  method GroupSlices(d: Document) returns (paragraphs: seq<seq<Slice>>, continuations: set<nat>)
    requires d.Aligned()
    ensures var b := BuiltBefore(d, |d.texts|); paragraphs == Finish(b) && continuations == Marked(b.soft)
  {
    var v := GroupSources(d);
    paragraphs, continuations := v.paragraphs, v.continuations;
    if v.current != [] {
      paragraphs := paragraphs + [v.current];
    }
  }

  ghost predicate FollowsSources(d: Document, n: nat, v: Loop) {
    d.Aligned() && n <= |d.texts| && Follows(d, BuiltBefore(d, n), v)
  }

  lemma FollowsStart(d: Document)
    requires d.Aligned()
    ensures FollowsSources(d, 0, Loop([], {}, [], 0, ""))
  {
    assert BuiltBefore(d, 0) == Building([], [], []);
  }

  method GroupSources(d: Document) returns (v: Loop)
    requires d.Aligned()
    ensures FollowsSources(d, |d.texts|, v)
  {
    v := Loop([], {}, [], 0, "");
    FollowsStart(d);
    for source := 0 to |d.texts|
      invariant FollowsSources(d, source, v)
    {
      v := GroupSource(d, source, v);
    }
  }

  /** Over the continuing paragraphs in ascending order. */
  method BalanceTails(d: Document, grouped: seq<seq<Slice>>, continuations: set<nat>, ghost soft: seq<nat>)
    returns (paragraphs: seq<seq<Slice>>)
    requires AllIn(d, grouped) && SoftOrdered(soft, |grouped|)
    requires continuations == Marked(soft)
    ensures paragraphs == Balance(d, grouped, soft)
  {
    paragraphs := grouped;
    MarkedMembers(soft);
    ghost var n := 0;
    for index := 0 to |paragraphs|
      invariant |paragraphs| == |grouped| && n <= |soft|
      invariant forall k :: 0 <= k < n ==> soft[k] < index
      invariant forall k :: n <= k < |soft| ==> index <= soft[k]
      invariant AllIn(d, paragraphs) && paragraphs == Balance(d, grouped, soft[..n])
    {
      if index in continuations {
        assert n < |soft| && soft[n] == index;
        assert soft[..n + 1][..n] == soft[..n];
        paragraphs := BalanceTail(d, paragraphs, index);
        n := n + 1;
      }
    }
    assert soft[..n] == soft;
  }

  method ParagraphSlices(d: Document) returns (paragraphs: seq<seq<Slice>>)
    requires d.Aligned()
    ensures paragraphs == ReadableParagraphs(d)
    ensures RightlyParted(d, paragraphs)
  {
    var grouped, continuations := GroupSlices(d);
    SlicesInDocument(d, |d.texts|);
    GroupKeeps(d, SlicesBefore(d, |d.texts|));
    paragraphs := BalanceTails(d, grouped, continuations, BuiltBefore(d, |d.texts|).soft);
    ParagraphsParted(d, paragraphs);
  }
}
