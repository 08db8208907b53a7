/** The transcript autosave protocol: a client that debounces, saves one PATCH at a time and rebases on
    conflict, against a server that accepts a PATCH exactly when it names the current version.

    First one segment as a pure state machine (client, requests in flight and server), its invariant and
    what the invariant gives over every run; then the client's module-level maps as a class, whose
    operations are proved to move exactly one segment's machine. */
module Autosave {
  import opened Common

  datatype Status = Waiting | Saving | Saved | Failed

  datatype Draft = Draft(
    text: string,
    version: nat,
    status: Status,
    conflict: bool,
    server: Option<Reading>
  )

  /** What a GET returns: a version and its text. */
  datatype Reading = Reading(version: nat, text: string)

  datatype Verdict = Unhandled | Accepted(version: nat) | Refused

  /** A PATCH whose continuation is suspended; the generation is the one captured before the await. */
  datatype Patch = Patch(generation: nat, version: nat, text: string, verdict: Verdict)

  /** A GET whose continuation is suspended. A rebase remembers the server version it was started from. */
  datatype Get = Get(generation: nat, basis: Option<nat>, answer: Option<Reading>)

  /** One segment: the client's entries for it, its requests in flight, the server's texts by version,
      and (for the specification) the last text typed into the present draft. */
  datatype Segment = Segment(
    draft: Option<Draft>,
    timer: bool,
    running: bool,
    generation: Option<nat>,
    issued: nat,
    patches: seq<Patch>,
    loads: seq<Get>,
    rebases: seq<Get>,
    history: seq<string>,
    typed: Option<string>
  )

  function Without<T>(xs: seq<T>, k: nat): seq<T>
    requires k < |xs|
  {
    xs[..k] + xs[k + 1..]
  }

  // ----- The client's transitions -----

  function WithGeneration(s: Segment): Segment {
    if s.generation.Some? then s else s.(generation := Some(s.issued), issued := s.issued + 1)
  }

  function FreshDraft(previous: Option<Draft>, segmentVersion: nat, text: string): Draft {
    var version := match previous
      case None => segmentVersion
      case Some(d) => if d.status != Saved then d.version else Max(d.version, segmentVersion);
    Draft(text, version, Waiting, false, None)
  }

  function Schedule(s: Segment, segmentVersion: nat, text: string): Segment {
    var s := if s.draft.None? then s.(generation := Some(s.issued), issued := s.issued + 1) else s;
    var s := s.(typed := Some(text));
    if s.draft.Some? && s.draft.value.conflict then s.(draft := Some(s.draft.value.(text := text)))
    else s.(draft := Some(FreshDraft(s.draft, segmentVersion, text)), timer := true)
  }

  predicate Sendable(s: Segment) {
    !s.running && s.draft.Some? && s.draft.value.status != Saved && !s.draft.value.conflict
  }

  function Flush(s: Segment): Segment {
    if !Sendable(s) then s
    else
      var d, s := s.draft.value, WithGeneration(s);
      s.(timer := false, running := true, draft := Some(d.(status := Saving)),
         patches := s.patches + [Patch(s.generation.value, d.version, d.text, Unhandled)])
  }

  /** The draft a continuation may still touch. */
  function Current(s: Segment, generation: nat): Option<Draft> {
    if s.generation == Some(generation) then s.draft else None
  }

  function Settle(s: Segment, p: Patch, lost: bool): Segment {
    match Current(s, p.generation)
    case None => s
    case Some(latest) =>
      if !lost && p.verdict.Accepted? then
        s.(draft := Some(Draft(latest.text, p.verdict.version, if latest.text != p.text then Waiting else Saved, false,
                               None)))
      else
        s.(draft := Some(latest.(status := Failed, conflict := !lost && p.verdict.Refused?)))
  }

  predicate Resumable(s: Segment) {
    s.draft.Some? && s.draft.value.status == Waiting && !s.timer
  }

  /** The reply to PATCH k arrives (or the request is lost), followed by the finally clause. */
  function PatchReply(s: Segment, k: nat, lost: bool): Segment
    requires k < |s.patches|
  {
    var p := s.patches[k];
    var s := Settle(s.(patches := Without(s.patches, k)), p, lost).(running := false);
    if Resumable(s) then Flush(s) else s
  }

  function LoadLatest(s: Segment): Segment {
    if s.draft.None? then s
    else
      var s := WithGeneration(s);
      s.(loads := s.loads + [Get(s.generation.value, None, None)])
  }

  function LoadReply(s: Segment, k: nat, lost: bool): Segment
    requires k < |s.loads|
  {
    var g := s.loads[k];
    var s := s.(loads := Without(s.loads, k));
    match Current(s, g.generation)
    case None => s
    case Some(current) =>
      if !lost && g.answer.Some? then
        s.(draft := Some(current.(conflict := true, status := Failed, server := g.answer)))
      else s.(draft := Some(current.(status := Failed)))
  }

  function SaveRebased(s: Segment): Segment {
    if s.draft.None? || s.draft.value.server.None? then s
    else
      var basis, s := s.draft.value.server.value.version, WithGeneration(s);
      s.(rebases := s.rebases + [Get(s.generation.value, Some(basis), None)])
  }

  function RebaseReply(s: Segment, k: nat, lost: bool): Segment
    requires k < |s.rebases|
  {
    var g := s.rebases[k];
    var s := s.(rebases := Without(s.rebases, k));
    match Current(s, g.generation)
    case None => s
    case Some(current) =>
      if lost || g.answer.None? then s
      else if current.server.None? || Some(current.server.value.version) != g.basis then s
      else if g.answer.value.version != current.server.value.version
        then s.(draft := Some(current.(server := g.answer)))
      else
        Flush(s.(draft := Some(current.(version := g.answer.value.version, conflict := false, server := None,
                                        status := Waiting))))
  }

  function Discard(s: Segment): Segment {
    s.(generation := None, timer := false, draft := None, typed := None)
  }

  // ----- The server's transitions -----

  function CurrentVersion(s: Segment): nat
    requires s.history != []
  {
    |s.history| - 1
  }

  /** The server accepts a PATCH exactly when it names the current version. */
  function HandlePatch(s: Segment, k: nat): Segment
    requires k < |s.patches| && s.history != []
  {
    var p := s.patches[k];
    if !p.verdict.Unhandled? then s
    else if p.version == CurrentVersion(s) then
      s.(history := s.history + [p.text], patches := s.patches[k := p.(verdict := Accepted(|s.history|))])
    else s.(patches := s.patches[k := p.(verdict := Refused)])
  }

  function Answer(s: Segment, g: Get): Get
    requires s.history != []
  {
    if g.answer.Some? then g else g.(answer := Some(Reading(CurrentVersion(s), s.history[CurrentVersion(s)])))
  }

  // ----- Runs -----

  datatype Event =
    | Type(segmentVersion: nat, text: string)
    | TimerFires
    | FlushAsked
    | PatchReplies(k: nat, lost: bool)
    | LoadAsked
    | LoadReplies(k: nat, lost: bool)
    | RebaseAsked
    | RebaseReplies(k: nat, lost: bool)
    | Discarded
    | GenerationTakenElsewhere
    | ServerHandlesPatch(k: nat)
    | ServerAnswersLoad(k: nat)
    | ServerAnswersRebase(k: nat)
    | AnotherClientWrites(text: string)

  predicate Enabled(s: Segment, e: Event) {
    match e
    case TimerFires => s.timer
    case PatchReplies(k, _) => k < |s.patches|
    case LoadReplies(k, _) => k < |s.loads|
    case RebaseReplies(k, _) => k < |s.rebases|
    case ServerHandlesPatch(k) => k < |s.patches| && s.history != []
    case ServerAnswersLoad(k) => k < |s.loads| && s.history != []
    case ServerAnswersRebase(k) => k < |s.rebases| && s.history != []
    case _ => true
  }

  function Step(s: Segment, e: Event): Segment
    requires Enabled(s, e)
  {
    match e
    case Type(v, text) => Schedule(s, v, text)
    case TimerFires => Flush(s.(timer := false))
    case FlushAsked => Flush(s)
    case PatchReplies(k, lost) => PatchReply(s, k, lost)
    case LoadAsked => LoadLatest(s)
    case LoadReplies(k, lost) => LoadReply(s, k, lost)
    case RebaseAsked => SaveRebased(s)
    case RebaseReplies(k, lost) => RebaseReply(s, k, lost)
    case Discarded => Discard(s)
    case GenerationTakenElsewhere => s.(issued := s.issued + 1)
    case ServerHandlesPatch(k) => HandlePatch(s, k)
    case ServerAnswersLoad(k) => s.(loads := s.loads[k := Answer(s, s.loads[k])])
    case ServerAnswersRebase(k) => s.(rebases := s.rebases[k := Answer(s, s.rebases[k])])
    case AnotherClientWrites(text) => s.(history := s.history + [text])
  }

  predicate Reaches(s: Segment, events: seq<Event>, t: Segment)
    decreases |events|
  {
    if events == [] then s == t
    else Enabled(s, events[0]) && Reaches(Step(s, events[0]), events[1..], t)
  }

  /** After loading the page: at most one restored draft, nothing in flight, no generation yet. */
  predicate Initial(s: Segment) {
    && s.history != []
    && !s.timer && !s.running && s.generation.None?
    && s.patches == [] && s.loads == [] && s.rebases == []
    && (s.draft.None? <==> s.typed.None?)
    && (s.draft.Some? ==> s.draft.value.status == Failed && s.typed == Some(s.draft.value.text))
    && (s.draft.Some? && s.draft.value.server.Some? ==> Holds(s.history, s.draft.value.server.value))
  }

  // ----- The invariant -----

  predicate Holds(history: seq<string>, r: Reading) {
    r.version < |history| && history[r.version] == r.text
  }

  predicate DraftInv(s: Segment) {
    match s.draft
    case None => !s.timer && s.generation.None? && s.typed.None?
    case Some(d) =>
      && s.typed == Some(d.text)
      && (d.conflict ==> d.status == Failed)
      && (d.server.Some? ==> Holds(s.history, d.server.value))
      && (d.status == Saved ==> Holds(s.history, Reading(d.version, d.text)))
      && (d.status == Saving ==> SavingInv(s, d))
  }

  /** A draft shown as saving is what the one PATCH in flight carries, and that PATCH is its own. */
  predicate SavingInv(s: Segment, d: Draft) {
    |s.patches| == 1
    && s.generation == Some(s.patches[0].generation)
    && s.patches[0].text == d.text && s.patches[0].version == d.version
  }

  predicate PatchInv(s: Segment, p: Patch) {
    && p.generation < s.issued
    && (p.verdict.Accepted? ==>
        p.verdict.version == p.version + 1 && Holds(s.history, Reading(p.verdict.version, p.text)))
  }

  predicate GetInv(s: Segment, g: Get) {
    && g.generation < s.issued
    && (g.answer.Some? ==> Holds(s.history, g.answer.value))
  }

  /** Everything but the promise that a waiting draft will be sent. */
  predicate CoreInv(s: Segment) {
    && s.history != []
    && s.running == (|s.patches| == 1) && |s.patches| <= 1
    && (s.generation.Some? ==> s.generation.value < s.issued)
    && (forall k :: 0 <= k < |s.patches| ==> PatchInv(s, s.patches[k]))
    && (forall k :: 0 <= k < |s.loads| ==> GetInv(s, s.loads[k]))
    && (forall k :: 0 <= k < |s.rebases| ==> GetInv(s, s.rebases[k]))
    && DraftInv(s)
  }

  predicate Inv(s: Segment) {
    && CoreInv(s)
    && (s.draft.Some? && s.draft.value.status == Waiting ==> s.timer || s.running)
  }

  lemma FlushKeeps(s: Segment)
    requires CoreInv(s)
    ensures Inv(Flush(s))
  {
  }

  lemma PatchReplyKeeps(s: Segment, k: nat, lost: bool)
    requires Inv(s) && k < |s.patches|
    ensures Inv(PatchReply(s, k, lost))
  {
    var p := s.patches[k];
    assert PatchInv(s, p);
    var s' := Settle(s.(patches := Without(s.patches, k)), p, lost).(running := false);
    assert s'.patches == [];
    assert CoreInv(s');
    FlushKeeps(s');
  }

  lemma LoadReplyKeeps(s: Segment, k: nat, lost: bool)
    requires Inv(s) && k < |s.loads|
    ensures Inv(LoadReply(s, k, lost))
  {
    assert GetInv(s, s.loads[k]);
    var s' := s.(loads := Without(s.loads, k));
    forall j | 0 <= j < |s'.loads| ensures GetInv(s', s'.loads[j]) {
      assert s'.loads[j] == s.loads[if j < k then j else j + 1];
    }
    assert Inv(s');
  }

  lemma RebaseReplyKeeps(s: Segment, k: nat, lost: bool)
    requires Inv(s) && k < |s.rebases|
    ensures Inv(RebaseReply(s, k, lost))
  {
    var g := s.rebases[k];
    assert GetInv(s, g);
    var s' := s.(rebases := Without(s.rebases, k));
    forall j | 0 <= j < |s'.rebases| ensures GetInv(s', s'.rebases[j]) {
      assert s'.rebases[j] == s.rebases[if j < k then j else j + 1];
    }
    assert Inv(s');
    if s'.draft.Some? && g.answer.Some? {
      var rebased := s'.draft.value.(version := g.answer.value.version, conflict := false, server := None,
                                     status := Waiting);
      FlushKeeps(s'.(draft := Some(rebased)));
    }
  }

  /** Facts about the server's texts survive new texts. */
  lemma HistoryGrows(s: Segment, text: string)
    requires CoreInv(s)
    ensures CoreInv(s.(history := s.history + [text]))
  {
    var t := s.(history := s.history + [text]);
    forall k | 0 <= k < |s.patches| ensures PatchInv(t, t.patches[k]) { assert PatchInv(s, s.patches[k]); }
    forall k | 0 <= k < |s.loads| ensures GetInv(t, t.loads[k]) { assert GetInv(s, s.loads[k]); }
    forall k | 0 <= k < |s.rebases| ensures GetInv(t, t.rebases[k]) { assert GetInv(s, s.rebases[k]); }
  }

  lemma WriteKeeps(s: Segment, text: string)
    requires Inv(s)
    ensures Inv(s.(history := s.history + [text]))
  {
    HistoryGrows(s, text);
  }

  lemma HandlePatchKeeps(s: Segment, k: nat)
    requires Inv(s) && k < |s.patches|
    ensures Inv(HandlePatch(s, k))
  {
    HistoryGrows(s, s.patches[k].text);
  }

  lemma LoadLatestKeeps(s: Segment)
    requires Inv(s)
    ensures Inv(LoadLatest(s))
  {
  }

  lemma SaveRebasedKeeps(s: Segment)
    requires Inv(s)
    ensures Inv(SaveRebased(s))
  {
  }

  lemma AnswersKeep(s: Segment, k: nat)
    requires Inv(s)
    ensures k < |s.loads| ==> Inv(s.(loads := s.loads[k := Answer(s, s.loads[k])]))
    ensures k < |s.rebases| ==> Inv(s.(rebases := s.rebases[k := Answer(s, s.rebases[k])]))
  {
  }

  lemma TypingKeeps(s: Segment, segmentVersion: nat, text: string)
    requires Inv(s)
    ensures Inv(Schedule(s, segmentVersion, text))
  {
  }

  lemma DiscardKeeps(s: Segment)
    requires Inv(s)
    ensures Inv(Discard(s)) && Inv(s.(issued := s.issued + 1))
  {
  }

  lemma StepKeepsInv(s: Segment, e: Event)
    requires Inv(s) && Enabled(s, e)
    ensures Inv(Step(s, e))
  {
    match e
    case Type(v, text) => TypingKeeps(s, v, text);
    case TimerFires => FlushKeeps(s.(timer := false));
    case FlushAsked => FlushKeeps(s);
    case PatchReplies(k, lost) => PatchReplyKeeps(s, k, lost);
    case LoadReplies(k, lost) => LoadReplyKeeps(s, k, lost);
    case RebaseReplies(k, lost) => RebaseReplyKeeps(s, k, lost);
    case ServerHandlesPatch(k) => HandlePatchKeeps(s, k);
    case AnotherClientWrites(text) => WriteKeeps(s, text);
    case ServerAnswersLoad(k) => AnswersKeep(s, k);
    case ServerAnswersRebase(k) => AnswersKeep(s, k);
    case LoadAsked => LoadLatestKeeps(s);
    case RebaseAsked => SaveRebasedKeeps(s);
    case Discarded => DiscardKeeps(s);
    case GenerationTakenElsewhere => DiscardKeeps(s);
  }

  lemma {:induction false} RunKeepsInv(s: Segment, events: seq<Event>, t: Segment)
    requires Inv(s) && Reaches(s, events, t)
    ensures Inv(t)
    decreases |events|
  {
    if events != [] {
      StepKeepsInv(s, events[0]);
      RunKeepsInv(Step(s, events[0]), events[1..], t);
    }
  }

  // ----- What every run keeps -----

  /** The last text typed since the draft was last discarded. */
  function LastTyped(start: Option<string>, events: seq<Event>): Option<string>
    decreases |events|
  {
    if events == [] then start
    else
      match events[|events| - 1]
      case Type(_, text) => Some(text)
      case Discarded => None
      case _ => LastTyped(start, events[..|events| - 1])
  }

  function TypedAfter(before: Option<string>, e: Event): Option<string> {
    match e
    case Type(_, text) => Some(text)
    case Discarded => None
    case _ => before
  }

  lemma {:induction false} LastTypedFromFront(start: Option<string>, events: seq<Event>)
    requires events != []
    ensures LastTyped(start, events) == LastTyped(TypedAfter(start, events[0]), events[1..])
    decreases |events|
  {
    if |events| > 1 {
      LastTypedFromFront(start, events[..|events| - 1]);
      assert events[..|events| - 1][1..] == events[1..][..|events| - 2];
    }
  }

  lemma {:induction false} RunTyped(s: Segment, events: seq<Event>, t: Segment)
    requires Reaches(s, events, t)
    ensures t.typed == LastTyped(s.typed, events)
    decreases |events|
  {
    if events != [] {
      RunTyped(Step(s, events[0]), events[1..], t);
      LastTypedFromFront(s.typed, events);
    }
  }

  function DraftText(s: Segment): Option<string> {
    match s.draft
    case None => None
    case Some(d) => Some(d.text)
  }

  /** Safety over every interleaving, from page load: at most one PATCH in flight; the draft's text is
      the last text typed; "saved" means the server holds exactly that text at the draft's version;
      "waiting" means a timer or a PATCH will come back to it; and once nothing is pending, a draft is
      either saved or shown as failed. */
  lemma Safety(s: Segment, events: seq<Event>, t: Segment)
    requires Initial(s) && Reaches(s, events, t)
    ensures |t.patches| <= 1
    ensures DraftText(t) == LastTyped(DraftText(s), events)
    ensures t.draft.Some? && t.draft.value.status == Saved ==>
        Holds(t.history, Reading(t.draft.value.version, t.draft.value.text))
    ensures t.draft.Some? && t.draft.value.status == Waiting ==> t.timer || t.patches != []
    ensures t.draft.Some? && t.draft.value.status == Saving ==>
      |t.patches| == 1 && t.patches[0].text == t.draft.value.text && t.patches[0].version == t.draft.value.version
    ensures t.draft.Some? && !t.timer && t.patches == [] ==> t.draft.value.status in {Saved, Failed}
  {
    assert Inv(s);
    RunKeepsInv(s, events, t);
    RunTyped(s, events, t);
  }

  // ----- Discarding while a reply is on its way -----

  /** Every generation the segment can still take, and the one it has, is at least the bound. */
  predicate GenerationsFrom(s: Segment, bound: nat) {
    bound <= s.issued && (s.generation.Some? ==> s.generation.value >= bound)
  }

  lemma FlushGeneration(s: Segment, bound: nat)
    requires GenerationsFrom(s, bound)
    ensures GenerationsFrom(Flush(s), bound) && GenerationsFrom(Flush(s.(timer := false)), bound)
  {
  }

  lemma ReplyGeneration(s: Segment, k: nat, lost: bool, bound: nat)
    requires GenerationsFrom(s, bound)
    ensures k < |s.patches| ==> GenerationsFrom(PatchReply(s, k, lost), bound)
    ensures k < |s.rebases| ==> GenerationsFrom(RebaseReply(s, k, lost), bound)
  {
  }

  lemma StepGeneration(s: Segment, e: Event, bound: nat)
    requires Enabled(s, e) && GenerationsFrom(s, bound)
    ensures GenerationsFrom(Step(s, e), bound)
  {
    match e
    case TimerFires => FlushGeneration(s, bound);
    case FlushAsked => FlushGeneration(s, bound);
    case PatchReplies(k, lost) => ReplyGeneration(s, k, lost, bound);
    case RebaseReplies(k, lost) => ReplyGeneration(s, k, lost, bound);
    case _ =>
  }

  lemma {:induction false} RunGeneration(s: Segment, events: seq<Event>, t: Segment, bound: nat)
    requires Reaches(s, events, t) && GenerationsFrom(s, bound)
    ensures GenerationsFrom(t, bound)
    decreases |events|
  {
    if events != [] {
      StepGeneration(s, events[0], bound);
      RunGeneration(Step(s, events[0]), events[1..], t, bound);
    }
  }

  /** Same draft, except that a waiting draft may have started its own save. */
  predicate Undisturbed(before: Option<Draft>, after: Option<Draft>) {
    before == after
    || (before.Some? && before.value.status == Waiting && after == Some(before.value.(status := Saving)))
  }

  /** Whatever happens after a discard, a reply to a request sent before it finds another generation (or
      none): a load or rebase reply changes no draft, and a PATCH reply at most lets the newer draft start
      its own save with its own text. */
  lemma DiscardedReplyIsInert(s: Segment, events: seq<Event>, t: Segment, k: nat, lost: bool)
    requires Inv(s) && Reaches(Discard(s), events, t)
    ensures k < |t.patches| && t.patches[k].generation < s.issued ==>
      && Undisturbed(t.draft, PatchReply(t, k, lost).draft)
      && (PatchReply(t, k, lost).patches == [] ||
          (t.draft.Some? && PatchReply(t, k, lost).patches[0].text == t.draft.value.text))
    ensures k < |t.loads| && t.loads[k].generation < s.issued ==> LoadReply(t, k, lost).draft == t.draft
    ensures k < |t.rebases| && t.rebases[k].generation < s.issued ==> RebaseReply(t, k, lost).draft == t.draft
    ensures forall j :: 0 <= j < |s.patches| ==> s.patches[j].generation < s.issued
  {
    RunGeneration(Discard(s), events, t, s.issued);
    RunKeepsInv(Discard(s), events, t);
    if k < |t.patches| && t.patches[k].generation < s.issued { StalePatch(t, k, lost, s.issued); }
    if k < |t.loads| && t.loads[k].generation < s.issued { StaleLoad(t, k, lost, s.issued); }
    if k < |t.rebases| && t.rebases[k].generation < s.issued { StaleRebase(t, k, lost, s.issued); }
    forall j | 0 <= j < |s.patches| ensures s.patches[j].generation < s.issued {
      assert PatchInv(s, s.patches[j]);
    }
  }

  lemma StalePatch(t: Segment, k: nat, lost: bool, bound: nat)
    requires Inv(t) && GenerationsFrom(t, bound) && k < |t.patches| && t.patches[k].generation < bound
    ensures Undisturbed(t.draft, PatchReply(t, k, lost).draft)
    ensures PatchReply(t, k, lost).patches == [] ||
            (t.draft.Some? && PatchReply(t, k, lost).patches[0].text == t.draft.value.text)
  {
  }

  lemma StaleLoad(t: Segment, k: nat, lost: bool, bound: nat)
    requires Inv(t) && GenerationsFrom(t, bound) && k < |t.loads| && t.loads[k].generation < bound
    ensures LoadReply(t, k, lost).draft == t.draft
  {
  }

  lemma StaleRebase(t: Segment, k: nat, lost: bool, bound: nat)
    requires Inv(t) && GenerationsFrom(t, bound) && k < |t.rebases| && t.rebases[k].generation < bound
    ensures RebaseReply(t, k, lost).draft == t.draft
  {
  }

  // ----- What a reply does -----

  /** What the reply to a PATCH does to the draft it was sent for. Accepted: the draft builds on the new version, and is
      saved if its text is the one sent, else goes out next, at once unless a timer runs. Refused: a conflict. Lost: a
      failure, and no conflict. */
  lemma PatchReplyMeans(s: Segment, lost: bool)
    requires Inv(s) && s.patches != [] && s.draft.Some? && s.generation == Some(s.patches[0].generation)
    ensures var t := PatchReply(s, 0, lost);
      && t.history == s.history && t.typed == s.typed && t.generation == s.generation
      && (t.patches == [] ==> t.timer == s.timer)
    ensures var t, p := PatchReply(s, 0, lost), s.patches[0];
      lost || !p.verdict.Accepted? ==>
        && t.draft == Some(s.draft.value.(status := Failed, conflict := !lost && p.verdict.Refused?))
        && t.patches == []
    ensures var t, p, text := PatchReply(s, 0, lost), s.patches[0], s.draft.value.text;
      !lost && p.verdict.Accepted? ==>
        && t.draft == Some(Draft(text, p.version + 1,
                                 if text == p.text then Saved else if s.timer then Waiting else Saving, false, None))
        && t.patches == (if text == p.text || s.timer then []
                         else [Patch(p.generation, p.version + 1, text, Unhandled)])
        && (t.patches != [] ==> !t.timer)
  {
    assert PatchInv(s, s.patches[0]);
    assert Without(s.patches, 0) == [];
  }

  // ----- What a rebase saves onto -----

  /** At an earlier moment of the run a rebase was asked for, in this generation, by a draft that showed the reading. */
  ghost predicate Compared(start: Segment, events: seq<Event>, generation: nat, reading: Reading) {
    exists i: nat, r: Segment :: i < |events| && events[i] == RebaseAsked && Reaches(start, events[..i], r)
        && AsksWith(r, generation, reading)
  }

  predicate AsksWith(r: Segment, generation: nat, reading: Reading) {
    r.draft.Some? && r.draft.value.server == Some(reading) && Step(r, RebaseAsked).generation == Some(generation)
  }

  /** The rebase was asked for while the draft showed the text that its basis still stands for. */
  ghost predicate AskedFor(start: Segment, events: seq<Event>, g: Get, history: seq<string>) {
    exists reading :: Holds(history, reading) && g.basis == Some(reading.version)
        && Compared(start, events, g.generation, reading)
  }

  predicate Grows(before: seq<string>, after: seq<string>) { |before| <= |after| && after[..|before|] == before }

  lemma StepGrows(s: Segment, e: Event)
    requires Enabled(s, e)
    ensures Grows(s.history, Step(s, e).history)
  {
  }

  /** The texts of versions never change. */
  lemma {:induction false} RunGrows(s: Segment, events: seq<Event>, t: Segment)
    requires Reaches(s, events, t)
    ensures Grows(s.history, t.history)
    decreases |events|
  {
    if events != [] {
      StepGrows(s, events[0]);
      RunGrows(Step(s, events[0]), events[1..], t);
    }
  }

  predicate SameRequest(a: Get, b: Get) { a.generation == b.generation && a.basis == b.basis }

  ghost predicate Pends(s: Segment, g: Get) { exists k: nat :: k < |s.rebases| && SameRequest(s.rebases[k], g) }

  lemma FlushRebases(s: Segment)
    ensures Flush(s).rebases == s.rebases
  {
  }

  lemma ReplyRebases(s: Segment, k: nat, n: nat, lost: bool)
    requires n < |s.rebases| && k < |RebaseReply(s, n, lost).rebases|
    ensures Pends(s, RebaseReply(s, n, lost).rebases[k])
  {
    var t := RebaseReply(s, n, lost);
    assert t.rebases == Without(s.rebases, n);
    assert SameRequest(s.rebases[if k < n then k else k + 1], t.rebases[k]);
  }

  lemma OtherRebases(s: Segment, e: Event)
    requires Enabled(s, e) && !e.RebaseReplies? && e != RebaseAsked && !e.ServerAnswersRebase?
    ensures Step(s, e).rebases == s.rebases
  {
    match e
    case TimerFires => FlushRebases(s.(timer := false));
    case FlushAsked => FlushRebases(s);
    case PatchReplies(k, lost) =>
      FlushRebases(Settle(s.(patches := Without(s.patches, k)), s.patches[k], lost).(running := false));
    case _ =>
  }

  lemma StepRebases(s: Segment, e: Event, k: nat)
    requires Enabled(s, e) && k < |Step(s, e).rebases|
    ensures Pends(s, Step(s, e).rebases[k])
      || (e == RebaseAsked && s.draft.Some? && s.draft.value.server.Some?
          && Step(s, e).rebases[k].basis == Some(s.draft.value.server.value.version)
          && Step(s, e).generation == Some(Step(s, e).rebases[k].generation))
  {
    if e.RebaseReplies? {
      ReplyRebases(s, k, e.k, e.lost);
    } else if e == RebaseAsked {
      if k < |s.rebases| { assert SameRequest(s.rebases[k], Step(s, e).rebases[k]); }
    } else {
      if !e.ServerAnswersRebase? { OtherRebases(s, e); }
      assert SameRequest(s.rebases[k], Step(s, e).rebases[k]);
    }
  }

  lemma ComparedLater(s: Segment, events: seq<Event>, generation: nat, reading: Reading)
    requires events != [] && Enabled(s, events[0]) && Compared(Step(s, events[0]), events[1..], generation, reading)
    ensures Compared(s, events, generation, reading)
  {
    var s1, rest := Step(s, events[0]), events[1..];
    var i: nat, r: Segment :| i < |rest| && rest[i] == RebaseAsked && Reaches(s1, rest[..i], r)
        && AsksWith(r, generation, reading);
    assert events[..i + 1][1..] == rest[..i];
    assert Reaches(s, events[..i + 1], r);
  }

  lemma {:induction false} RebasesAskedFor(s: Segment, events: seq<Event>, t: Segment, k: nat)
    requires Inv(s) && Reaches(s, events, t) && k < |t.rebases|
    ensures Pends(s, t.rebases[k]) || AskedFor(s, events, t.rebases[k], t.history)
    decreases |events|
  {
    var g := t.rebases[k];
    if events == [] {
      assert SameRequest(s.rebases[k], g);
    } else {
      var e, s1 := events[0], Step(s, events[0]);
      StepKeepsInv(s, e);
      RebasesAskedFor(s1, events[1..], t, k);
      if Pends(s1, g) {
        var j: nat :| j < |s1.rebases| && SameRequest(s1.rebases[j], g);
        StepRebases(s, e, j);
        if Pends(s, s1.rebases[j]) {
          var m: nat :| m < |s.rebases| && SameRequest(s.rebases[m], s1.rebases[j]);
          assert SameRequest(s.rebases[m], g);
        } else {
          AskedNow(s, events, t, g);
        }
      } else {
        var reading :| Holds(t.history, reading) && g.basis == Some(reading.version)
            && Compared(s1, events[1..], g.generation, reading);
        ComparedLater(s, events, g.generation, reading);
      }
    }
  }

  lemma AskedNow(s: Segment, events: seq<Event>, t: Segment, g: Get)
    requires Inv(s) && Reaches(s, events, t) && events != [] && events[0] == RebaseAsked
    requires s.draft.Some? && s.draft.value.server.Some? && g.basis == Some(s.draft.value.server.value.version)
        && Step(s, events[0]).generation == Some(g.generation)
    ensures AskedFor(s, events, g, t.history)
  {
    var reading := s.draft.value.server.value;
    RunGrows(s, events, t);
    assert Reaches(s, events[..0], s) && AsksWith(s, g.generation, reading);
    assert Compared(s, events, g.generation, reading);
    assert Holds(t.history, reading);
  }

  /** What the reply to a rebase does. Lost, or for a draft that is gone or shows another reading than the one the
      rebase was asked for with: nothing. With another version than that: the draft shows the newer reading and nothing
      else changes. With that version: the draft's text goes onto it, at once or after the PATCH in flight. */
  lemma RebaseReplyMeans(s: Segment, k: nat, lost: bool)
    requires Inv(s) && k < |s.rebases|
    ensures var t, g := RebaseReply(s, k, lost), s.rebases[k];
      && t.history == s.history && t.typed == s.typed && t.generation == s.generation
      && if lost || g.answer.None? || s.generation != Some(g.generation) || s.draft.value.server.None?
            || Some(s.draft.value.server.value.version) != g.basis
         then t.draft == s.draft && t.patches == s.patches && t.timer == s.timer
         else if Some(g.answer.value.version) != g.basis
         then t.draft == Some(s.draft.value.(server := g.answer)) && t.patches == s.patches && t.timer == s.timer
         else
           && t.draft.Some? && t.draft.value.text == s.draft.value.text && Some(t.draft.value.version) == g.basis
           && !t.draft.value.conflict && t.draft.value.server.None?
           && if s.patches == []
              then t.draft.value.status == Saving && !t.timer
                && t.patches == [Patch(g.generation, t.draft.value.version, t.draft.value.text, Unhandled)]
              else t.draft.value.status == Waiting && t.patches == s.patches && t.timer == s.timer
  {
    var g := s.rebases[k];
    assert GetInv(s, g);
  }

  /** A PATCH is sent, or the draft builds on another version, or is out of conflict. */
  predicate SavesOrRebases(s: Segment, t: Segment) {
    || t.patches != s.patches
    || (s.draft.Some? && t.draft.Some?
        && (t.draft.value.version != s.draft.value.version || (s.draft.value.conflict && !t.draft.value.conflict)))
  }

  /** Over every run from page load, a rebase sends a PATCH, moves the draft or ends its conflict only if the server
      answered the very version, and so the very text, that this draft still shows and showed when the rebase was
      asked for; the draft's text goes onto that version. */
  lemma RebaseSavesOntoCompared(start: Segment, events: seq<Event>, s: Segment, k: nat, lost: bool)
    requires Initial(start) && Reaches(start, events, s) && k < |s.rebases|
    requires SavesOrRebases(s, RebaseReply(s, k, lost))
    ensures s.draft.Some? && s.draft.value.server.Some? && s.generation.Some?
    ensures var t, reading := RebaseReply(s, k, lost), s.draft.value.server.value;
      && Compared(start, events, s.generation.value, reading) && Holds(s.history, reading)
      && !lost && s.rebases[k].answer == Some(reading)
      && t.draft.Some? && t.draft.value.text == s.draft.value.text && t.draft.value.version == reading.version
      && (t.patches == s.patches
          || t.patches == s.patches + [Patch(s.generation.value, reading.version, s.draft.value.text, Unhandled)])
  {
    RunKeepsInv(start, events, s);
    RebasesAskedFor(start, events, s, k);
    RebaseReplyMeans(s, k, lost);
    assert GetInv(s, s.rebases[k]);
  }

  /** What the reply to a load does: the draft of its generation shows the server's reading as a conflict, or a failure
      when the reply is lost; any other draft is left alone, and nothing is sent. */
  lemma LoadReplyMeans(s: Segment, k: nat, lost: bool)
    requires Inv(s) && k < |s.loads|
    ensures var t, g := LoadReply(s, k, lost), s.loads[k];
      && t == s.(draft := t.draft, loads := Without(s.loads, k))
      && if s.generation != Some(g.generation) then t.draft == s.draft
         else if lost || g.answer.None? then t.draft == Some(s.draft.value.(status := Failed))
         else t.draft == Some(s.draft.value.(status := Failed, conflict := true, server := g.answer))
  {
  }

  /** Asking for the latest version and then for a rebase, with nothing else under way and nobody else writing, saves
      the draft on top of what the server had. */
  lemma ComparedDraftIsSaved(s: Segment)
    requires Inv(s) && s.draft.Some? && !s.timer && s.patches == [] && s.loads == [] && s.rebases == []
    ensures var shown := Do(Do(Do(s, LoadAsked), ServerAnswersLoad(0)), LoadReplies(0, false));
            var sent := Do(Do(Do(shown, RebaseAsked), ServerAnswersRebase(0)), RebaseReplies(0, false));
            var t := Do(Do(sent, ServerHandlesPatch(0)), PatchReplies(0, false));
      && shown.draft == Some(s.draft.value.(status := Failed, conflict := true,
                                            server := Some(Reading(CurrentVersion(s), s.history[CurrentVersion(s)]))))
      && shown.history == s.history && shown.patches == []
      && t.history == s.history + [s.draft.value.text]
      && t.draft == Some(Draft(s.draft.value.text, |s.history|, Saved, false, None))
      && t.patches == [] && !t.timer
  {
    var a := Do(s, LoadAsked);
    StepKeepsInv(s, LoadAsked);
    var b := Do(a, ServerAnswersLoad(0));
    StepKeepsInv(a, ServerAnswersLoad(0));
    var shown := Do(b, LoadReplies(0, false));
    LoadReplyMeans(b, 0, false);
    StepKeepsInv(b, LoadReplies(0, false));
    RebaseIsSaved(shown);
  }

  lemma RebaseIsSaved(s: Segment)
    requires Inv(s) && s.draft.Some? && !s.timer && s.patches == [] && s.rebases == [] && s.generation.Some?
    requires s.draft.value.server == Some(Reading(CurrentVersion(s), s.history[CurrentVersion(s)]))
    ensures var sent := Do(Do(Do(s, RebaseAsked), ServerAnswersRebase(0)), RebaseReplies(0, false));
            var t := Do(Do(sent, ServerHandlesPatch(0)), PatchReplies(0, false));
      && t.history == s.history + [s.draft.value.text]
      && t.draft == Some(Draft(s.draft.value.text, |s.history|, Saved, false, None))
      && t.patches == [] && !t.timer
  {
    var a := Do(s, RebaseAsked);
    StepKeepsInv(s, RebaseAsked);
    var b := Do(a, ServerAnswersRebase(0));
    StepKeepsInv(a, ServerAnswersRebase(0));
    var sent := Do(b, RebaseReplies(0, false));
    RebaseReplyMeans(b, 0, false);
    StepKeepsInv(b, RebaseReplies(0, false));
    SentIsSaved(sent);
  }

  /** A PATCH on the server's version is accepted, and its draft saved. */
  lemma SentIsSaved(s: Segment)
    requires Inv(s) && s.draft.Some? && s.draft.value.status == Saving && !s.timer
        && s.draft.value.version == CurrentVersion(s) && s.patches[0].verdict.Unhandled?
    ensures var t := Do(Do(s, ServerHandlesPatch(0)), PatchReplies(0, false));
      && t.history == s.history + [s.draft.value.text]
      && t.draft == Some(Draft(s.draft.value.text, |s.history|, Saved, false, None))
      && t.patches == [] && !t.timer
  {
    var handled := Do(s, ServerHandlesPatch(0));
    assert handled.patches == [s.patches[0].(verdict := Accepted(|s.history|))];
  }

  // ----- What holds a draft back -----

  /** A draft in conflict with nothing in flight stays so, and nothing is sent, over any run without a rebase's reply
      and without discarding. */
  lemma {:induction false} ConflictHoldsBack(s: Segment, events: seq<Event>, t: Segment)
    requires Inv(s) && s.draft.Some? && s.draft.value.conflict && s.patches == [] && Reaches(s, events, t)
    requires forall e :: e in events ==> !e.RebaseReplies? && !e.Discarded?
    ensures t.draft.Some? && t.draft.value.conflict && t.patches == []
    ensures t.draft.value.version == s.draft.value.version
    decreases |events|
  {
    if events != [] {
      StepKeepsInv(s, events[0]);
      assert events[0] in events;
      ConflictHoldsBack(Step(s, events[0]), events[1..], t);
    }
  }

  /** Neither discards nor answers: no reply to a rebase, and no accepted PATCH of the present draft. */
  predicate LeavesBase(s: Segment, e: Event) {
    match e
    case Discarded => false
    case RebaseReplies(_, _) => false
    case PatchReplies(k, lost) => k < |s.patches| && (lost || !s.patches[k].verdict.Accepted?
                                                      || s.generation != Some(s.patches[k].generation))
    case _ => true
  }

  predicate UnansweredRun(s: Segment, events: seq<Event>, t: Segment)
    decreases |events|
  {
    if events == [] then s == t
    else Enabled(s, events[0]) && LeavesBase(s, events[0]) && UnansweredRun(Step(s, events[0]), events[1..], t)
  }

  lemma UnsavedStep(s: Segment, e: Event)
    requires Inv(s) && s.draft.Some? && s.draft.value.status != Saved && Enabled(s, e) && LeavesBase(s, e)
    ensures var t := Step(s, e);
      t.draft.Some? && t.draft.value.status != Saved && t.draft.value.version == s.draft.value.version
  {
  }

  /** An unsaved draft builds on the version it was typed on until a PATCH of its own is accepted or a rebase is
      answered, whatever versions the page shows meanwhile. */
  lemma {:induction false} UnsavedKeepsVersion(s: Segment, events: seq<Event>, t: Segment)
    requires Inv(s) && s.draft.Some? && s.draft.value.status != Saved && UnansweredRun(s, events, t)
    ensures t.draft.Some? && t.draft.value.status != Saved && t.draft.value.version == s.draft.value.version
    decreases |events|
  {
    if events != [] {
      StepKeepsInv(s, events[0]);
      UnsavedStep(s, events[0]);
      UnsavedKeepsVersion(Step(s, events[0]), events[1..], t);
    }
  }

  // ----- Progress on a quiet server -----

  function Do(s: Segment, e: Event): Segment
  {
    if Enabled(s, e) then Step(s, e) else s
  }

  /** An edit made while a save is in flight is saved after it, on top of the version the first save
      returned, and the server then holds both texts in order. */
  lemma EditDuringSaveIsSerialized(s: Segment, text: string, segmentVersion: nat)
    requires Inv(s) && s.draft.Some? && s.draft.value.status == Saving
    requires s.patches[0].verdict.Unhandled? && s.draft.value.version == CurrentVersion(s)
    requires text != s.draft.value.text
    ensures var s1 := Do(Do(Do(s, Type(segmentVersion, text)), ServerHandlesPatch(0)), PatchReplies(0, false));
            var s2 := Do(Do(Do(s1, TimerFires), ServerHandlesPatch(0)), PatchReplies(0, false));
            && s2.history == s.history + [s.draft.value.text, text]
            && s2.draft == Some(Draft(text, CurrentVersion(s) + 2, Saved, false, None))
            && s2.patches == [] && !s2.timer
  {
    var p := s.patches[0];
    var a := Do(s, Type(segmentVersion, text));
    var b := Do(a, ServerHandlesPatch(0));
    assert b.patches == [p.(verdict := Accepted(|s.history|))];
    var s1 := Do(b, PatchReplies(0, false));
    assert s1.draft == Some(Draft(text, |s.history|, Waiting, false, None)) && s1.timer && s1.patches == [];
    var c := Do(s1, TimerFires);
    var d := Do(c, ServerHandlesPatch(0));
    assert d.history == s.history + [s.draft.value.text, text];
  }

  /** What still happens when nobody types, writes elsewhere or asks for anything, and nothing is lost: the timer
      fires, the server handles the PATCH, and its reply arrives. */
  predicate Quiet(s: Segment, e: Event) {
    match e
    case TimerFires => s.timer
    case ServerHandlesPatch(k) => k < |s.patches| && s.history != [] && s.patches[k].verdict.Unhandled?
    case PatchReplies(k, lost) => k < |s.patches| && !lost && !s.patches[k].verdict.Unhandled?
    case _ => false
  }

  predicate QuietRun(s: Segment, events: seq<Event>, t: Segment)
    decreases |events|
  {
    if events == [] then s == t
    else Quiet(s, events[0]) && QuietRun(Step(s, events[0]), events[1..], t)
  }

  /** A draft that is waiting, being saved, saved, or in conflict with the server. */
  predicate Underway(s: Segment) {
    && Inv(s) && s.draft.Some?
    && (s.draft.value.status in {Saved, Failed} ==> s.patches == [])
    && (s.draft.value.status == Failed ==> s.draft.value.conflict)
  }

  /** The version the server will be at once it has handled the PATCH. */
  function VersionAfter(s: Segment, p: Patch): nat
    requires s.history != []
  {
    if p.verdict.Unhandled? && p.version == CurrentVersion(s) then CurrentVersion(s) + 1 else CurrentVersion(s)
  }

  /** The draft's own PATCH is or will be accepted, and the draft needs no other or may build on it; a PATCH of a
      discarded draft only must not take the version this one builds on. */
  predicate WillSave(s: Segment)
    requires Underway(s)
  {
    var d := s.draft.value;
    match d.status
    case Saved => true
    case Failed => false
    case Saving => WillAccept(s, s.patches[0])
    case Waiting =>
      if s.patches == [] then d.version == CurrentVersion(s)
      else
        var p := s.patches[0];
        if s.generation == Some(p.generation) then
          WillAccept(s, p) && (p.text == d.text || p.verdict.Unhandled? || p.verdict.version == CurrentVersion(s))
        else d.version == VersionAfter(s, p)
  }

  predicate WillAccept(s: Segment, p: Patch)
    requires s.history != []
  {
    match p.verdict
    case Accepted(_) => true
    case Refused => false
    case Unhandled => p.version == CurrentVersion(s)
  }

  /** How many quiet steps there can still be. */
  function StepsLeft(s: Segment): nat {
    (if s.timer then 1 else 0)
    + (if s.patches == [] then 0 else if s.patches[0].verdict.Unhandled? then 2 else 1)
    + (if s.draft.Some? && s.draft.value.status == Waiting then 3 else 0)
  }

  /** What a quiet step keeps: the text, and whether it will be saved. */
  predicate StaysOnCourse(s: Segment, t: Segment)
    requires Underway(s)
  {
    Underway(t) && DraftText(t) == DraftText(s) && WillSave(t) == WillSave(s) && StepsLeft(t) < StepsLeft(s)
  }

  lemma TimerStaysOnCourse(s: Segment)
    requires Underway(s) && s.timer
    ensures StaysOnCourse(s, Flush(s.(timer := false)))
  {
    StepKeepsInv(s, TimerFires);
  }

  lemma HandledStaysOnCourse(s: Segment, k: nat)
    requires Underway(s) && k < |s.patches| && s.patches[k].verdict.Unhandled?
    ensures StaysOnCourse(s, HandlePatch(s, k))
  {
    HandlePatchKeeps(s, k);
    var p, t := s.patches[0], HandlePatch(s, k);
    assert t.patches == [p.(verdict := if p.version == CurrentVersion(s) then Accepted(|s.history|) else Refused)];
  }

  lemma ReplyStaysOnCourse(s: Segment, k: nat)
    requires Underway(s) && k < |s.patches| && !s.patches[k].verdict.Unhandled?
    ensures StaysOnCourse(s, PatchReply(s, k, false))
  {
    PatchReplyKeeps(s, k, false);
    assert Without(s.patches, k) == [];
    assert PatchInv(s, s.patches[0]);
  }

  lemma {:induction false} QuietRunStaysOnCourse(s: Segment, events: seq<Event>, t: Segment)
    requires Underway(s) && QuietRun(s, events, t)
    ensures Underway(t) && DraftText(t) == DraftText(s) && WillSave(t) == WillSave(s)
    ensures |events| + StepsLeft(t) <= StepsLeft(s)
    decreases |events|
  {
    if events != [] {
      match events[0] {
        case TimerFires => TimerStaysOnCourse(s);
        case ServerHandlesPatch(k) => HandledStaysOnCourse(s, k);
        case PatchReplies(k, _) => ReplyStaysOnCourse(s, k);
      }
      QuietRunStaysOnCourse(Step(s, events[0]), events[1..], t);
    }
  }

  /** While there is a timer or a PATCH, some quiet step can happen. */
  lemma QuietOrSettled(s: Segment) returns (e: Event)
    requires Inv(s) && (s.timer || s.patches != [])
    ensures Quiet(s, e)
  {
    e := if s.timer then TimerFires else if s.patches[0].verdict.Unhandled? then ServerHandlesPatch(0)
        else PatchReplies(0, false);
  }

  /** In whatever order the quiet steps happen there are at most six; and when none is left, a draft that was waiting
      or being saved is saved as the last text typed if and only if it was bound to be. */
  lemma EveryQuietRunSaves(s: Segment, events: seq<Event>, t: Segment)
    requires Inv(s) && s.draft.Some? && s.draft.value.status in {Waiting, Saving}
    requires QuietRun(s, events, t)
    ensures |events| <= 6
    ensures (forall e :: !Quiet(t, e)) ==>
      && t.draft.Some? && s.typed == t.typed == Some(t.draft.value.text)
      && (t.draft.value.status == Saved <==> WillSave(s))
      && (WillSave(s) ==> Holds(t.history, Reading(t.draft.value.version, s.draft.value.text)))
  {
    QuietRunStaysOnCourse(s, events, t);
    if t.timer || t.patches != [] {
      var e := QuietOrSettled(t);
    }
  }

  /** Typing on what the page shows, which is the server's version when there is no draft yet, and quiet steps. */
  predicate OwnStep(s: Segment, e: Event) {
    match e
    case Type(v, _) => s.history != [] && v <= CurrentVersion(s) && (s.draft.None? ==> v == CurrentVersion(s))
    case FlushAsked => true
    case GenerationTakenElsewhere => true
    case _ => Quiet(s, e)
  }

  predicate OwnRun(s: Segment, events: seq<Event>, t: Segment)
    decreases |events|
  {
    if events == [] then s == t
    else OwnStep(s, events[0]) && OwnRun(Step(s, events[0]), events[1..], t)
  }

  /** Nobody else has written: the draft is on course and its PATCH, if any, is its own and leads to the server's
      version. */
  predicate Alone(s: Segment) {
    && Inv(s)
    && (s.draft.None? ==> s.patches == [])
    && (s.draft.Some? ==>
          && Underway(s) && WillSave(s)
          && (s.draft.value.status == Saved ==> s.draft.value.version == CurrentVersion(s))
          && (s.patches != [] ==> OwnPatch(s, s.patches[0])))
  }

  predicate OwnPatch(s: Segment, p: Patch)
    requires s.history != []
  {
    s.generation == Some(p.generation) && (p.verdict.Accepted? ==> p.verdict.version == CurrentVersion(s))
  }

  lemma TypingKeepsAlone(s: Segment, segmentVersion: nat, text: string)
    requires Alone(s) && OwnStep(s, Type(segmentVersion, text))
    ensures Alone(Schedule(s, segmentVersion, text))
  {
    TypingKeeps(s, segmentVersion, text);
  }

  lemma FlushKeepsAlone(s: Segment)
    requires Alone(s)
    ensures Alone(Flush(s)) && Alone(s.(issued := s.issued + 1))
  {
    FlushKeeps(s);
    DiscardKeeps(s);
  }

  lemma TimerKeepsAlone(s: Segment)
    requires Alone(s) && s.timer
    ensures Alone(Flush(s.(timer := false)))
  {
    TimerStaysOnCourse(s);
  }

  lemma HandledKeepsAlone(s: Segment, k: nat)
    requires Alone(s) && k < |s.patches| && s.patches[k].verdict.Unhandled?
    ensures Alone(HandlePatch(s, k))
  {
    HandledStaysOnCourse(s, k);
    assert HandlePatch(s, k).patches[0].verdict.Accepted?;
  }

  lemma ReplyKeepsAlone(s: Segment, k: nat)
    requires Alone(s) && k < |s.patches| && !s.patches[k].verdict.Unhandled?
    ensures Alone(PatchReply(s, k, false))
  {
    ReplyStaysOnCourse(s, k);
    assert Without(s.patches, k) == [];
  }

  lemma OwnStepKeepsAlone(s: Segment, e: Event)
    requires Alone(s) && OwnStep(s, e)
    ensures Alone(Step(s, e))
  {
    match e
    case Type(v, text) => TypingKeepsAlone(s, v, text);
    case TimerFires => TimerKeepsAlone(s);
    case FlushAsked => FlushKeepsAlone(s);
    case GenerationTakenElsewhere => FlushKeepsAlone(s);
    case ServerHandlesPatch(k) => HandledKeepsAlone(s, k);
    case PatchReplies(k, _) => ReplyKeepsAlone(s, k);
  }

  /** From a page without a draft, as long as nobody else writes and nothing is lost, every draft is bound to be
      saved. */
  lemma {:induction false} AloneAlwaysSaves(s: Segment, events: seq<Event>, t: Segment)
    requires Alone(s) && OwnRun(s, events, t)
    ensures Alone(t)
    decreases |events|
  {
    if events != [] {
      OwnStepKeepsAlone(s, events[0]);
      AloneAlwaysSaves(Step(s, events[0]), events[1..], t);
    }
  }

  lemma {:induction false} QuietIsOwn(s: Segment, events: seq<Event>, t: Segment)
    requires QuietRun(s, events, t)
    ensures OwnRun(s, events, t)
    decreases |events|
  {
    if events != [] { QuietIsOwn(Step(s, events[0]), events[1..], t); }
  }

  lemma {:induction false} OwnReaches(s: Segment, events: seq<Event>, t: Segment)
    requires OwnRun(s, events, t)
    ensures Reaches(s, events, t)
    decreases |events|
  {
    if events != [] { OwnReaches(Step(s, events[0]), events[1..], t); }
  }

  /** The draft is saved, and the server's text is its text. */
  predicate SavedAsTyped(t: Segment, text: Option<string>) {
    && t.draft.Some? && t.history != []
    && t.draft.value.status == Saved && t.draft.value.version == CurrentVersion(t)
    && text == Some(t.draft.value.text) == Some(t.history[CurrentVersion(t)])
  }

  lemma SettledIsSaved(t: Segment)
    requires Alone(t) && t.draft.Some? && forall e :: !Quiet(t, e)
    ensures SavedAsTyped(t, t.typed)
  {
    if t.timer || t.patches != [] {
      var e := QuietOrSettled(t);
    }
  }

  lemma AloneFromLoad(start: Segment, events: seq<Event>, s: Segment)
    requires Initial(start) && start.draft.None? && OwnRun(start, events, s)
    ensures Alone(s) && s.typed == LastTyped(None, events)
  {
    OwnReaches(start, events, s);
    RunTyped(start, events, s);
    AloneAlwaysSaves(start, events, s);
  }

  lemma QuietKeepsTyped(s: Segment, quiet: seq<Event>, t: Segment)
    requires Alone(s) && s.draft.Some? && QuietRun(s, quiet, t)
    ensures Alone(t) && t.draft.Some? && t.typed == s.typed && |quiet| <= StepsLeft(s)
  {
    QuietIsOwn(s, quiet, t);
    AloneAlwaysSaves(s, quiet, t);
    QuietRunStaysOnCourse(s, quiet, t);
  }

  /** Typing alone on a page without a draft: after at most six more steps, in any order, the server's text is the
      last one typed, and the draft is shown as saved. */
  lemma LastTypedIsSaved(start: Segment, events: seq<Event>, s: Segment, quiet: seq<Event>, t: Segment)
    requires Initial(start) && start.draft.None? && OwnRun(start, events, s) && s.draft.Some?
    requires QuietRun(s, quiet, t) && forall e :: !Quiet(t, e)
    ensures |quiet| <= 6 && SavedAsTyped(t, LastTyped(None, events))
  {
    AloneFromLoad(start, events, s);
    QuietKeepsTyped(s, quiet, t);
    SettledIsSaved(t);
  }

  // ----- The client's maps -----

  function Pending<T>(m: map<string, seq<T>>, id: string): seq<T> {
    if id in m then m[id] else []
  }

  function Lookup<T>(m: map<string, T>, id: string): Option<T> {
    if id in m then Some(m[id]) else None
  }

  /** The module's maps for all segments, and the suspended continuations of its requests. */
  class Client {
    var drafts: map<string, Draft>
    var timers: set<string>
    var running: set<string>
    var generations: map<string, nat>
    var issued: nat
    var patches: map<string, seq<Patch>>
    var loads: map<string, seq<Get>>
    var rebases: map<string, seq<Get>>
    var server: map<string, seq<string>>
    ghost var typed: map<string, string>

    /** The machine of one segment. */
    ghost function View(id: string): Segment
      reads this
    {
      Segment(Lookup(drafts, id), id in timers, id in running, Lookup(generations, id), issued,
              Pending(patches, id), Pending(loads, id), Pending(rebases, id), Pending(server, id), Lookup(typed, id))
    }

    /** Every other segment is as before, but for generations having been taken. */
    twostate predicate OthersKept(id: string)
      reads this
    {
      forall j :: j != id ==> View(j) == old(View(j)).(issued := issued)
    }

    method DraftGeneration(id: string) returns (generation: nat)
      modifies this
      ensures View(id) == WithGeneration(old(View(id))) && View(id).generation == Some(generation)
      ensures OthersKept(id) && issued >= old(issued)
    {
      if id !in generations {
        generations := generations[id := issued];
        issued := issued + 1;
      }
      generation := generations[id];
    }

    method ScheduleTranscriptSave(id: string, segmentVersion: nat, text: string)
      modifies this
      ensures View(id) == Schedule(old(View(id)), segmentVersion, text)
      ensures OthersKept(id)
    {
      if id !in drafts {
        generations := generations[id := issued];
        issued := issued + 1;
      }
      typed := typed[id := text];
      if id in drafts && drafts[id].conflict {
        drafts := drafts[id := drafts[id].(text := text)];
        return;
      }
      var version := segmentVersion;
      if id in drafts {
        version := if drafts[id].status != Saved then drafts[id].version else Max(drafts[id].version, segmentVersion);
      }
      drafts := drafts[id := Draft(text, version, Waiting, false, None)];
      timers := timers - {id} + {id};
    }

    method FireTimer(id: string)
      requires id in timers
      modifies this
      ensures View(id) == Step(old(View(id)), TimerFires)
      ensures OthersKept(id)
    {
      timers := timers - {id};
      FlushTranscriptSave(id);
    }

    /** Up to the await: the PATCH is sent and its continuation suspended. */
    method FlushTranscriptSave(id: string)
      modifies this
      ensures View(id) == Flush(old(View(id)))
      ensures OthersKept(id)
    {
      if id in running { return; }
      if id !in drafts || drafts[id].status == Saved || drafts[id].conflict { return; }
      var draft := drafts[id];
      var generation := DraftGeneration(id);
      label taken:
      assert View(id) == WithGeneration(old(View(id)));
      timers := timers - {id};
      running := running + {id};
      drafts := drafts[id := draft.(status := Saving)];
      patches := patches[id := Pending(patches, id) + [Patch(generation, draft.version, draft.text, Unhandled)]];
      forall j | j != id ensures View(j) == old(View(j)).(issued := issued) {
        ghost var between := old@taken(View(j));
      }
    }

    /** The continuation of a PATCH up to its finally clause. */
    method ApplyReply(id: string, p: Patch, lost: bool)
      modifies this
      ensures View(id) == Settle(old(View(id)), p, lost)
      ensures OthersKept(id)
    {
      if id !in generations || generations[id] != p.generation || id !in drafts { return; }
      var latest := drafts[id];
      if !lost && p.verdict.Accepted? {
        var changed := latest.text != p.text;
        drafts := drafts[id := Draft(latest.text, p.verdict.version, if changed then Waiting else Saved, false, None)];
      } else {
        drafts := drafts[id := latest.(status := Failed, conflict := !lost && p.verdict.Refused?)];
      }
    }

    /** The continuation of a PATCH, with its finally clause. */
    method PatchContinuation(id: string, k: nat, lost: bool)
      requires k < |Pending(patches, id)|
      modifies this
      ensures View(id) == PatchReply(old(View(id)), k, lost)
      ensures OthersKept(id)
    {
      var p := patches[id][k];
      patches := patches[id := Without(patches[id], k)];
      assert View(id) == old(View(id)).(patches := Without(old(View(id)).patches, k));
      assert OthersKept(id);
      ApplyReply(id, p, lost);
      assert OthersKept(id);
      running := running - {id};
      assert OthersKept(id);
      if id in drafts && drafts[id].status == Waiting && id !in timers {
        FlushTranscriptSave(id);
      }
    }

    method LoadLatestTranscriptDraft(id: string)
      modifies this
      ensures View(id) == LoadLatest(old(View(id)))
      ensures OthersKept(id)
    {
      if id !in drafts { return; }
      var generation := DraftGeneration(id);
      label taken:
      loads := loads[id := Pending(loads, id) + [Get(generation, None, None)]];
      forall j | j != id ensures View(j) == old(View(j)).(issued := issued) {
        ghost var between := old@taken(View(j));
      }
    }

    method LoadContinuation(id: string, k: nat, lost: bool)
      requires k < |Pending(loads, id)|
      modifies this
      ensures View(id) == LoadReply(old(View(id)), k, lost)
      ensures OthersKept(id)
    {
      var g := loads[id][k];
      loads := loads[id := Without(loads[id], k)];
      if id !in generations || generations[id] != g.generation || id !in drafts { return; }
      var current := drafts[id];
      if !lost && g.answer.Some? {
        drafts := drafts[id := current.(conflict := true, status := Failed, server := g.answer)];
      } else {
        drafts := drafts[id := current.(status := Failed)];
      }
    }

    method SaveRebasedTranscriptDraft(id: string)
      modifies this
      ensures View(id) == SaveRebased(old(View(id)))
      ensures OthersKept(id)
    {
      if id !in drafts || drafts[id].server.None? { return; }
      var basis := drafts[id].server.value.version;
      var generation := DraftGeneration(id);
      label taken:
      rebases := rebases[id := Pending(rebases, id) + [Get(generation, Some(basis), None)]];
      forall j | j != id ensures View(j) == old(View(j)).(issued := issued) {
        ghost var between := old@taken(View(j));
      }
    }

    method RebaseContinuation(id: string, k: nat, lost: bool)
      requires k < |Pending(rebases, id)|
      modifies this
      ensures View(id) == RebaseReply(old(View(id)), k, lost)
      ensures OthersKept(id)
    {
      var g := rebases[id][k];
      rebases := rebases[id := Without(rebases[id], k)];
      if lost || g.answer.None? { return; }
      if id !in generations || generations[id] != g.generation || id !in drafts { return; }
      var current := drafts[id];
      if current.server.None? || Some(current.server.value.version) != g.basis { return; }
      var latest := g.answer.value;
      if latest.version != current.server.value.version {
        drafts := drafts[id := current.(server := g.answer)];
        return;
      }
      drafts := drafts[id := current.(version := latest.version, conflict := false, server := None, status := Waiting)];
      FlushTranscriptSave(id);
    }

    method DiscardTranscriptDraft(id: string)
      modifies this
      ensures View(id) == Discard(old(View(id)))
      ensures OthersKept(id)
    {
      generations := generations - {id};
      timers := timers - {id};
      drafts := drafts - {id};
      typed := typed - {id};
    }
  }
}
