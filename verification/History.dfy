/** Undo and redo by replaying a segment's append-only event log, against a linear history with a cursor. */
module History {
  import opened Common

  type Text = Option<string>

  datatype Layer = Faithful | Corrected | User

  /** The three editable layers of a segment. */
  datatype Texts = Texts(faithful: Text, corrected: Text, user: Text) {
    function Get(layer: Layer): Text {
      match layer
      case Faithful => faithful
      case Corrected => corrected
      case User => user
    }

    function Set(layer: Layer, text: Text): (r: Texts)
      ensures r.Get(layer) == text && forall other :: other != layer ==> r.Get(other) == Get(other)
    {
      match layer
      case Faithful => this.(faithful := text)
      case Corrected => this.(corrected := text)
      case User => this.(user := text)
    }
  }

  /** An edit stores the text it replaced; an undo also stores the text a redo must bring back. */
  datatype Event =
    | Edited(id: nat, layer: Layer, text: Text)
    | Undone(id: nat, editId: nat, layer: Layer, text: Text, redoText: Text)
    | Redone(id: nat, undoId: nat, layer: Layer, text: Text)
    | Other(id: nat)

  datatype Actor = Human | Automatic

  datatype Failure = Protected | Stale | NothingToUndo | NothingToRedo

  // ----- Replaying the log -----

  /** Undo stack of edits, and redo stack of (edit, undo) pairs; tops are last. */
  datatype Stacks = Stacks(undo: seq<Event>, redo: seq<(Event, Event)>)

  function FindEdit(undo: seq<Event>, id: nat, from: nat := 0): (k: nat)
    requires from <= |undo|
    ensures from <= k <= |undo|
    ensures k < |undo| ==> undo[k].id == id
    ensures forall j :: from <= j < k ==> undo[j].id != id
    decreases |undo| - from
  {
    if from == |undo| || undo[from].id == id then from else FindEdit(undo, id, from + 1)
  }

  function FindPair(redo: seq<(Event, Event)>, id: nat, from: nat := 0): (k: nat)
    requires from <= |redo|
    ensures from <= k <= |redo|
    ensures k < |redo| ==> redo[k].1.id == id
    ensures forall j :: from <= j < k ==> redo[j].1.id != id
    decreases |redo| - from
  {
    if from == |redo| || redo[from].1.id == id then from else FindPair(redo, id, from + 1)
  }

  function Replay1(s: Stacks, e: Event): Stacks {
    match e
    case Edited(_, _, _) => Stacks(s.undo + [e], [])
    case Undone(_, editId, _, _, _) =>
      var k := FindEdit(s.undo, editId);
      if k == |s.undo| then s else Stacks(s.undo[..k] + s.undo[k + 1..], s.redo + [(s.undo[k], e)])
    case Redone(_, undoId, _, _) =>
      var k := FindPair(s.redo, undoId);
      if k == |s.redo| then s else Stacks(s.undo + [s.redo[k].0], s.redo[..k] + s.redo[k + 1..])
    case Other(_) => s
  }

  function Replay(log: seq<Event>): Stacks {
    if log == [] then Stacks([], []) else Replay1(Replay(log[..|log| - 1]), log[|log| - 1])
  }

  // ----- The segment -----

  datatype State = State(texts: Texts, log: seq<Event>)

  predicate FreshId(log: seq<Event>, id: nat) {
    forall k :: 0 <= k < |log| ==> log[k].id != id
  }

  function Edit(s: State, id: nat, layer: Layer, text: Text): State {
    State(s.texts.Set(layer, text), s.log + [Edited(id, layer, s.texts.Get(layer))])
  }

  datatype Action = DoEdit(layer: Layer, text: Text) | DoUndo | DoRedo | DoOther

  predicate WellFormed(s: Stacks) {
    && (forall k :: 0 <= k < |s.undo| ==> s.undo[k].Edited?)
    && (forall k :: 0 <= k < |s.redo| ==> s.redo[k].0.Edited? && s.redo[k].1.Undone?)
  }

  lemma {:induction false} ReplayWellFormed(log: seq<Event>)
    ensures WellFormed(Replay(log))
  {
    if log != [] {
      ReplayWellFormed(log[..|log| - 1]);
    }
  }

  /** One successful operation, or None when there is nothing to undo or redo. */
  function Apply(s: State, a: Action, id: nat): Option<State> {
    ReplayWellFormed(s.log);
    var stacks := Replay(s.log);
    match a
    case DoEdit(layer, text) => Some(Edit(s, id, layer, text))
    case DoOther => Some(s.(log := s.log + [Other(id)]))
    case DoUndo =>
      if stacks.undo == [] then None
      else
        var source := stacks.undo[|stacks.undo| - 1];
        var previous := s.texts.Get(source.layer);
        Some(State(s.texts.Set(source.layer, source.text),
                   s.log + [Undone(id, source.id, source.layer, previous, previous)]))
    case DoRedo =>
      if stacks.redo == [] then None
      else
        var (source, undone) := stacks.redo[|stacks.redo| - 1];
        Some(State(s.texts.Set(source.layer, undone.redoText),
                   s.log + [Redone(id, undone.id, source.layer, s.texts.Get(source.layer))]))
  }

  // ----- The linear history -----

  datatype Change = Change(layer: Layer, before: Text, after: Text)

  /** All changes of the present branch, of which the first cursor are in effect. */
  datatype Line = Line(start: Texts, changes: seq<Change>, cursor: nat)

  function TextsAt(start: Texts, changes: seq<Change>): Texts {
    if changes == [] then start
    else
      var c := changes[|changes| - 1];
      TextsAt(start, changes[..|changes| - 1]).Set(c.layer, c.after)
  }

  function Current(h: Line): Texts
    requires h.cursor <= |h.changes|
  {
    TextsAt(h.start, h.changes[..h.cursor])
  }

  function LineApply(h: Line, a: Action): Option<Line>
    requires h.cursor <= |h.changes|
  {
    match a
    case DoEdit(layer, text) =>
      Some(Line(h.start, h.changes[..h.cursor] + [Change(layer, Current(h).Get(layer), text)], h.cursor + 1))
    case DoUndo => if h.cursor == 0 then None else Some(h.(cursor := h.cursor - 1))
    case DoRedo => if h.cursor == |h.changes| then None else Some(h.(cursor := h.cursor + 1))
    case DoOther => Some(h)
  }

  /** Every change replaced what its layer held at that point of the line. */
  predicate Chained(h: Line) {
    && h.cursor <= |h.changes|
    && forall k :: 0 <= k < |h.changes| ==>
        h.changes[k].before == TextsAt(h.start, h.changes[..k]).Get(h.changes[k].layer)
  }

  // ----- Refinement -----

  predicate EditFor(e: Event, c: Change) {
    e.Edited? && e.layer == c.layer && e.text == c.before
  }

  /** The stacks are the line split at its cursor. */
  predicate Split(stacks: Stacks, h: Line) {
    && h.cursor <= |h.changes|
    && |stacks.undo| == h.cursor && |stacks.redo| == |h.changes| - h.cursor
    && (forall k :: 0 <= k < h.cursor ==> EditFor(stacks.undo[k], h.changes[k]))
    && (forall k :: 0 <= k < |stacks.redo| ==> RedoFor(stacks.redo[k], h.changes[|h.changes| - 1 - k]))
  }

  predicate RedoFor(pair: (Event, Event), c: Change) {
    EditFor(pair.0, c) && pair.1.Undone? && pair.1.redoText == c.after
  }

  /** The replayed stacks are the line split at the cursor, and the layers are the line at the cursor. */
  predicate Refines(s: State, h: Line) {
    Chained(h) && Split(Replay(s.log), h) && s.texts == Current(h)
  }

  /** The entries of the stacks are told apart by their ids, so a reference can only find its own entry. */
  predicate Distinct(s: Stacks) {
    && (forall i, j :: 0 <= i < j < |s.undo| ==> s.undo[i].id != s.undo[j].id)
    && (forall i, j :: 0 <= i < j < |s.redo| ==> s.redo[i].0.id != s.redo[j].0.id)
    && (forall i, j :: 0 <= i < j < |s.redo| ==> s.redo[i].1.id != s.redo[j].1.id)
    && (forall i, j :: 0 <= i < |s.undo| && 0 <= j < |s.redo| ==> s.undo[i].id != s.redo[j].0.id)
  }

  predicate Unused(s: Stacks, id: nat) {
    && (forall k :: 0 <= k < |s.undo| ==> s.undo[k].id != id)
    && (forall k :: 0 <= k < |s.redo| ==> s.redo[k].0.id != id && s.redo[k].1.id != id)
  }

  lemma {:induction false} FreshIsUnused(log: seq<Event>, id: nat)
    requires FreshId(log, id)
    ensures Unused(Replay(log), id)
  {
    if log != [] {
      var front := log[..|log| - 1];
      forall k | 0 <= k < |front| ensures front[k].id != id { assert log[k].id != id; }
      FreshIsUnused(front, id);
      assert log[|log| - 1].id != id;
    }
  }

  lemma LastChange(h: Line)
    requires Chained(h) && h.cursor > 0
    ensures var c := h.changes[h.cursor - 1];
            && Current(h) == TextsAt(h.start, h.changes[..h.cursor - 1]).Set(c.layer, c.after)
            && Current(h).Set(c.layer, c.before) == TextsAt(h.start, h.changes[..h.cursor - 1])
  {
    var c := h.changes[h.cursor - 1];
    assert h.changes[..h.cursor][..h.cursor - 1] == h.changes[..h.cursor - 1];
    assert c.before == TextsAt(h.start, h.changes[..h.cursor - 1]).Get(c.layer);
  }

  /** Replaying an undo of the top edit moves that edit to the redo stack. */
  lemma UndoTop(s: Stacks, e: Event)
    requires Distinct(s) && Unused(s, e.id) && e.Undone? && ReferencesTop(s, e)
    ensures var n := |s.undo| - 1; Replay1(s, e) == Stacks(s.undo[..n], s.redo + [(s.undo[n], e)])
    ensures Distinct(Replay1(s, e))
  {
    var n := |s.undo| - 1;
    var k := FindEdit(s.undo, e.editId);
    assert s.undo[n].id == e.editId;
    assert k == n;
    assert s.undo[..n] + s.undo[n + 1..] == s.undo[..n];
  }

  /** Replaying a redo of the top pair moves its edit back to the undo stack. */
  lemma RedoTop(s: Stacks, e: Event)
    requires Distinct(s) && e.Redone? && ReferencesTop(s, e)
    ensures var n := |s.redo| - 1; Replay1(s, e) == Stacks(s.undo + [s.redo[n].0], s.redo[..n])
    ensures Distinct(Replay1(s, e))
  {
    var n := |s.redo| - 1;
    var k := FindPair(s.redo, e.undoId);
    assert s.redo[n].1.id == e.undoId;
    assert k == n;
    assert s.redo[..n] + s.redo[n + 1..] == s.redo[..n];
  }

  /** Every undo in the log names the edit on top of the undo stack at that point, and every redo the
      undo on top of the redo stack. */
  ghost predicate ReferencesTops(log: seq<Event>) {
    forall k :: 0 <= k < |log| ==> ReferencesTop(Replay(log[..k]), log[k])
  }

  predicate ReferencesTop(s: Stacks, e: Event) {
    match e
    case Undone(_, editId, _, _, _) => s.undo != [] && s.undo[|s.undo| - 1].id == editId
    case Redone(_, undoId, _, _) => s.redo != [] && s.redo[|s.redo| - 1].1.id == undoId
    case _ => true
  }

  ghost predicate Sound(s: State, h: Line) {
    Refines(s, h) && Distinct(Replay(s.log)) && ReferencesTops(s.log)
  }

  lemma AppendKeepsTops(log: seq<Event>, e: Event)
    requires ReferencesTops(log) && ReferencesTop(Replay(log), e)
    ensures ReferencesTops(log + [e])
  {
    forall k | 0 <= k < |log + [e]| ensures ReferencesTop(Replay((log + [e])[..k]), (log + [e])[k]) {
      assert (log + [e])[..k] == log[..k] && log[..|log|] == log;
    }
  }

  lemma SplitUndo(s: Stacks, h: Line, e: Event)
    requires Split(s, h) && h.cursor > 0 && e.Undone? && e.redoText == h.changes[h.cursor - 1].after
    ensures var n := |s.undo| - 1; Split(Stacks(s.undo[..n], s.redo + [(s.undo[n], e)]), h.(cursor := h.cursor - 1))
  {
    assert EditFor(s.undo[h.cursor - 1], h.changes[h.cursor - 1]);
  }

  lemma SplitRedo(s: Stacks, h: Line)
    requires Split(s, h) && h.cursor < |h.changes|
    ensures var n := |s.redo| - 1; Split(Stacks(s.undo + [s.redo[n].0], s.redo[..n]), h.(cursor := h.cursor + 1))
  {
    assert RedoFor(s.redo[|s.redo| - 1], h.changes[h.cursor]);
  }

  lemma ChainedEdit(h: Line, layer: Layer, text: Text)
    requires Chained(h)
    ensures var h' := LineApply(h, DoEdit(layer, text)).value; Chained(h') && Current(h') == Current(h).Set(layer, text)
  {
    var h' := LineApply(h, DoEdit(layer, text)).value;
    assert h'.changes[..h.cursor] == h.changes[..h.cursor];
    assert h'.changes[..h'.cursor] == h'.changes;
    forall k | 0 <= k < |h'.changes|
      ensures h'.changes[k].before == TextsAt(h.start, h'.changes[..k]).Get(h'.changes[k].layer) {
      if k < h.cursor { assert h'.changes[..k] == h.changes[..k]; }
    }
  }

  lemma EditRefines(s: State, h: Line, layer: Layer, text: Text, id: nat)
    requires Sound(s, h) && FreshId(s.log, id)
    ensures Sound(Edit(s, id, layer, text), LineApply(h, DoEdit(layer, text)).value)
  {
    var e, h' := Edited(id, layer, s.texts.Get(layer)), LineApply(h, DoEdit(layer, text)).value;
    FreshIsUnused(s.log, id);
    ChainedEdit(h, layer, text);
    EditTop(Replay(s.log), h, e, h');
    SoundStep(s, e, Edit(s, id, layer, text), h');
  }

  /** Replaying an edit puts it on top of the undo stack and leaves nothing to redo. */
  lemma EditTop(stacks: Stacks, h: Line, e: Event, h': Line)
    requires Split(stacks, h) && Distinct(stacks) && Unused(stacks, e.id) && e.Edited?
    requires h'.cursor == h.cursor + 1 == |h'.changes| && h'.changes[..h.cursor] == h.changes[..h.cursor]
    requires EditFor(e, h'.changes[h.cursor])
    ensures Split(Replay1(stacks, e), h') && Distinct(Replay1(stacks, e))
  {
    forall k | 0 <= k < h.cursor ensures EditFor(stacks.undo[k], h'.changes[k]) {
      assert h'.changes[k] == h'.changes[..h.cursor][k];
    }
  }

  lemma UndoRefines(s: State, h: Line, id: nat)
    requires Sound(s, h) && FreshId(s.log, id) && h.cursor > 0
    ensures Apply(s, DoUndo, id).Some?
    ensures Sound(Apply(s, DoUndo, id).value, LineApply(h, DoUndo).value)
  {
    var stacks, c := Replay(s.log), h.changes[h.cursor - 1];
    assert EditFor(stacks.undo[h.cursor - 1], c);
    LastChange(h);
    var e := Undone(id, stacks.undo[h.cursor - 1].id, c.layer, c.after, c.after);
    assert Apply(s, DoUndo, id) == Some(State(s.texts.Set(c.layer, c.before), s.log + [e]));
    FreshIsUnused(s.log, id);
    UndoTop(stacks, e);
    SplitUndo(stacks, h, e);
    SoundStep(s, e, Apply(s, DoUndo, id).value, h.(cursor := h.cursor - 1));
  }

  lemma NextChange(h: Line)
    requires Chained(h) && h.cursor < |h.changes|
    ensures Current(h.(cursor := h.cursor + 1)) == Current(h).Set(h.changes[h.cursor].layer, h.changes[h.cursor].after)
  {
    assert h.changes[..h.cursor + 1][..h.cursor] == h.changes[..h.cursor];
  }

  lemma RedoRefines(s: State, h: Line, id: nat)
    requires Sound(s, h) && FreshId(s.log, id) && h.cursor < |h.changes|
    ensures Apply(s, DoRedo, id).Some?
    ensures Sound(Apply(s, DoRedo, id).value, LineApply(h, DoRedo).value)
  {
    var stacks, c := Replay(s.log), h.changes[h.cursor];
    var e := Redone(id, stacks.redo[|stacks.redo| - 1].1.id, c.layer, s.texts.Get(c.layer));
    RedoApplied(s, h, c, e);
    RedoSound(s, h, c, e);
  }

  lemma RedoSound(s: State, h: Line, c: Change, e: Event)
    requires Sound(s, h) && h.cursor < |h.changes| && c == h.changes[h.cursor] && e.Redone?
        && ReferencesTop(Replay(s.log), e)
    ensures Sound(State(s.texts.Set(c.layer, c.after), s.log + [e]), h.(cursor := h.cursor + 1))
  {
    RedoTop(Replay(s.log), e);
    SplitRedo(Replay(s.log), h);
    NextChange(h);
    SoundStep(s, e, State(s.texts.Set(c.layer, c.after), s.log + [e]), h.(cursor := h.cursor + 1));
  }

  /** One more event on the log, and the line that has taken it. */
  lemma SoundStep(s: State, e: Event, t: State, h: Line)
    requires ReferencesTops(s.log) && ReferencesTop(Replay(s.log), e) && t.log == s.log + [e]
    requires Distinct(Replay1(Replay(s.log), e)) && Split(Replay1(Replay(s.log), e), h)
    requires Chained(h) && t.texts == Current(h)
    ensures Sound(t, h)
  {
    AppendKeepsTops(s.log, e);
    assert t.log[..|t.log| - 1] == s.log;
  }

  /** A redo brings back the text after the next change. */
  lemma RedoApplied(s: State, h: Line, c: Change, e: Event)
    requires Sound(s, h) && h.cursor < |h.changes| && c == h.changes[h.cursor] && Replay(s.log).redo != []
    requires e.Redone? && e == Redone(e.id, Replay(s.log).redo[|Replay(s.log).redo| - 1].1.id, c.layer,
                                      s.texts.Get(c.layer))
    ensures ReferencesTop(Replay(s.log), e)
    ensures Apply(s, DoRedo, e.id) == Some(State(s.texts.Set(c.layer, c.after), s.log + [e]))
  {
    var redo := Replay(s.log).redo;
    assert RedoFor(redo[|redo| - 1], h.changes[|h.changes| - 1 - (|redo| - 1)]);
    assert redo[|redo| - 1].0.layer == c.layer && redo[|redo| - 1].1.redoText == c.after;
  }

  /** Every operation on the log is the same operation on the line, and fails exactly when that does. */
  lemma ApplyRefines(s: State, h: Line, a: Action, id: nat)
    requires Sound(s, h) && FreshId(s.log, id)
    ensures Apply(s, a, id).Some? <==> LineApply(h, a).Some?
    ensures Apply(s, a, id).Some? ==> Sound(Apply(s, a, id).value, LineApply(h, a).value)
  {
    match a
    case DoEdit(layer, text) => EditRefines(s, h, layer, text, id);
    case DoUndo => if h.cursor > 0 { UndoRefines(s, h, id); }
    case DoRedo => if h.cursor < |h.changes| { RedoRefines(s, h, id); }
    case DoOther => SoundStep(s, Other(id), s.(log := s.log + [Other(id)]), h);
  }

  // ----- Whole runs -----

  datatype Op = Op(action: Action, id: nat)

  /** An operation that has nothing to undo or redo changes nothing. */
  function Perform(s: State, op: Op): State {
    match Apply(s, op.action, op.id)
    case None => s
    case Some(t) => t
  }

  function Run(s: State, ops: seq<Op>): State
    decreases |ops|
  {
    if ops == [] then s else Run(Perform(s, ops[0]), ops[1..])
  }

  /** Every operation of the run brings an event id not yet in the log. */
  predicate FreshIds(s: State, ops: seq<Op>)
    decreases |ops|
  {
    ops == [] || (FreshId(s.log, ops[0].id) && FreshIds(Perform(s, ops[0]), ops[1..]))
  }

  function LinePerform(h: Line, a: Action): (r: Line)
    requires h.cursor <= |h.changes|
    ensures r.cursor <= |r.changes|
  {
    match LineApply(h, a)
    case None => h
    case Some(t) => t
  }

  function LineRun(h: Line, ops: seq<Op>): (r: Line)
    requires h.cursor <= |h.changes|
    ensures r.cursor <= |r.changes|
    decreases |ops|
  {
    if ops == [] then h else LineRun(LinePerform(h, ops[0].action), ops[1..])
  }

  lemma {:induction false} RunSound(s: State, h: Line, ops: seq<Op>)
    requires Sound(s, h) && FreshIds(s, ops)
    ensures Sound(Run(s, ops), LineRun(h, ops))
    decreases |ops|
  {
    if ops != [] {
      ApplyRefines(s, h, ops[0].action, ops[0].id);
      RunSound(Perform(s, ops[0]), LinePerform(h, ops[0].action), ops[1..]);
    }
  }

  /** From an empty log, any run of edits, undos and redos over any layers is the linear history at its
      cursor, and every reference it logged was the top of its stack. */
  lemma RunRefinesLine(texts: Texts, ops: seq<Op>)
    requires FreshIds(State(texts, []), ops)
    ensures var s, h := Run(State(texts, []), ops), LineRun(Line(texts, [], 0), ops);
            Refines(s, h) && s.texts == Current(h) && ReferencesTops(s.log)
  {
    RunSound(State(texts, []), Line(texts, [], 0), ops);
  }

  function Repeated(a: Action, ids: seq<nat>): seq<Op> {
    seq(|ids|, i requires 0 <= i < |ids| => Op(a, ids[i]))
  }

  lemma {:induction false} LineMoves(h: Line, a: Action, ids: seq<nat>)
    requires h.cursor <= |h.changes|
    requires a == DoUndo ==> |ids| <= h.cursor
    requires a == DoRedo ==> |ids| <= |h.changes| - h.cursor
    requires a == DoUndo || a == DoRedo
    ensures LineRun(h, Repeated(a, ids)) == h.(cursor := if a == DoUndo then h.cursor - |ids| else h.cursor + |ids|)
    decreases |ids|
  {
    if ids != [] {
      assert Repeated(a, ids)[1..] == Repeated(a, ids[1..]);
      LineMoves(LinePerform(h, a), a, ids[1..]);
    }
  }

  lemma RunMoves(s: State, h: Line, a: Action, ids: seq<nat>)
    requires Sound(s, h) && FreshIds(s, Repeated(a, ids))
    requires a == DoUndo ==> |ids| <= h.cursor
    requires a == DoRedo ==> |ids| <= |h.changes| - h.cursor
    requires a == DoUndo || a == DoRedo
    ensures Sound(Run(s, Repeated(a, ids)), h.(cursor := if a == DoUndo then h.cursor - |ids| else h.cursor + |ids|))
  {
    RunSound(s, h, Repeated(a, ids));
    LineMoves(h, a, ids);
  }

  /** As many redos as undos bring every layer back, whenever there was that much to undo. */
  lemma UndosThenRedos(s: State, h: Line, undos: seq<nat>, redos: seq<nat>)
    requires Sound(s, h) && |undos| == |redos| <= |Replay(s.log).undo|
    requires FreshIds(s, Repeated(DoUndo, undos))
    requires FreshIds(Run(s, Repeated(DoUndo, undos)), Repeated(DoRedo, redos))
    ensures Run(Run(s, Repeated(DoUndo, undos)), Repeated(DoRedo, redos)).texts == s.texts
  {
    var t, g := Run(s, Repeated(DoUndo, undos)), h.(cursor := h.cursor - |undos|);
    RunMoves(s, h, DoUndo, undos);
    RunMoves(t, g, DoRedo, redos);
    assert g.(cursor := g.cursor + |redos|) == h;
  }

  /** An edit after undos drops the redo branch: there is nothing to redo, and undoing it returns to the
      texts the edit was made on. */
  lemma EditDropsRedo(s: State, h: Line, layer: Layer, text: Text, editId: nat, id: nat)
    requires Sound(s, h) && FreshId(s.log, editId) && FreshId(Edit(s, editId, layer, text).log, id)
    ensures Apply(Edit(s, editId, layer, text), DoRedo, id) == None
    ensures Apply(Edit(s, editId, layer, text), DoUndo, id).Some?
    ensures Apply(Edit(s, editId, layer, text), DoUndo, id).value.texts == s.texts
  {
    EditRefines(s, h, layer, text, editId);
    var t, h' := Edit(s, editId, layer, text), LineApply(h, DoEdit(layer, text)).value;
    assert Sound(t, h') && h'.cursor == |h'.changes| == h.cursor + 1;
    UndoOnce(t, h', id);
    NothingLeft(t, h', id);
    assert h'.changes[..h.cursor] == h.changes[..h.cursor];
  }

  /** One undo goes back to the texts before the last change in effect. */
  lemma UndoOnce(s: State, h: Line, id: nat)
    requires Sound(s, h) && FreshId(s.log, id) && h.cursor > 0
    ensures Apply(s, DoUndo, id).Some?
    ensures Apply(s, DoUndo, id).value.texts == TextsAt(h.start, h.changes[..h.cursor - 1])
  {
    UndoRefines(s, h, id);
  }

  lemma NothingLeft(s: State, h: Line, id: nat)
    requires Sound(s, h) && FreshId(s.log, id) && h.cursor == |h.changes|
    ensures Apply(s, DoRedo, id) == None
  {
    ApplyRefines(s, h, DoRedo, id);
  }

  // ----- The segment -----

  lemma SetSame(texts: Texts, layer: Layer, text: Text)
    ensures texts.Set(layer, text) == texts <==> texts.Get(layer) == text
  {
  }

  /** The segment's texts and log as a class; events and texts are appended and set in place. */
  class Segment {
    var texts: Texts
    var log: seq<Event>
    var version: nat

    ghost function View(): State
      reads this
    {
      State(texts, log)
    }

    constructor (texts: Texts)
      ensures View() == State(texts, []) && version == 0
    {
      this.texts, log, version := texts, [], 0;
    }

    /** Sets one layer, unless an automatic process wants the user's or the segment has moved on. */
    method EditSegment(id: nat, expectedVersion: nat, layer: Layer, text: Text, actor: Actor)
      returns (failure: Option<Failure>)
      modifies this
      ensures failure == if actor == Automatic && layer == User then Some(Protected)
                         else if expectedVersion != old(version) then Some(Stale) else None
      ensures failure.Some? ==> View() == old(View()) && version == old(version)
      ensures failure.None? ==> View() == Apply(old(View()), DoEdit(layer, text),
                                                id).value && version == old(version) + 1
    {
      if actor == Automatic && layer == User { return Some(Protected); }
      if version != expectedVersion { return Some(Stale); }
      var previous := texts.Get(layer);
      texts := texts.Set(layer, text);
      version := expectedVersion + 1;
      log := log + [Edited(id, layer, previous)];
      return None;
    }

    method RebuildStacks() returns (undoStack: seq<Event>, redoStack: seq<(Event, Event)>)
      ensures Stacks(undoStack, redoStack) == Replay(log)
    {
      undoStack, redoStack := [], [];
      for n := 0 to |log|
        invariant Stacks(undoStack, redoStack) == Replay(log[..n])
      {
        assert log[..n + 1][..n] == log[..n];
        var event := log[n];
        match event
        case Edited(_, _, _) =>
          undoStack := undoStack + [event];
          redoStack := [];
        case Undone(_, editId, _, _, _) =>
          var k := FindEdit(undoStack, editId);
          if k < |undoStack| {
            var original := undoStack[k];
            undoStack := undoStack[..k] + undoStack[k + 1..];
            redoStack := redoStack + [(original, event)];
          }
        case Redone(_, undoId, _, _) =>
          var k := FindPair(redoStack, undoId);
          if k < |redoStack| {
            var pair := redoStack[k];
            redoStack := redoStack[..k] + redoStack[k + 1..];
            undoStack := undoStack + [pair.0];
          }
        case Other(_) =>
      }
      assert log[..|log|] == log;
    }

    /** Undo or redo: rebuild both stacks from the whole log, then act on the top of one. */
    method HistoryAction(id: nat, expectedVersion: nat, redo: bool) returns (failure: Option<Failure>)
      modifies this
      ensures expectedVersion != old(version) ==> failure == Some(Stale)
      ensures expectedVersion == old(version) ==>
        failure == match Apply(old(View()), if redo then DoRedo else DoUndo, id)
                   case None => Some(if redo then NothingToRedo else NothingToUndo)
                   case Some(_) => None
      ensures failure.Some? ==> View() == old(View()) && version == old(version)
      ensures failure.None? ==> Some(View()) == Apply(old(View()), if redo then DoRedo else DoUndo, id)
      ensures failure.None? ==> version == old(version) + if texts == old(texts) then 0 else 1
    {
      if version != expectedVersion { return Some(Stale); }
      var undoStack, redoStack := RebuildStacks();
      ReplayWellFormed(log);
      var layer, text, event;
      if redo {
        if redoStack == [] { return Some(NothingToRedo); }
        var (source, undone) := redoStack[|redoStack| - 1];
        layer, text := source.layer, undone.redoText;
        event := Redone(id, undone.id, layer, texts.Get(layer));
      } else {
        if undoStack == [] { return Some(NothingToUndo); }
        var source := undoStack[|undoStack| - 1];
        layer, text := source.layer, source.text;
        event := Undone(id, source.id, layer, texts.Get(layer), texts.Get(layer));
      }
      SetSame(texts, layer, text);
      if texts.Get(layer) != text { version := version + 1; }
      texts := texts.Set(layer, text);
      log := log + [event];
      return None;
    }
  }

}
