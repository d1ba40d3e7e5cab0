/** Laws of the annotation editor over whole runs: history, one pin per image, and
    drafts that survive work on other images. */
module AnnotationLaws {
  import opened Common
  import opened Marks
  import opened Annotations

  // ----- undo and redo -----

  function UndoN(d: Draft, k: nat): Draft {
    if k == 0 then d else Undone(UndoN(d, k - 1))
  }

  function RedoN(d: Draft, k: nat): Draft {
    if k == 0 then d else Redone(RedoN(d, k - 1))
  }

  lemma {:induction false} UndoNFirst(d: Draft, k: nat)
    ensures UndoN(Undone(d), k) == UndoN(d, k + 1)
  {
    if k > 0 { UndoNFirst(d, k - 1); }
  }

  lemma {:induction false} RedoNFirst(d: Draft, k: nat)
    ensures RedoN(Redone(d), k) == RedoN(d, k + 1)
  {
    if k > 0 { RedoNFirst(d, k - 1); }
  }

  lemma {:induction false} UndoNDepth(d: Draft, k: nat)
    requires k <= |d.undo|
    ensures UndoN(d, k).undo == d.undo[..|d.undo| - k]
    ensures UndoN(d, k).marks == if k == 0 then d.marks else d.undo[|d.undo| - k]
    ensures |UndoN(d, k).redo| == |d.redo| + k
  {
    if k > 0 {
      UndoNDepth(d, k - 1);
    }
  }

  lemma {:induction false} OneUndoRedo(d: Draft)
    requires d.undo != []
    ensures Redone(Undone(d)) == d
  {
    var n := |d.undo| - 1;
    assert d.undo[..n] + [d.undo[n]] == d.undo;
    assert (d.redo + [d.marks])[..|d.redo|] == d.redo;
  }

  lemma {:induction false} OneRedoUndo(d: Draft)
    requires d.redo != []
    ensures Undone(Redone(d)) == d
  {
    var n := |d.redo| - 1;
    assert d.redo[..n] + [d.redo[n]] == d.redo;
    assert (d.undo + [d.marks])[..|d.undo|] == d.undo;
  }

  /** Undoing k times and redoing k times restores marks and both stacks exactly. */
  lemma {:induction false} UndoThenRedo(d: Draft, k: nat)
    requires k <= |d.undo|
    ensures RedoN(UndoN(d, k), k) == d
  {
    if k > 0 {
      UndoNDepth(d, k - 1);
      var u := UndoN(d, k - 1);
      OneUndoRedo(u);
      RedoNFirst(Undone(u), k - 1);
      UndoThenRedo(d, k - 1);
    }
  }

  lemma {:induction false} RedoNDepth(d: Draft, k: nat)
    requires k <= |d.redo|
    ensures RedoN(d, k).redo == d.redo[..|d.redo| - k]
  {
    if k > 0 {
      RedoNDepth(d, k - 1);
    }
  }

  /** Redoing k times and undoing k times does so too. */
  lemma {:induction false} RedoThenUndo(d: Draft, k: nat)
    requires k <= |d.redo|
    ensures UndoN(RedoN(d, k), k) == d
  {
    if k > 0 {
      RedoNDepth(d, k - 1);
      var r := RedoN(d, k - 1);
      OneRedoUndo(r);
      UndoNFirst(Redone(r), k - 1);
      RedoThenUndo(d, k - 1);
    }
  }

  // ----- every list in the editor -----

  ghost predicate Known(kinds: map<Id, Kind>, m: Mark) {
    HasPoints(m) && m.id in kinds && kinds[m.id] == KindOf(m)
  }

  /** Distinct known ids, and at most one pin. */
  ghost predicate Neat(kinds: map<Id, Kind>, marks: seq<Mark>) {
    && (forall i :: 0 <= i < |marks| ==> Known(kinds, marks[i]))
    && (forall i, j :: 0 <= i < j < |marks| ==> marks[i].id != marks[j].id)
    && (forall i, j :: 0 <= i < j < |marks| ==> !(marks[i].Pin? && marks[j].Pin?))
  }

  ghost predicate NeatStack(kinds: map<Id, Kind>, stack: seq<seq<Mark>>) {
    forall i :: 0 <= i < |stack| ==> Neat(kinds, stack[i])
  }

  ghost predicate NeatDraft(kinds: map<Id, Kind>, d: Draft) {
    Neat(kinds, d.marks) && NeatStack(kinds, d.undo) && NeatStack(kinds, d.redo)
  }

  ghost predicate NeatState(s: State) {
    && NeatDraft(s.kinds, s.live)
    && (forall k :: k in s.drafts ==> NeatDraft(s.kinds, s.drafts[k]))
    && (s.gesture.Dragging? ==> Neat(s.kinds, s.gesture.before))
  }

  /** New marks get ids never handed out before. */
  ghost predicate FreshId(s: State, e: Event) {
    (e.Draw? || e.PlacePin? || e.AddText?) ==> e.id !in s.kinds
  }

  lemma {:induction false} NeatStateGrows(s: State, id: Id, kind: Kind)
    requires NeatState(s) && id !in s.kinds
    ensures NeatState(s.(kinds := s.kinds[id := kind]))
  {
  }

  lemma {:induction false} NeatAppend(kinds: map<Id, Kind>, marks: seq<Mark>, m: Mark)
    requires Neat(kinds, marks) && Known(kinds, m) && (forall i :: 0 <= i < |marks| ==> marks[i].id != m.id)
    requires m.Pin? ==> forall i :: 0 <= i < |marks| ==> !marks[i].Pin?
    ensures Neat(kinds, marks + [m])
  {
  }

  lemma {:induction false} NeatReplace(kinds: map<Id, Kind>, marks: seq<Mark>, i: nat, m: Mark)
    requires Neat(kinds, marks) && i < |marks| && Known(kinds, m) && m.id == marks[i].id
    ensures Neat(kinds, marks[i := m])
  {
  }

  lemma {:induction false} NeatSubstitute(kinds: map<Id, Kind>, marks: seq<Mark>, m: Mark)
    requires Neat(kinds, marks) && Known(kinds, m)
    ensures Neat(kinds, Substitute(marks, m.id, m))
  {
  }

  lemma {:induction false} NeatRecolor(kinds: map<Id, Kind>, marks: seq<Mark>, id: Id, color: string)
    requires Neat(kinds, marks)
    ensures Neat(kinds, Recolored(marks, id, color))
  {
  }

  lemma {:induction false} WithoutMembers(marks: seq<Mark>, id: Id, m: Mark)
    ensures m in Without(marks, id) <==> m in marks && m.id != id
  {
    if marks != [] {
      WithoutMembers(marks[1..], id, m);
    }
  }

  lemma {:induction false} NeatWithout(kinds: map<Id, Kind>, marks: seq<Mark>, id: Id)
    requires Neat(kinds, marks)
    ensures Neat(kinds, Without(marks, id))
  {
    if marks != [] {
      NeatWithout(kinds, marks[1..], id);
      var rest := Without(marks[1..], id);
      forall i | 0 <= i < |rest| ensures rest[i].id != marks[0].id && !(marks[0].Pin? && rest[i].Pin?) {
        WithoutMembers(marks[1..], id, rest[i]);
        assert rest[i] in rest;
      }
    }
  }

  lemma {:induction false} NeatCommit(kinds: map<Id, Kind>, d: Draft, next: seq<Mark>)
    requires NeatDraft(kinds, d) && Neat(kinds, next)
    ensures NeatDraft(kinds, Commit(d, next))
  {
  }

  lemma {:induction false} NeatDragged(kinds: map<Id, Kind>, d: Draft, g: Gesture, p: Point)
    requires NeatDraft(kinds, d) && (g.Dragging? ==> Neat(kinds, g.before))
    ensures NeatDraft(kinds, Dragged(d, g, p))
  {
    if g.Dragging? && IndexById(d.marks, g.id) < |d.marks| {
      var i, j := IndexById(d.marks, g.id), IndexById(g.before, g.id);
      assert Known(kinds, d.marks[i]);
      if j < |g.before| { assert Known(kinds, g.before[j]); }
      var original := if j < |g.before| then g.before[j] else d.marks[i];
      TranslateKeeps(original, p.x - g.start.x, p.y - g.start.y);
      NeatReplace(kinds, d.marks, i, DraggedMark(g, d.marks[i], p));
    }
  }

  lemma {:induction false} NeatDropped(kinds: map<Id, Kind>, d: Draft, g: Gesture)
    requires NeatDraft(kinds, d) && (g.Dragging? ==> Neat(kinds, g.before))
    ensures NeatDraft(kinds, Dropped(d, g))
  {
  }

  lemma {:induction false} NeatHistory(kinds: map<Id, Kind>, d: Draft)
    requires NeatDraft(kinds, d)
    ensures NeatDraft(kinds, Undone(d)) && NeatDraft(kinds, Redone(d))
  {
  }

  lemma {:induction false} NeatDraw(s: State, e: Event)
    requires NeatState(s) && FreshId(s, e) && e.Draw?
    ensures NeatState(Step(s, e))
  {
    var m := NewMark(e.tool, e.id, e.color, ClampPoint(e.at));
    NeatStateGrows(s, e.id, KindOf(m));
    assert forall i :: 0 <= i < |s.live.marks| ==> Known(s.kinds, s.live.marks[i]);
    NeatAppend(s.kinds[e.id := KindOf(m)], s.live.marks, m);
  }

  lemma {:induction false} NeatPin(s: State, e: Event)
    requires NeatState(s) && FreshId(s, e) && e.PlacePin?
    ensures NeatState(Step(s, e))
  {
    var p, i := ClampPoint(e.at), IndexOfPin(s.live.marks);
    assert forall i :: 0 <= i < |s.live.marks| ==> Known(s.kinds, s.live.marks[i]);
    if i < |s.live.marks| {
      var pin := Pin(s.live.marks[i].id, e.color, p.x, p.y);
      NeatSubstitute(s.kinds, s.live.marks, pin);
      NeatCommit(s.kinds, s.live, Substitute(s.live.marks, pin.id, pin));
    } else {
      var pin := Pin(e.id, e.color, p.x, p.y);
      NeatStateGrows(s, e.id, PinKind);
      NeatAppend(s.kinds[e.id := PinKind], s.live.marks, pin);
      NeatCommit(s.kinds[e.id := PinKind], s.live, s.live.marks + [pin]);
    }
  }

  lemma {:induction false} NeatText(s: State, e: Event)
    requires NeatState(s) && FreshId(s, e) && e.AddText?
    ensures NeatState(Step(s, e))
  {
    var p := ClampPoint(e.at);
    var m := Text(e.id, e.color, p.x, p.y, e.text);
    NeatStateGrows(s, e.id, TextKind);
    assert forall i :: 0 <= i < |s.live.marks| ==> Known(s.kinds, s.live.marks[i]);
    NeatAppend(s.kinds[e.id := TextKind], s.live.marks, m);
    NeatCommit(s.kinds[e.id := TextKind], s.live, s.live.marks + [m]);
  }

  lemma {:induction false} NeatNudge(s: State, e: Event)
    requires NeatState(s) && e.Nudge?
    ensures NeatState(Step(s, e))
  {
    var i := IndexById(s.live.marks, e.id);
    if i < |s.live.marks| && HasPoints(s.live.marks[i]) {
      assert Known(s.kinds, s.live.marks[i]);
      var m := Translate(s.live.marks[i], e.dx, e.dy);
      TranslateKeeps(s.live.marks[i], e.dx, e.dy);
      NeatReplace(s.kinds, s.live.marks, i, m);
      NeatCommit(s.kinds, s.live, s.live.marks[i := m]);
    }
  }

  lemma {:induction false} NeatEdit(s: State, e: Event)
    requires NeatState(s) && (e.Delete? || e.Recolor? || e.Clear? || e.Undo? || e.Redo?)
    ensures NeatState(Step(s, e))
  {
    match e
    case Delete(id) =>
      NeatWithout(s.kinds, s.live.marks, id);
      NeatCommit(s.kinds, s.live, Without(s.live.marks, id));
    case Recolor(id, color) =>
      NeatRecolor(s.kinds, s.live.marks, id, color);
      NeatCommit(s.kinds, s.live, Recolored(s.live.marks, id, color));
    case Clear => NeatCommit(s.kinds, s.live, []);
    case Undo => NeatHistory(s.kinds, s.live);
    case Redo => NeatHistory(s.kinds, s.live);
  }

  /** Every step keeps ids distinct and pins single, in every list anywhere. */
  lemma {:induction false} StepNeat(s: State, e: Event)
    requires NeatState(s) && FreshId(s, e)
    ensures NeatState(Step(s, e))
  {
    match e
    case Draw(_, _, _, _) => NeatDraw(s, e);
    case PlacePin(_, _, _) => NeatPin(s, e);
    case AddText(_, _, _, _) => NeatText(s, e);
    case Drag(at) => NeatDragged(s.kinds, s.live, s.gesture, ClampPoint(at));
    case Drop => NeatDropped(s.kinds, s.live, s.gesture);
    case Nudge(_, _, _) => NeatNudge(s, e);
    case Delete(_) => NeatEdit(s, e);
    case Recolor(_, _) => NeatEdit(s, e);
    case Clear => NeatEdit(s, e);
    case Undo => NeatEdit(s, e);
    case Redo => NeatEdit(s, e);
    case Grab(_, _) =>
    case Cancel =>
    case SetBody(_) =>
    case SetZoom(_) =>
    case SetLabel(_) =>
    case Switch(_) =>
    case Reset =>
    case Saved(_) =>
    case Pan =>
    case NewCanvas =>
  }

  ghost predicate FreshRun(s: State, es: seq<Event>) {
    es != [] ==> FreshRun(s, es[..|es| - 1]) && FreshId(Play(s, es[..|es| - 1]), es[|es| - 1])
  }

  /** In every reachable state no mark list, live, saved or in history, holds two pins. */
  lemma {:induction false} OnePinEverywhere(es: seq<Event>)
    requires FreshRun(START, es)
    ensures NeatState(Play(START, es))
  {
    if es != [] {
      OnePinEverywhere(es[..|es| - 1]);
      StepNeat(Play(START, es[..|es| - 1]), es[|es| - 1]);
    }
  }

  // ----- drafts -----

  /** Every zoom is between a half and four, the one shown and those saved with a draft. */
  ghost predicate ZoomSet(s: State) {
    0.5 <= s.live.zoom <= 4.0 && forall k :: k in s.drafts ==> 0.5 <= s.drafts[k].zoom <= 4.0
  }

  /** An event that neither shows image `key` nor saves its feedback. */
  predicate LeavesAlone(e: Event, key: string) {
    e != Switch(key) && e != Saved(key)
  }

  lemma {:induction false} StepKeepsDraft(s: State, e: Event, key: string)
    requires s.key.Some? && s.key.value != key && key in s.drafts && LeavesAlone(e, key)
    ensures var s' := Step(s, e);
            s'.key.Some? && s'.key.value != key && key in s'.drafts && s'.drafts[key] == s.drafts[key]
  {
  }

  lemma {:induction false} PlayKeepsDraft(s: State, es: seq<Event>, key: string)
    requires s.key.Some? && s.key.value != key && key in s.drafts
    requires forall i :: 0 <= i < |es| ==> LeavesAlone(es[i], key)
    ensures var s' := Play(s, es);
            s'.key.Some? && s'.key.value != key && key in s'.drafts && s'.drafts[key] == s.drafts[key]
  {
    if es != [] {
      PlayKeepsDraft(s, es[..|es| - 1], key);
      StepKeepsDraft(Play(s, es[..|es| - 1]), es[|es| - 1], key);
    }
  }

  lemma {:induction false} ZoomStaysSet(es: seq<Event>)
    ensures ZoomSet(Play(START, es))
  {
    if es != [] {
      ZoomStaysSet(es[..|es| - 1]);
      StepZoomSet(Play(START, es[..|es| - 1]), es[|es| - 1]);
    }
  }

  /** After any run: leaving the image shown and coming back restores its marks, comment, both stacks, zoom and
      pending label, whatever was done on other images meanwhile. */
  lemma {:induction false} AwayAndBack(before: seq<Event>, key: string, away: string, es: seq<Event>)
    requires Play(START, before).key == Some(key) && away != key
    requires forall i :: 0 <= i < |es| ==> LeavesAlone(es[i], key)
    ensures var s := Play(START, before);
            Step(Play(Step(s, Switch(away)), es), Switch(key)).live == s.live
  {
    ZoomStaysSet(before);
    Return(Play(START, before), key, away, es);
  }

  lemma {:induction false} Return(s: State, key: string, away: string, es: seq<Event>)
    requires s.key == Some(key) && away != key && ZoomSet(s)
    requires forall i :: 0 <= i < |es| ==> LeavesAlone(es[i], key)
    ensures Step(Play(Step(s, Switch(away)), es), Switch(key)).live == s.live
  {
    PlayKeepsDraft(Step(s, Switch(away)), es, key);
  }

  lemma {:induction false} StepZoomSet(s: State, e: Event)
    requires ZoomSet(s)
    ensures ZoomSet(Step(s, e))
  {
    if e.Switch? {
      assert ZoomSet(SwitchTo(s, e.key));
    }
  }
}
