/** The annotation editor as the page holds it. Marks are objects moved and
    resized in place; the drawing, the snapshots of both stacks, the start of a
    gesture and the drafts of other images are lists of such objects. Every mark
    object is at home in exactly one list, so the object editor takes exactly the
    steps of the value editor in `Annotations`: no in-place change reaches a
    snapshot, the start of a gesture or another image's draft. */
module Editor {
  import opened Common
  import opened Marks
  import opened Annotations

  /** The one list a mark object belongs to. */
  datatype Home =
    | Live
    | Start
    | Shelf(image: string)
    | Past(owner: Option<string>, at: nat)
    | Future(owner: Option<string>, at: nat)

  class MarkObject {
    var m: Mark
    ghost var home: Home

    constructor (value: Mark, ghost h: Home)
      ensures m == value && home == h
    {
      m, home := value, h;
    }
  }

  /** The list holds objects of its own, all different, with values `v`. */
  ghost predicate ListAt(marks: seq<MarkObject>, h: Home, v: seq<Mark>)
    reads marks
  {
    && |marks| == |v|
    && (forall i :: 0 <= i < |marks| ==> marks[i].home == h && marks[i].m == v[i])
    && (forall i, j :: 0 <= i < j < |marks| ==> marks[i] != marks[j])
  }

  ghost function All(stack: seq<seq<MarkObject>>): set<object> {
    set i, j | 0 <= i < |stack| && 0 <= j < |stack[i]| :: stack[i][j]
  }

  ghost predicate PastAt(stack: seq<seq<MarkObject>>, owner: Option<string>, v: seq<seq<Mark>>)
    reads All(stack)
  {
    |stack| == |v| && forall i :: 0 <= i < |stack| ==> ListAt(stack[i], Past(owner, i), v[i])
  }

  ghost predicate FutureAt(stack: seq<seq<MarkObject>>, owner: Option<string>, v: seq<seq<Mark>>)
    reads All(stack)
  {
    |stack| == |v| && forall i :: 0 <= i < |stack| ==> ListAt(stack[i], Future(owner, i), v[i])
  }

  datatype SavedDraft = SavedDraft(marks: seq<MarkObject>, body: string, undo: seq<seq<MarkObject>>,
                                   redo: seq<seq<MarkObject>>,
                                   zoom: real, pendingLabel: Option<Label>)

  ghost predicate DraftAt(d: SavedDraft, image: string, v: Draft)
    reads d.marks, All(d.undo), All(d.redo)
  {
    && ListAt(d.marks, Shelf(image), v.marks)
    && PastAt(d.undo, Some(image), v.undo) && FutureAt(d.redo, Some(image), v.redo)
    && d.body == v.body && d.zoom == v.zoom && d.pendingLabel == v.pendingLabel
  }

  /** `cloneEvidenceMarks`: new objects with the given values. */
  method Fresh(v: seq<Mark>, ghost h: Home) returns (copy: seq<MarkObject>)
    ensures ListAt(copy, h, v) && fresh(copy)
  {
    copy := [];
    for i := 0 to |v|
      invariant ListAt(copy, h, v[..i]) && fresh(copy)
    {
      var o := new MarkObject(v[i], h);
      copy := copy + [o];
    }
  }

  method Values(marks: seq<MarkObject>, ghost h: Home, ghost view: seq<Mark>) returns (v: seq<Mark>)
    requires ListAt(marks, h, view)
    ensures v == view
  {
    v := [];
    for i := 0 to |marks|
      invariant v == view[..i]
    {
      v := v + [marks[i].m];
    }
  }

  method Clone(marks: seq<MarkObject>, ghost from: Home, ghost view: seq<Mark>, ghost to: Home)
    returns (copy: seq<MarkObject>)
    requires ListAt(marks, from, view)
    ensures ListAt(copy, to, view) && fresh(copy)
  {
    var v := Values(marks, from, view);
    copy := Fresh(v, to);
  }

  method Find(marks: seq<MarkObject>, id: Id, ghost h: Home, ghost view: seq<Mark>) returns (i: nat)
    requires ListAt(marks, h, view)
    ensures i == IndexById(view, id)
  {
    i := 0;
    while i < |marks| && marks[i].m.id != id
      invariant i <= |marks| && forall k :: 0 <= k < i ==> view[k].id != id
    {
      i := i + 1;
    }
  }

  datatype Grip = Idle | Panning | Dragging(kind: DragKind, id: Id, start: Point)

  function GripOf(g: Grip, before: seq<Mark>): Gesture {
    match g
    case Idle => Gesture.Idle
    case Panning => Gesture.Panning
    case Dragging(kind, id, start) => Gesture.Dragging(kind, id, start, before)
  }

  /** Everything the editor holds; `before` is the snapshot taken when the latest gesture began. */
  datatype Desk = Desk(key: Option<string>, live: seq<MarkObject>, undo: seq<seq<MarkObject>>,
                       redo: seq<seq<MarkObject>>,
                       body: string, zoom: real, pendingLabel: Option<Label>,
                       drafts: map<string, SavedDraft>, drag: Grip, before: seq<MarkObject>)

  ghost predicate DraftsAt(drafts: map<string, SavedDraft>, v: map<string, Draft>)
    reads *
  {
    drafts.Keys == v.Keys && forall k :: k in drafts ==> DraftAt(drafts[k], k, v[k])
  }

  ghost predicate PageAt(d: Desk, v: Draft)
    reads d.live, All(d.undo), All(d.redo)
  {
    && ListAt(d.live, Live, v.marks)
    && PastAt(d.undo, d.key, v.undo) && FutureAt(d.redo, d.key, v.redo)
    && d.body == v.body && d.zoom == v.zoom && d.pendingLabel == v.pendingLabel
  }

  /** `commitEvidenceMarks`. */
  method Commit(d: Desk, next: seq<Mark>, ghost v: Draft) returns (d': Desk)
    requires PageAt(d, v)
    ensures d' == d.(live := d'.live, undo := d'.undo, redo := []) && PageAt(d', Annotations.Commit(v, next))
  {
    var was := Clone(d.live, Live, v.marks, Past(d.key, |d.undo|));
    var now := Fresh(next, Live);
    d' := d.(live := now, undo := d.undo + [was], redo := []);
  }

  // ----- lists with different homes share no object -----

  lemma {:induction false} PastApart(stack: seq<seq<MarkObject>>, owner: Option<string>, v: seq<seq<Mark>>,
                                     marks: seq<MarkObject>, h: Home, w: seq<Mark>)
    requires PastAt(stack, owner, v) && ListAt(marks, h, w)
    requires forall i :: 0 <= i < |stack| ==> h != Past(owner, i)
    ensures forall o :: o in marks ==> o !in All(stack)
  {
  }

  lemma {:induction false} FutureApart(stack: seq<seq<MarkObject>>, owner: Option<string>, v: seq<seq<Mark>>,
                                       marks: seq<MarkObject>, h: Home, w: seq<Mark>)
    requires FutureAt(stack, owner, v) && ListAt(marks, h, w)
    requires forall i :: 0 <= i < |stack| ==> h != Future(owner, i)
    ensures forall o :: o in marks ==> o !in All(stack)
  {
  }

  /** A list moves from one place to another; its marks stay the same objects. */
  ghost method Rehome(marks: seq<MarkObject>, from: Home, to: Home, v: seq<Mark>)
    requires ListAt(marks, from, v)
    modifies marks
    ensures ListAt(marks, to, v)
  {
    forall i | 0 <= i < |marks| { marks[i].home := to; }
  }

  /** A snapshot becomes the live drawing; the other snapshots are untouched. */
  ghost method Raise(top: seq<MarkObject>, from: Home, v: seq<Mark>, owner: Option<string>, past: seq<seq<MarkObject>>,
                     undo: seq<seq<Mark>>, future: seq<seq<MarkObject>>, redo: seq<seq<Mark>>)
    requires ListAt(top, from, v) && PastAt(past, owner, undo) && FutureAt(future, owner, redo)
    requires forall i :: 0 <= i < |past| ==> from != Past(owner, i)
    requires forall i :: 0 <= i < |future| ==> from != Future(owner, i)
    modifies top
    ensures ListAt(top, Live, v) && PastAt(past, owner, undo) && FutureAt(future, owner, redo)
  {
    PastApart(past, owner, undo, top, from, v);
    FutureApart(future, owner, redo, top, from, v);
    Rehome(top, from, Live, v);
  }

  /** `evidenceUndo`. */
  method Undo(d: Desk, ghost v: Draft) returns (d': Desk)
    requires PageAt(d, v)
    modifies if d.undo == [] then [] else d.undo[|d.undo| - 1]
    ensures d' == d.(live := d'.live, undo := d'.undo, redo := d'.redo) && PageAt(d', Undone(v))
  {
    if |d.undo| == 0 { return d; }
    var n := |d.undo| - 1;
    var top, rest := d.undo[n], d.undo[..n];
    var now := Clone(d.live, Live, v.marks, Future(d.key, |d.redo|));
    Raise(top, Past(d.key, n), v.undo[n], d.key, rest, v.undo[..n], d.redo + [now], v.redo + [v.marks]);
    d' := d.(live := top, undo := rest, redo := d.redo + [now]);
  }

  /** `evidenceRedo`. */
  method Redo(d: Desk, ghost v: Draft) returns (d': Desk)
    requires PageAt(d, v)
    modifies if d.redo == [] then [] else d.redo[|d.redo| - 1]
    ensures d' == d.(live := d'.live, undo := d'.undo, redo := d'.redo) && PageAt(d', Redone(v))
  {
    if |d.redo| == 0 { return d; }
    var n := |d.redo| - 1;
    var top, rest := d.redo[n], d.redo[..n];
    var now := Clone(d.live, Live, v.marks, Past(d.key, |d.undo|));
    Raise(top, Future(d.key, n), v.redo[n], d.key, d.undo + [now], v.undo + [v.marks], rest, v.redo[..n]);
    d' := d.(live := top, undo := d.undo + [now], redo := rest);
  }

  /** One live mark changes in place; nothing else on the page does. */
  method Change(d: Desk, i: nat, m: Mark, ghost v: Draft)
    requires PageAt(d, v) && i < |d.live|
    modifies d.live
    ensures i < |v.marks| && PageAt(d, v.(marks := v.marks[i := m]))
  {
    PastApart(d.undo, d.key, v.undo, d.live, Live, v.marks);
    FutureApart(d.redo, d.key, v.redo, d.live, Live, v.marks);
    d.live[i].m := m;
  }

  /** `pointerdown` with a drawing tool: the new mark is pushed onto the live drawing. */
  method BeginDraw(d: Desk, m: Mark, p: Point, ghost v: Draft) returns (d': Desk)
    requires PageAt(d, v)
    ensures d' == d.(live := d'.live, before := d'.before, drag := Grip.Dragging(Drawing, m.id, p))
    ensures PageAt(d', v.(marks := v.marks + [m])) && ListAt(d'.before, Start, v.marks)
  {
    var before := Clone(d.live, Live, v.marks, Start);
    var o := new MarkObject(m, Live);
    d' := d.(live := d.live + [o], before := before, drag := Grip.Dragging(Drawing, m.id, p));
  }

  /** `pointerdown` on a mark with the select tool. */
  method BeginGrab(d: Desk, id: Id, p: Point, ghost v: Draft) returns (d': Desk)
    requires PageAt(d, v)
    ensures var i := IndexById(v.marks, id);
            if i == |v.marks| then d' == d
            else d' == d.(before := d'.before, drag := Grip.Dragging(GrabKind(v.marks[i], p), id, p))
                 && ListAt(d'.before, Start, v.marks)
    ensures PageAt(d', v)
  {
    var i := Find(d.live, id, Live, v.marks);
    if i == |d.live| { return d; }
    var before := Clone(d.live, Live, v.marks, Start);
    d' := d.(before := before, drag := Grip.Dragging(GrabKind(d.live[i].m, p), id, p));
  }

  /** `pointermove`: the dragged mark changes in place, never its snapshot. */
  method Drag(d: Desk, p: Point, ghost v: Draft, ghost start: seq<Mark>)
    requires PageAt(d, v) && ListAt(d.before, Start, start) && d.drag.Dragging?
    modifies d.live
    ensures PageAt(d, Dragged(v, GripOf(d.drag, start), p))
  {
    var i := Find(d.live, d.drag.id, Live, v.marks);
    if i == |d.live| { return; }
    var m := d.live[i].m;
    var j := Find(d.before, d.drag.id, Start, start);
    var original := if j < |d.before| then d.before[j].m else m;
    Change(d, i, Pulled(d.drag.kind, original, m, d.drag.start, p), v);
  }

  /** Puts a copy of a snapshot on the undo stack and empties the redo stack. */
  method Remember(d: Desk, was: seq<Mark>, ghost v: Draft) returns (d': Desk)
    requires PageAt(d, v)
    ensures d' == d.(undo := d'.undo, redo := []) && PageAt(d', v.(undo := v.undo + [was], redo := []))
  {
    var copy := Fresh(was, Past(d.key, |d.undo|));
    d' := d.(undo := d.undo + [copy], redo := []);
  }

  /** Replaces the live drawing by a copy of a snapshot. */
  method Restore(d: Desk, was: seq<Mark>, ghost v: Draft) returns (d': Desk)
    requires PageAt(d, v)
    ensures d' == d.(live := d'.live) && PageAt(d', v.(marks := was))
  {
    var copy := Fresh(was, Live);
    d' := d.(live := copy);
  }

  /** `pointerup`. */
  method Drop(d: Desk, ghost v: Draft, ghost start: seq<Mark>) returns (d': Desk)
    requires PageAt(d, v) && ListAt(d.before, Start, start)
    ensures d' == d.(live := d'.live, undo := d'.undo, redo := d'.redo, drag := Grip.Idle)
    ensures PageAt(d', Dropped(v, GripOf(d.drag, start)))
  {
    d' := d;
    if d.drag.Dragging? {
      var was := Values(d.before, Start, start);
      var now := Values(d.live, Live, v.marks);
      if d.drag.kind == Drawing {
        var i := Find(d.live, d.drag.id, Live, v.marks);
        if i == |d.live| || TooSmall(now[i]) { d' := Restore(d, was, v); } else { d' := Remember(d, was, v); }
      } else if was != now {
        d' := Remember(d, was, v);
      }
    }
    d' := d'.(drag := Grip.Idle);
  }

  /** `pointercancel` or Escape. */
  method Cancel(d: Desk, ghost v: Draft, ghost start: seq<Mark>) returns (d': Desk)
    requires PageAt(d, v) && ListAt(d.before, Start, start)
    ensures d' == d.(live := d'.live, drag := Grip.Idle)
    ensures PageAt(d', if d.drag.Dragging? then v.(marks := start) else v)
  {
    d' := d;
    if d.drag.Dragging? {
      var was := Values(d.before, Start, start);
      d' := Restore(d, was, v);
    }
    d' := d'.(drag := Grip.Idle);
  }

  /** An arrow key: the mark moves in place, after a snapshot was taken. */
  method Nudge(d: Desk, id: Id, dx: real, dy: real, ghost v: Draft) returns (d': Desk)
    requires PageAt(d, v)
    modifies d.live
    ensures d' == d.(undo := d'.undo, redo := d'.redo) && PageAt(d', Nudged(v, id, dx, dy))
  {
    var before := Values(d.live, Live, v.marks);
    var i := Find(d.live, id, Live, v.marks);
    if i == |d.live| || !HasPoints(d.live[i].m) { return d; }
    var m := Translate(d.live[i].m, dx, dy);
    Change(d, i, m, v);
    d' := Remember(d, before, v.(marks := v.marks[i := m]));
  }

  // ----- the whole editor -----

  /** The desk holds the state `s`; `start` is the drawing when the latest gesture began. */
  ghost predicate EditorAt(d: Desk, s: State, start: seq<Mark>)
    reads *
  {
    && d.key == s.key && PageAt(d, s.live) && DraftsAt(d.drafts, s.drafts)
    && (d.key.Some? ==> d.key.value !in d.drafts)
    && ListAt(d.before, Start, start) && s.gesture == GripOf(d.drag, start)
  }

  ghost predicate ApartFrom(o: object, d: SavedDraft) {
    o !in d.marks && o !in All(d.undo) && o !in All(d.redo)
  }

  /** No list of the shown drawing shares an object with the gesture's snapshot or with another image's draft. */
  lemma {:induction false} OthersApart(d: Desk, s: State, start: seq<Mark>, marks: seq<MarkObject>, h: Home,
                                       w: seq<Mark>)
    requires EditorAt(d, s, start) && ListAt(marks, h, w)
    requires h == Live || (h.Past? && h.owner == d.key) || (h.Future? && h.owner == d.key)
    ensures forall o :: o in marks ==> o !in d.before
    ensures forall o, k :: o in marks && k in d.drafts ==> ApartFrom(o, d.drafts[k])
  {
    forall k | k in d.drafts
      ensures forall o :: o in marks ==> ApartFrom(o, d.drafts[k])
    {
      var v := s.drafts[k];
      assert DraftAt(d.drafts[k], k, v);
      PastApart(d.drafts[k].undo, Some(k), v.undo, marks, h, w);
      FutureApart(d.drafts[k].redo, Some(k), v.redo, marks, h, w);
    }
  }

  /** In every state the editor can hold, the live drawing shares no mark with either stack, with the start of a
      gesture, or with anything saved for another image. */
  lemma {:induction false} NoSharing(d: Desk, s: State, start: seq<Mark>)
    requires EditorAt(d, s, start)
    ensures forall o :: o in d.live ==> o !in All(d.undo) && o !in All(d.redo) && o !in d.before
    ensures forall o, k :: o in d.live && k in d.drafts ==> ApartFrom(o, d.drafts[k])
  {
    PastApart(d.undo, d.key, s.live.undo, d.live, Live, s.live.marks);
    FutureApart(d.redo, d.key, s.live.redo, d.live, Live, s.live.marks);
    OthersApart(d, s, start, d.live, Live, s.live.marks);
  }

  method UndoStep(d: Desk, ghost s: State, ghost start: seq<Mark>) returns (d': Desk)
    requires EditorAt(d, s, start)
    modifies if d.undo == [] then [] else d.undo[|d.undo| - 1]
    ensures EditorAt(d', s.(live := Undone(s.live)), start)
  {
    ghost var n := |d.undo| - 1;
    if |d.undo| > 0 { OthersApart(d, s, start, d.undo[n], Past(d.key, n), s.live.undo[n]); }
    d' := Undo(d, s.live);
    assert forall k :: k in d.drafts ==> DraftAt(d.drafts[k], k, s.drafts[k]);
  }

  method RedoStep(d: Desk, ghost s: State, ghost start: seq<Mark>) returns (d': Desk)
    requires EditorAt(d, s, start)
    modifies if d.redo == [] then [] else d.redo[|d.redo| - 1]
    ensures EditorAt(d', s.(live := Redone(s.live)), start)
  {
    ghost var n := |d.redo| - 1;
    if |d.redo| > 0 { OthersApart(d, s, start, d.redo[n], Future(d.key, n), s.live.redo[n]); }
    d' := Redo(d, s.live);
    assert forall k :: k in d.drafts ==> DraftAt(d.drafts[k], k, s.drafts[k]);
  }

  method DragStep(d: Desk, at: Point, ghost s: State, ghost start: seq<Mark>)
    requires EditorAt(d, s, start)
    modifies d.live
    ensures EditorAt(d, Step(s, Event.Drag(at)), start)
  {
    if d.drag.Dragging? {
      OthersApart(d, s, start, d.live, Live, s.live.marks);
      Drag(d, ClampPoint(at), s.live, start);
      assert forall k :: k in d.drafts ==> DraftAt(d.drafts[k], k, s.drafts[k]);
    }
  }

  method NudgeStep(d: Desk, id: Id, dx: real, dy: real, ghost s: State, ghost start: seq<Mark>) returns (d': Desk)
    requires EditorAt(d, s, start)
    modifies d.live
    ensures EditorAt(d', Step(s, Event.Nudge(id, dx, dy)), start)
  {
    OthersApart(d, s, start, d.live, Live, s.live.marks);
    d' := Nudge(d, id, dx, dy, s.live);
    assert forall k :: k in d.drafts ==> DraftAt(d.drafts[k], k, s.drafts[k]);
  }

  /** The drawing after an event that edits the list of marks as a whole. */
  function Edited(marks: seq<Mark>, e: Event): seq<Mark>
    requires e.PlacePin? || e.AddText? || e.Delete? || e.Recolor? || e.Clear?
  {
    match e
    case PlacePin(id, color, at) =>
      var p, i := ClampPoint(at), IndexOfPin(marks);
      if i < |marks| then Substitute(marks, marks[i].id, Pin(marks[i].id, color, p.x, p.y))
      else marks + [Pin(id, color, p.x, p.y)]
    case AddText(id, color, at, text) => marks + [Text(id, color, ClampPoint(at).x, ClampPoint(at).y, text)]
    case Delete(id) => Without(marks, id)
    case Recolor(id, color) => Recolored(marks, id, color)
    case Clear => []
  }

  function EditedDraft(v: Draft, e: Event): Draft
    requires e.PlacePin? || e.AddText? || e.Delete? || e.Recolor? || e.Clear?
  {
    if e.Clear? && v.marks == [] then v
    else Annotations.Commit(v, Edited(v.marks, e)).(pendingLabel := if e.AddText? then None else v.pendingLabel)
  }

  lemma {:induction false} EditIsStep(s: State, e: Event, s': State)
    requires e.PlacePin? || e.AddText? || e.Delete? || e.Recolor? || e.Clear?
    requires s' == Step(s, e)
    ensures s'.live == EditedDraft(s.live, e) && s'.key == s.key && s'.drafts == s.drafts && s'.gesture == s.gesture
  {
  }

  /** Replaces the drawing by a new list of marks and records the old one. */
  method EditPage(d: Desk, e: Event, ghost v: Draft) returns (d': Desk)
    requires PageAt(d, v)
    requires e.PlacePin? || e.AddText? || e.Delete? || e.Recolor? || e.Clear?
    ensures d' == d.(live := d'.live, undo := d'.undo, redo := d'.redo, pendingLabel := d'.pendingLabel)
    ensures PageAt(d', EditedDraft(v, e))
  {
    var now := Values(d.live, Live, v.marks);
    if e.Clear? && now == [] { return d; }
    d' := Commit(d, Edited(now, e), v);
    if e.AddText? { d' := d'.(pendingLabel := None); }
  }

  method EditStep(d: Desk, e: Event, ghost s: State, ghost start: seq<Mark>) returns (d': Desk)
    requires EditorAt(d, s, start)
    requires e.PlacePin? || e.AddText? || e.Delete? || e.Recolor? || e.Clear?
    ensures EditorAt(d', Step(s, e), start)
  {
    d' := EditPage(d, e, s.live);
    EditIsStep(s, e, Step(s, e));
  }

  method DrawStep(d: Desk, e: Event, ghost s: State, ghost start: seq<Mark>) returns (d': Desk)
    requires EditorAt(d, s, start) && e.Draw?
    ensures EditorAt(d', Step(s, e), s.live.marks)
  {
    var p := ClampPoint(e.at);
    d' := BeginDraw(d, NewMark(e.tool, e.id, e.color, p), p, s.live);
  }

  method GrabStep(d: Desk, id: Id, at: Point, ghost s: State, ghost start: seq<Mark>)
    returns (d': Desk, ghost start': seq<Mark>)
    requires EditorAt(d, s, start)
    ensures EditorAt(d', Step(s, Event.Grab(id, at)), start')
  {
    d' := BeginGrab(d, id, ClampPoint(at), s.live);
    start' := if IndexById(s.live.marks, id) == |s.live.marks| then start else s.live.marks;
  }

  method ReleaseStep(d: Desk, e: Event, ghost s: State, ghost start: seq<Mark>) returns (d': Desk)
    requires EditorAt(d, s, start) && (e.Drop? || e.Cancel?)
    ensures EditorAt(d', Step(s, e), start)
  {
    if e.Drop? { d' := Drop(d, s.live, start); } else { d' := Cancel(d, s.live, start); }
  }

  /** `resetEvidenceDraft`. */
  method ResetStep(d: Desk, ghost s: State, ghost start: seq<Mark>) returns (d': Desk)
    requires EditorAt(d, s, start)
    ensures EditorAt(d', Step(s, Event.Reset), start)
  {
    d' := d.(live := [], body := "", undo := [], redo := [], pendingLabel := None,
             drafts := if d.key.Some? then d.drafts - {d.key.value} else d.drafts);
  }

  /** The shown drawing is copied onto the shelf; its snapshots move there. */
  method Shelve(d: Desk, ghost s: State, ghost start: seq<Mark>)
    returns (drafts: map<string, SavedDraft>, ghost v: map<string, Draft>)
    requires EditorAt(d, s, start)
    ensures DraftsAt(drafts, v) && v == if s.key.Some? then s.drafts[s.key.value := s.live] else s.drafts
  {
    drafts, v := d.drafts, s.drafts;
    if d.key.Some? {
      var copy := Clone(d.live, Live, s.live.marks, Shelf(d.key.value));
      drafts := drafts[d.key.value := SavedDraft(copy, d.body, d.undo, d.redo, d.zoom, d.pendingLabel)];
      v := v[d.key.value := s.live];
    }
  }

  /** A shelved draft comes back, its marks copied and its snapshots moved; without one the image opens empty. */
  method Unshelve(d: Desk, key: string, drafts: map<string, SavedDraft>, ghost v: map<string, Draft>) returns (d': Desk)
    requires DraftsAt(drafts, v)
    ensures d'.key == Some(key) && d'.drafts == drafts - {key} && d'.drag == d.drag && d'.before == d.before
    ensures PageAt(d', if key in v then Opened(v[key]) else EMPTY)
  {
    if key in drafts {
      var draft := drafts[key];
      assert DraftAt(draft, key, v[key]);
      var copy := Clone(draft.marks, Shelf(key), v[key].marks, Live);
      d' := Desk(Some(key), copy, draft.undo, draft.redo, draft.body, if draft.zoom == 0.0 then 1.0 else draft.zoom,
                 draft.pendingLabel, drafts - {key}, d.drag, d.before);
    } else {
      d' := Desk(Some(key), [], [], [], "", 1.0, None, drafts - {key}, d.drag, d.before);
    }
  }

  lemma {:induction false} FewerDrafts(drafts: map<string, SavedDraft>, v: map<string, Draft>, key: string)
    requires DraftsAt(drafts, v)
    ensures DraftsAt(drafts - {key}, v - {key})
  {
  }

  /** Showing another image. */
  method SwitchStep(d: Desk, key: string, ghost s: State, ghost start: seq<Mark>) returns (d': Desk)
    requires EditorAt(d, s, start)
    ensures EditorAt(d', SwitchTo(s, key), start)
  {
    if d.key == Some(key) { return d; }
    var drafts; ghost var v;
    drafts, v := Shelve(d, s, start);
    d' := Unshelve(d, key, drafts, v);
    FewerDrafts(drafts, v, key);
    ghost var s' := SwitchTo(s, key);
    assert s'.drafts == v - {key} && s'.live == if key in v then Opened(v[key]) else EMPTY;
  }

  /** The steps that only set a field. */
  method FieldStep(d: Desk, e: Event, ghost s: State, ghost start: seq<Mark>) returns (d': Desk)
    requires EditorAt(d, s, start)
    requires e.SetBody? || e.SetZoom? || e.SetLabel? || e.Pan? || e.NewCanvas? || (e.Saved? && d.key != Some(e.key))
    ensures EditorAt(d', Step(s, e), start)
  {
    match e {
      case SetBody(text) => d' := d.(body := text);
      case SetZoom(value) => d' := d.(zoom := Max(0.5, Min(4.0, value)));
      case SetLabel(pendingLabel) => d' := d.(pendingLabel := pendingLabel);
      case Saved(key) => d' := d.(drafts := d.drafts - {key});
      case Pan => d' := d.(drag := Grip.Panning);
      case NewCanvas => d' := d.(drag := Grip.Idle);
    }
  }

  /** The events of the mouse. */
  method PointerStep(d: Desk, e: Event, ghost s: State, ghost start: seq<Mark>)
    returns (d': Desk, ghost start': seq<Mark>)
    requires EditorAt(d, s, start)
    requires e.Draw? || e.Grab? || e.Drag? || e.Drop? || e.Cancel?
    modifies d.live
    ensures EditorAt(d', Step(s, e), start')
  {
    start' := start;
    match e {
      case Draw(_, _, _, _) => d' := DrawStep(d, e, s, start); start' := s.live.marks;
      case Grab(id, at) => d', start' := GrabStep(d, id, at, s, start);
      case Drag(at) => DragStep(d, at, s, start); d' := d;
      case Drop => d' := ReleaseStep(d, e, s, start);
      case Cancel => d' := ReleaseStep(d, e, s, start);
    }
  }

  method Apply(d: Desk, e: Event, ghost s: State, ghost start: seq<Mark>) returns (d': Desk, ghost start': seq<Mark>)
    requires EditorAt(d, s, start)
    modifies d.live, All(d.undo), All(d.redo)
    ensures EditorAt(d', Step(s, e), start')
  {
    start' := start;
    if e.Draw? || e.Grab? || e.Drag? || e.Drop? || e.Cancel? {
      d', start' := PointerStep(d, e, s, start);
    } else if e.PlacePin? || e.AddText? || e.Delete? || e.Recolor? || e.Clear? {
      d' := EditStep(d, e, s, start);
    } else {
      match e
      case Nudge(id, dx, dy) => d' := NudgeStep(d, id, dx, dy, s, start);
      case Undo => d' := UndoStep(d, s, start);
      case Redo => d' := RedoStep(d, s, start);
      case Switch(key) => d' := SwitchStep(d, key, s, start);
      case Reset => d' := ResetStep(d, s, start);
      case Saved(key) =>
        if d.key == Some(key) { d' := ResetStep(d, s, start); } else { d' := FieldStep(d, e, s, start); }
      case _ => d' := FieldStep(d, e, s, start);
    }
  }

  class AnnotationEditor {
    var desk: Desk
    ghost var view: State
    ghost var start: seq<Mark>

    ghost predicate Valid()
      reads *
    {
      EditorAt(desk, view, start)
    }

    constructor ()
      ensures Valid() && view == START
    {
      desk := Desk(None, [], [], [], "", 1.0, None, map[], Grip.Idle, []);
      view, start := START, [];
    }

    method Hold(d: Desk, ghost s: State, ghost begun: seq<Mark>)
      requires EditorAt(d, s, begun)
      modifies this
      ensures Valid() && desk == d && view == s
    {
      desk, view, start := d, s, begun;
      assert forall k :: k in d.drafts ==> DraftAt(d.drafts[k], k, s.drafts[k]);
    }

    /** Every event takes the object editor where it takes the value editor. */
    method Handle(e: Event)
      requires Valid()
      modifies this, desk.live, All(desk.undo), All(desk.redo)
      ensures Valid() && view == Step(old(view), e)
    {
      var d; ghost var begun;
      d, begun := Apply(desk, e, view, start);
      Hold(d, Step(view, e), begun);
    }
  }
}
