/** Where committed marks can be. Everything recorded stays inside the unit square
    and big enough as long as no event records or abandons a mark that is still
    being drawn and still too small; and that is the exact condition, event by
    event and over whole runs. */
module AnnotationGeometry {
  import opened Common
  import opened Marks
  import opened Annotations
  import opened AnnotationLaws

  /** Inside the unit square, rectangles with sides, strokes with two to 256 points. */
  ghost predicate Good(m: Mark) {
    && Inside(m)
    && (m.Rectangle? ==> m.width >= 0.002 && m.height >= 0.002)
    && (m.Stroke? ==> 2 <= |m.points| <= 256)
  }

  /** A mark still being drawn. */
  ghost predicate Partial(m: Mark) {
    Inside(m) && !m.Pin? && !m.Text? && (m.Stroke? ==> |m.points| <= 256)
  }

  ghost predicate GoodList(marks: seq<Mark>) {
    forall i :: 0 <= i < |marks| ==> Good(marks[i])
  }

  ghost predicate GoodStack(stack: seq<seq<Mark>>) {
    forall i :: 0 <= i < |stack| ==> GoodList(stack[i])
  }

  ghost predicate GoodHistory(d: Draft) {
    GoodStack(d.undo) && GoodStack(d.redo)
  }

  /** The size a mark must have: sides for a rectangle, two points for a stroke. */
  predicate BigEnough(m: Mark) {
    (m.Rectangle? ==> m.width >= 0.002 && m.height >= 0.002) && (m.Stroke? ==> |m.points| >= 2)
  }

  /** The live marks in the middle of a gesture: all good but for the mark being drawn. */
  ghost predicate Underway(g: Gesture, marks: seq<Mark>)
    requires g.Dragging?
  {
    && GoodList(g.before) && UnitPoint(g.start)
    && (g.kind == Drawing ==> GoodBut(g.id, marks))
    && (g.kind != Drawing ==> GoodList(marks) && IndexById(g.before, g.id) < |g.before|)
    && (g.kind == Resizing ==> g.before[IndexById(g.before, g.id)].Rectangle?)
  }

  ghost predicate GoodBut(id: Id, marks: seq<Mark>) {
    forall i :: 0 <= i < |marks| ==> Good(marks[i]) || (marks[i].id == id && Partial(marks[i]))
  }

  /** Everything recorded is good, and so is the drawing but for a mark being drawn. */
  ghost predicate Tidy(s: State) {
    && GoodHistory(s.live)
    && (forall k :: k in s.drafts ==> GoodHistory(s.drafts[k]) && GoodList(s.drafts[k].marks))
    && (if s.gesture.Dragging? then Underway(s.gesture, s.live.marks) else GoodList(s.live.marks))
  }

  /** The live drawing holds the mark being drawn, and that is still too small. */
  predicate HalfDrawn(s: State) {
    s.gesture.Dragging? && s.gesture.kind == Drawing
    && var i := IndexById(s.live.marks, s.gesture.id);
       i < |s.live.marks| && !BigEnough(s.live.marks[i])
  }

  /** The event records the live drawing in the history. */
  predicate Records(s: State, e: Event) {
    match e
    case PlacePin(_, _, _) => true
    case AddText(_, _, _, _) => true
    case Delete(_) => true
    case Recolor(_, _) => true
    case Clear => s.live.marks != []
    case Nudge(id, _, _) =>
      var i := IndexById(s.live.marks, id);
      i < |s.live.marks| && HasPoints(s.live.marks[i])
    case Undo => s.live.undo != []
    case Redo => s.live.redo != []
    case _ => false
  }

  /** The event records the live drawing, saves it with another image's draft, or ends the gesture without
      finishing or cancelling it. */
  predicate LeavesBehind(s: State, e: Event) {
    match e
    case Switch(key) => s.key.Some? && s.key.value != key
    case Draw(_, _, _, _) => true
    case Grab(id, _) => IndexById(s.live.marks, id) < |s.live.marks|
    case Pan => true
    case NewCanvas => true
    case _ => Records(s, e)
  }

  predicate Careful(s: State, e: Event) {
    HalfDrawn(s) ==> !LeavesBehind(s, e)
  }

  lemma {:induction false} TranslateGood(m: Mark, dx: real, dy: real, t: Mark)
    requires Good(m) && t == Translate(m, dx, dy)
    ensures Good(t)
  {
    if m.Pin? || m.Text? { TranslatePin(m, dx, dy); } else { TranslateIsRigid(m, dx, dy); }
    TranslateKeeps(m, dx, dy);
  }

  lemma {:induction false} ResizeGood(m: Mark, p: Point, t: Mark)
    requires Good(m) && m.Rectangle? && UnitPoint(p) && t == Resized(m, p)
    ensures Good(t)
  {
  }

  lemma {:induction false} ExtendPartial(m: Mark, start: Point, p: Point)
    requires Partial(m) && UnitPoint(start) && UnitPoint(p)
    ensures Partial(Extended(m, start, p)) && Extended(m, start, p).id == m.id
  {
  }

  /** A drawn mark that is not too small is good. */
  lemma {:induction false} KeptIsGood(m: Mark)
    requires Partial(m) && !TooSmall(m)
    ensures Good(m)
  {
  }

  lemma {:induction false} GoodPush(stack: seq<seq<Mark>>, marks: seq<Mark>)
    requires GoodStack(stack) && GoodList(marks)
    ensures GoodStack(stack + [marks])
  {
  }

  lemma {:induction false} GoodWithout(marks: seq<Mark>, id: Id)
    requires GoodList(marks)
    ensures GoodList(Without(marks, id))
  {
    if marks != [] {
      GoodWithout(marks[1..], id);
    }
  }

  lemma {:induction false} PartialGood(m: Mark)
    requires Partial(m)
    ensures Good(m) <==> BigEnough(m)
  {
  }

  lemma {:induction false} DragDrawing(g: Gesture, marks: seq<Mark>, i: nat, p: Point)
    requires g.Dragging? && g.kind == Drawing && Underway(g, marks) && UnitPoint(p) && i < |marks|
    requires marks[i].id == g.id
    ensures Underway(g, marks[i := DraggedMark(g, marks[i], p)])
  {
    var m := marks[i];
    if m.Rectangle? || m.Arrow? || m.Stroke? { ExtendPartial(m, g.start, p); }
  }

  lemma {:induction false} MovedByGood(m: Mark, d: Point, t: Mark)
    requires Good(m) && t == MovedBy(m, d)
    ensures Good(t)
  {
    TranslateGood(m, d.x, d.y, Translate(m, d.x, d.y));
  }

  lemma {:induction false} PulledGood(kind: DragKind, original: Mark, m: Mark, start: Point, p: Point, t: Mark)
    requires kind != Drawing && Good(original) && UnitPoint(p) && (kind == Resizing ==> original.Rectangle?)
    requires t == Pulled(kind, original, m, start, p)
    ensures Good(t)
  {
    if kind == Moving {
      MovedByGood(original, Point(p.x - start.x, p.y - start.y), t);
    } else {
      ResizeGood(original, p, t);
    }
  }

  lemma {:induction false} DragOther(g: Gesture, marks: seq<Mark>, i: nat, m: Mark)
    requires g.Dragging? && g.kind != Drawing && Underway(g, marks) && i < |marks| && Good(m)
    ensures Underway(g, marks[i := m])
  {
  }

  lemma {:induction false} DragTidy(s: State, p: Point)
    requires Tidy(s) && UnitPoint(p) && s.gesture.Dragging?
    ensures Underway(s.gesture, Dragged(s.live, s.gesture, p).marks)
  {
    var g, i := s.gesture, IndexById(s.live.marks, s.gesture.id);
    if i < |s.live.marks| {
      if g.kind == Drawing {
        DragDrawing(g, s.live.marks, i, p);
      } else {
        var t := DraggedMark(g, s.live.marks[i], p);
        PulledGood(g.kind, Original(g, s.live.marks[i]), s.live.marks[i], g.start, p, t);
        DragOther(g, s.live.marks, i, t);
      }
    }
  }

  /** With distinct ids only one mark can be under way; when it is not too small, all marks are good. */
  lemma {:induction false} DrawnGood(kinds: map<Id, Kind>, marks: seq<Mark>, id: Id)
    requires Neat(kinds, marks) && GoodBut(id, marks)
    requires var i := IndexById(marks, id); i < |marks| ==> BigEnough(marks[i])
    ensures GoodList(marks)
  {
    var k := IndexById(marks, id);
    forall i | 0 <= i < |marks| ensures Good(marks[i]) {
      if !Good(marks[i]) {
        assert i == k;
        PartialGood(marks[k]);
      }
    }
  }

  lemma {:induction false} WholeDrawing(s: State)
    requires Tidy(s) && NeatState(s) && !HalfDrawn(s)
    ensures GoodList(s.live.marks)
  {
    if s.gesture.Dragging? && s.gesture.kind == Drawing { DrawnGood(s.kinds, s.live.marks, s.gesture.id); }
  }

  lemma {:induction false} DropTidy(s: State)
    requires Tidy(s) && NeatState(s) && s.gesture.Dragging?
    ensures var d := Dropped(s.live, s.gesture); GoodHistory(d) && GoodList(d.marks)
  {
    var g := s.gesture;
    GoodPush(s.live.undo, g.before);
    if g.kind == Drawing {
      var i := IndexById(s.live.marks, g.id);
      if i < |s.live.marks| && !TooSmall(s.live.marks[i]) {
        if Partial(s.live.marks[i]) { KeptIsGood(s.live.marks[i]); }
        DrawnGood(s.kinds, s.live.marks, g.id);
      }
    }
  }

  lemma {:induction false} CommitTidy(d: Draft, next: seq<Mark>)
    requires GoodHistory(d) && GoodList(d.marks) && GoodList(next)
    ensures GoodHistory(Commit(d, next)) && GoodList(Commit(d, next).marks)
  {
  }

  lemma {:induction false} NewMarkPartial(tool: Tool, id: Id, color: string, p: Point)
    requires UnitPoint(p)
    ensures Partial(NewMark(tool, id, color, p)) && NewMark(tool, id, color, p).id == id
  {
  }

  lemma {:induction false} DrawTidy(s: State, e: Event)
    requires Tidy(s) && e.Draw? && GoodList(s.live.marks)
    ensures Tidy(Step(s, e))
  {
    NewMarkPartial(e.tool, e.id, e.color, ClampPoint(e.at));
  }

  lemma {:induction false} GrabTidy(s: State, e: Event)
    requires Tidy(s) && e.Grab? && GoodList(s.live.marks)
    ensures Tidy(Step(s, e))
  {
  }

  /** An edited drawing fits whatever gesture is under way. */
  lemma {:induction false} EditKeeps(s: State, live: Draft)
    requires Tidy(s) && GoodHistory(live) && GoodList(live.marks)
    ensures Tidy(s.(live := live))
  {
  }

  lemma {:induction false} EditTidy(s: State, e: Event)
    requires GoodHistory(s.live) && GoodList(s.live.marks)
    requires Records(s, e)
    ensures GoodHistory(Step(s, e).live) && GoodList(Step(s, e).live.marks)
  {
    var d := s.live;
    match e
    case PlacePin(id, color, at) =>
      var p, i := ClampPoint(at), IndexOfPin(d.marks);
      if i < |d.marks| {
        CommitTidy(d, Substitute(d.marks, d.marks[i].id, Pin(d.marks[i].id, color, p.x, p.y)));
      } else {
        CommitTidy(d, d.marks + [Pin(id, color, p.x, p.y)]);
      }
    case AddText(id, color, at, text) =>
      var p := ClampPoint(at);
      CommitTidy(d, d.marks + [Text(id, color, p.x, p.y, text)]);
    case Nudge(id, dx, dy) =>
      var i := IndexById(d.marks, id);
      var t := Translate(d.marks[i], dx, dy);
      TranslateGood(d.marks[i], dx, dy, t);
      CommitTidy(d, d.marks[i := t]);
    case Delete(id) =>
      GoodWithout(d.marks, id);
      CommitTidy(d, Without(d.marks, id));
    case Recolor(id, color) => CommitTidy(d, Recolored(d.marks, id, color));
    case Clear => CommitTidy(d, []);
    case Undo => GoodPush(d.redo, d.marks);
    case Redo => GoodPush(d.undo, d.marks);
  }

  lemma {:induction false} SwitchTidy(s: State, key: string)
    requires Tidy(s) && (s.key.Some? && s.key.value != key ==> GoodList(s.live.marks))
    ensures Tidy(SwitchTo(s, key))
  {
  }

  /** What each recording event does to the rest of the state. */
  lemma {:induction false} RecordsLive(s: State, e: Event)
    requires Records(s, e)
    ensures Step(s, e) == s.(live := Step(s, e).live, kinds := Step(s, e).kinds)
  {
  }

  lemma {:induction false} RecordTidy(s: State, e: Event)
    requires Tidy(s) && GoodList(s.live.marks) && Records(s, e)
    ensures Tidy(Step(s, e))
  {
    EditTidy(s, e);
    RecordsLive(s, e);
    EditKeeps(s, Step(s, e).live);
  }

  /** The events that change nothing but a field, an empty drawing, or which gesture is under way. */
  lemma {:induction false} PlainTidy(s: State, e: Event)
    requires Tidy(s) && !Records(s, e) && (LeavesBehind(s, e) ==> GoodList(s.live.marks))
    requires !e.Draw? && !e.Grab? && !e.Drag? && !e.Drop? && !e.Switch?
    ensures Tidy(Step(s, e))
  {
  }

  lemma {:induction false} CarefulTidy(s: State, e: Event)
    requires Tidy(s) && NeatState(s) && Careful(s, e)
    ensures Tidy(Step(s, e))
  {
    if !HalfDrawn(s) { WholeDrawing(s); }
    if Records(s, e) {
      RecordTidy(s, e);
    } else {
      match e
      case Draw(_, _, _, _) => DrawTidy(s, e);
      case Grab(id, _) => if IndexById(s.live.marks, id) < |s.live.marks| { GrabTidy(s, e); }
      case Drag(at) => if s.gesture.Dragging? { DragTidy(s, ClampPoint(at)); }
      case Drop => if s.gesture.Dragging? { DropTidy(s); }
      case Switch(key) => SwitchTidy(s, key);
      case _ => PlainTidy(s, e);
    }
  }

  /** A list with a mark that is too small. */
  lemma {:induction false} SmallMarkSpoils(s: State)
    requires Tidy(s) && HalfDrawn(s)
    ensures !GoodList(s.live.marks)
  {
    assert !Good(s.live.marks[IndexById(s.live.marks, s.gesture.id)]);
  }

  lemma {:induction false} RecordsPushes(s: State, e: Event)
    requires Records(s, e)
    ensures var d := Step(s, e).live;
            if e.Undo? then d.redo == s.live.redo + [s.live.marks] else d.undo == s.live.undo + [s.live.marks]
  {
  }

  lemma {:induction false} RecordedSpoils(s: State, e: Event)
    requires Records(s, e) && !GoodList(s.live.marks)
    ensures !GoodHistory(Step(s, e).live)
  {
    RecordsPushes(s, e);
    var d := Step(s, e).live;
    if e.Undo? { assert d.redo[|s.live.redo|] == s.live.marks; } else { assert d.undo[|s.live.undo|] == s.live.marks; }
  }

  lemma {:induction false} CarelessBreaks(s: State, e: Event)
    requires Tidy(s) && HalfDrawn(s) && LeavesBehind(s, e)
    ensures !Tidy(Step(s, e))
  {
    SmallMarkSpoils(s);
    if Records(s, e) {
      RecordedSpoils(s, e);
    } else if e.Switch? {
      assert s.key.value in Step(s, e).drafts && Step(s, e).drafts[s.key.value] == s.live;
    }
  }

  /** For every event in every tidy state: the state stays tidy if and only if the event does not record or abandon
      a mark that is still being drawn and still too small. */
  lemma {:induction false} StepTidy(s: State, e: Event)
    requires Tidy(s) && NeatState(s)
    ensures Tidy(Step(s, e)) <==> Careful(s, e)
  {
    if Careful(s, e) { CarefulTidy(s, e); } else { CarelessBreaks(s, e); }
  }

  ghost predicate CarefulRun(s: State, es: seq<Event>) {
    es != [] ==> CarefulRun(s, es[..|es| - 1]) && Careful(Play(s, es[..|es| - 1]), es[|es| - 1])
  }

  ghost predicate TidyRun(s: State, es: seq<Event>) {
    Tidy(Play(s, es)) && (es != [] ==> TidyRun(s, es[..|es| - 1]))
  }

  /** Over every run: all marks recorded, in every state on the way, lie in the unit square, with rectangle sides of
      at least 0.002 and strokes of 2 to 256 points, if and only if every event of the run is careful. */
  lemma {:induction false} CommittedMarksStayInside(es: seq<Event>)
    requires FreshRun(START, es)
    ensures TidyRun(START, es) <==> CarefulRun(START, es)
  {
    if es != [] {
      var front, e := es[..|es| - 1], es[|es| - 1];
      CommittedMarksStayInside(front);
      OnePinEverywhere(front);
      if TidyRun(START, front) {
        assert Tidy(Play(START, front));
        StepTidy(Play(START, front), e);
      }
    }
  }

  /** When an event records the drawing while a mark is being drawn, the history stays good if and only if that mark
      is big enough already. */
  lemma {:induction false} InterruptedDrawing(s: State, e: Event, i: nat)
    requires Tidy(s) && NeatState(s) && s.gesture.Dragging? && s.gesture.kind == Drawing && Records(s, e)
    requires i == IndexById(s.live.marks, s.gesture.id) && i < |s.live.marks|
    ensures GoodHistory(Step(s, e).live) <==> BigEnough(s.live.marks[i])
  {
    if BigEnough(s.live.marks[i]) {
      WholeDrawing(s);
      EditTidy(s, e);
    } else {
      SmallMarkSpoils(s);
      RecordedSpoils(s, e);
    }
  }

  /** Likewise for the draft that switching images saves. */
  lemma {:induction false} InterruptedBySwitch(s: State, key: string, i: nat)
    requires Tidy(s) && NeatState(s) && s.gesture.Dragging? && s.gesture.kind == Drawing
    requires s.key.Some? && s.key.value != key && i == IndexById(s.live.marks, s.gesture.id) && i < |s.live.marks|
    ensures s.key.value in Step(s, Switch(key)).drafts
    ensures GoodList(Step(s, Switch(key)).drafts[s.key.value].marks) <==> BigEnough(s.live.marks[i])
  {
    if BigEnough(s.live.marks[i]) { WholeDrawing(s); } else { SmallMarkSpoils(s); }
  }

  /** Such a run exists: the zero-sized rectangle of a press alone reaches the history. */
  lemma {:induction false} InterruptedDrawingBreaks()
    ensures exists es :: FreshRun(START, es) && !GoodHistory(Play(START, es).live)
  {
    var press, clear := Draw(RectangleTool, "mark-1", "#4c8dff", Point(0.5, 0.5)), Clear;
    var es := [press, clear];
    assert es[..1] == [press] && [press][..0] == [];
    assert Play(START, [press]) == Step(START, press);
    var pressed := Step(START, press);
    assert ClampPoint(press.at) == Point(0.5, 0.5);
    assert pressed.live.marks == [Rectangle("mark-1", "#4c8dff", 0.5, 0.5, 0.0, 0.0)];
    var s := Play(START, es);
    assert s == Step(pressed, clear);
    assert s.live.undo[0] == pressed.live.marks && !Good(s.live.undo[0][0]);
    assert FreshRun(START, [press]) && FreshRun(START, es);
  }
}
