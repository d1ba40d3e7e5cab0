/** What the mouse and the keys do to the drawing, said with the mouse's own
    positions: where a dragged mark goes, how a corner follows, which shape is drawn,
    and that every change can be undone. */
module AnnotationGestures {
  import opened Common
  import opened Marks
  import opened Annotations

  function Drags(ds: seq<Point>): (es: seq<Event>)
    ensures |es| == |ds| && forall i :: 0 <= i < |ds| ==> es[i] == Drag(ds[i])
  {
    seq(|ds|, i requires 0 <= i < |ds| => Drag(ds[i]))
  }

  lemma {:induction false} DragsNext(s: State, ds: seq<Point>)
    requires ds != []
    ensures Play(s, Drags(ds)) == Step(Play(s, Drags(ds[..|ds| - 1])), Drag(ds[|ds| - 1]))
  {
    assert Drags(ds)[..|ds| - 1] == Drags(ds[..|ds| - 1]);
  }

  lemma {:induction false} FirstIndex(marks: seq<Mark>, id: Id, i: nat)
    requires i < |marks| && marks[i].id == id && forall j :: 0 <= j < i ==> marks[j].id != id
    ensures IndexById(marks, id) == i
  {
  }

  /** The mark called `id`, first in the list, is number `i`. */
  ghost predicate At(marks: seq<Mark>, id: Id, i: nat) {
    i < |marks| && marks[i].id == id && forall j :: 0 <= j < i ==> marks[j].id != id
  }

  // ----- moving and resizing -----

  lemma {:induction false} PulledKeepsId(kind: DragKind, original: Mark, m: Mark, start: Point, p: Point)
    requires kind != Drawing
    ensures Pulled(kind, original, m, start, p).id == original.id
  {
    if kind == Moving && HasPoints(original) { TranslateKeeps(original, p.x - start.x, p.y - start.y); }
  }

  /** One mouse move: the grabbed mark is recomputed from where it was when grabbed, and no other mark changes. */
  lemma {:induction false} DragStep(s: State, t: State, i: nat, x: Mark, at: Point)
    requires s.gesture.Dragging? && s.gesture.kind != Drawing && s.gesture.before == s.live.marks
    requires At(s.live.marks, s.gesture.id, i) && x.id == s.gesture.id
    requires t == s.(live := s.live.(marks := s.live.marks[i := x]))
    ensures var y := Pulled(s.gesture.kind, s.live.marks[i], x, s.gesture.start, ClampPoint(at));
            y.id == s.gesture.id && Step(t, Drag(at)) == s.(live := s.live.(marks := s.live.marks[i := y]))
  {
    var g := s.gesture;
    FirstIndex(s.live.marks, g.id, i);
    FirstIndex(t.live.marks, g.id, i);
    PulledKeepsId(g.kind, s.live.marks[i], x, g.start, ClampPoint(at));
    var y := Pulled(g.kind, s.live.marks[i], x, g.start, ClampPoint(at));
    assert t.live.marks[i := y] == s.live.marks[i := y];
  }

  lemma {:induction false} DragsStep(s: State, ds: seq<Point>, i: nat) returns (x: Mark)
    requires s.gesture.Dragging? && s.gesture.kind != Drawing && s.gesture.before == s.live.marks
    requires At(s.live.marks, s.gesture.id, i)
    ensures x.id == s.gesture.id && Play(s, Drags(ds)) == s.(live := s.live.(marks := s.live.marks[i := x]))
  {
    if ds == [] {
      x := s.live.marks[i];
      assert s.live.marks[i := x] == s.live.marks;
    } else {
      var n := |ds| - 1;
      x := DragsStep(s, ds[..n], i);
      DragsNext(s, ds);
      DragStep(s, Play(s, Drags(ds[..n])), i, x, ds[n]);
      x := Pulled(s.gesture.kind, s.live.marks[i], x, s.gesture.start, ClampPoint(ds[n]));
    }
  }

  /** The mouse is at the lower right corner of a rectangle. */
  predicate AtCorner(m: Mark, p: Point) {
    && m.Rectangle?
    && -0.025 < p.x - (m.x + m.width) < 0.025 && -0.025 < p.y - (m.y + m.height) < 0.025
  }

  /** The state of a gesture that began with a grab at `a`, went anywhere and is now at `b`. */
  function Held(s: State, id: Id, a: Point, ds: seq<Point>, b: Point): State {
    Step(Play(Step(s, Grab(id, a)), Drags(ds)), Drag(b))
  }

  lemma {:induction false} HeldIs(s: State, id: Id, a: Point, ds: seq<Point>, b: Point, i: nat, kind: DragKind)
    returns (x: Mark)
    requires At(s.live.marks, id, i) && kind == (if AtCorner(s.live.marks[i], ClampPoint(a)) then Resizing else Moving)
    ensures var y := Pulled(kind, s.live.marks[i], x, ClampPoint(a), ClampPoint(b));
            && Held(s, id, a, ds, b).live == s.live.(marks := s.live.marks[i := y])
            && Held(s, id, a, ds, b).gesture == Dragging(kind, id, ClampPoint(a), s.live.marks)
  {
    var g := Step(s, Grab(id, a));
    FirstIndex(s.live.marks, id, i);
    assert g == s.(gesture := Dragging(kind, id, ClampPoint(a), s.live.marks));
    x := DragsStep(g, ds, i);
    DragStep(g, Play(g, Drags(ds)), i, x, b);
  }

  lemma {:induction false} PulledIs(m: Mark, x: Mark, p: Point, q: Point)
    requires HasPoints(m)
    ensures Pulled(Moving, m, x, p, q) == Translate(m, q.x - p.x, q.y - p.y)
  {
  }

  lemma {:induction false} PulledLands(m: Mark, x: Mark, p: Point, q: Point, y: Mark)
    requires Inside(m) && y == Pulled(Moving, m, x, p, q)
    ensures Lands(m, q.x - p.x, q.y - p.y, y)
  {
    PulledIs(m, x, p, q);
    TranslateLands(m, q.x - p.x, q.y - p.y, y);
  }

  lemma {:induction false} HeldMoves(s: State, id: Id, a: Point, ds: seq<Point>, b: Point, i: nat)
    returns (x: Mark, y: Mark)
    requires At(s.live.marks, id, i) && !AtCorner(s.live.marks[i], ClampPoint(a))
    ensures y == Pulled(Moving, s.live.marks[i], x, ClampPoint(a), ClampPoint(b))
    ensures Held(s, id, a, ds, b).live == s.live.(marks := s.live.marks[i := y])
  {
    x := HeldIs(s, id, a, ds, b, i, Moving);
    y := Pulled(Moving, s.live.marks[i], x, ClampPoint(a), ClampPoint(b));
  }

  /** A mark that is grabbed away from its corner and dragged anywhere and then to `b` has gone by the way from `a` to
      `b`, or up to the edge it would cross. No other mark has changed, and the history is as it was. */
  lemma {:induction false} MoveFollows(s: State, id: Id, a: Point, ds: seq<Point>, b: Point, i: nat) returns (y: Mark)
    requires At(s.live.marks, id, i) && Inside(s.live.marks[i]) && !AtCorner(s.live.marks[i], ClampPoint(a))
    ensures Held(s, id, a, ds, b).live == s.live.(marks := s.live.marks[i := y])
    ensures Lands(s.live.marks[i], ClampPoint(b).x - ClampPoint(a).x, ClampPoint(b).y - ClampPoint(a).y, y)
  {
    var x;
    x, y := HeldMoves(s, id, a, ds, b, i);
    PulledLands(s.live.marks[i], x, ClampPoint(a), ClampPoint(b), y);
  }

  /** A rectangle grabbed at its lower right corner keeps its upper left one, and the grabbed corner is at the mouse,
      or a minimal width or height away. */
  lemma {:induction false} ResizeFollows(s: State, id: Id, a: Point, ds: seq<Point>, b: Point, i: nat)
    requires At(s.live.marks, id, i) && Inside(s.live.marks[i]) && AtCorner(s.live.marks[i], ClampPoint(a))
    ensures var m, q := s.live.marks[i], ClampPoint(b);
            var w := if q.x - m.x < 0.002 then 0.002 else q.x - m.x;
            var h := if q.y - m.y < 0.002 then 0.002 else q.y - m.y;
            Held(s, id, a, ds, b).live ==
            s.live.(marks := s.live.marks[i := Rectangle(id, m.color, m.x, m.y, w, h)])
  {
    var x := HeldIs(s, id, a, ds, b, i, Resizing);
  }

  /** However the gesture went: cancelling it gives back the drawing, and dropping it records the drawing before the
      grab, so that undoing gives that back, unless nothing changed. */
  lemma {:induction false} GrabUndoes(s: State, id: Id, a: Point, ds: seq<Point>, b: Point, i: nat)
    requires At(s.live.marks, id, i)
    ensures var t := Held(s, id, a, ds, b); var u := Step(t, Drop);
            && Step(t, Cancel).live == s.live && u.live.marks == t.live.marks && u.gesture == Idle
            && (t.live.marks == s.live.marks ==> u.live == s.live)
            && (t.live.marks != s.live.marks ==>
                  && u.live.undo == s.live.undo + [s.live.marks] && u.live.redo == []
                  && Step(u, Undo).live == s.live.(redo := [t.live.marks]))
  {
    var kind := if AtCorner(s.live.marks[i], ClampPoint(a)) then Resizing else Moving;
    var x := HeldIs(s, id, a, ds, b, i, kind);
    HeldEnds(s, Held(s, id, a, ds, b), Held(s, id, a, ds, b).live.marks);
  }

  lemma {:induction false} HeldEnds(s: State, t: State, after: seq<Mark>)
    requires t.live == s.live.(marks := after) && t.gesture.Dragging? && t.gesture.kind != Drawing
    requires t.gesture.before == s.live.marks
    ensures var u := Step(t, Drop);
            && Step(t, Cancel).live == s.live && u.live.marks == after && u.gesture == Idle
            && (after == s.live.marks ==> u.live == s.live)
            && (after != s.live.marks ==>
                  && u.live.undo == s.live.undo + [s.live.marks] && u.live.redo == []
                  && Step(u, Undo).live == s.live.(redo := [after]))
  {
    var undo := s.live.undo + [s.live.marks];
    assert undo[..|undo| - 1] == s.live.undo;
  }

  // ----- drawing -----

  /** The shape drawn through the points: from the first to the last, or along all of the first 256. */
  ghost function Shape(tool: Tool, id: Id, color: string, ps: seq<Point>): Mark
    requires ps != []
  {
    var a, b := ps[0], ps[|ps| - 1];
    match tool
    case RectangleTool =>
      Rectangle(id, color, if a.x <= b.x then a.x else b.x, if a.y <= b.y then a.y else b.y,
                if a.x <= b.x then b.x - a.x else a.x - b.x, if a.y <= b.y then b.y - a.y else a.y - b.y)
    case ArrowTool => Arrow(id, color, a.x, a.y, b.x, b.y)
    case FreehandTool => Stroke(id, color, false, if |ps| <= 256 then ps else ps[..256])
    case HighlightTool => Stroke(id, color, true, if |ps| <= 256 then ps else ps[..256])
  }

  ghost function Clamped(ps: seq<Point>): (r: seq<Point>)
    ensures |r| == |ps| && forall i :: 0 <= i < |ps| ==> r[i] == ClampPoint(ps[i])
  {
    seq(|ps|, i requires 0 <= i < |ps| => ClampPoint(ps[i]))
  }

  lemma {:induction false} ClampedNext(a: Point, ds: seq<Point>)
    requires ds != []
    ensures Clamped([a] + ds) == Clamped([a] + ds[..|ds| - 1]) + [ClampPoint(ds[|ds| - 1])]
  {
    assert [a] + ds == ([a] + ds[..|ds| - 1]) + [ds[|ds| - 1]];
  }

  lemma {:induction false} ShapeStart(tool: Tool, id: Id, color: string, p: Point)
    ensures Shape(tool, id, color, [p]) == NewMark(tool, id, color, p)
  {
  }

  lemma {:induction false} ShapeExtends(tool: Tool, id: Id, color: string, ps: seq<Point>, p: Point)
    requires ps != []
    ensures Extended(Shape(tool, id, color, ps), ps[0], p) == Shape(tool, id, color, ps + [p])
  {
    var more := ps + [p];
    assert more[0] == ps[0] && more[|more| - 1] == p;
    if |ps| <= 256 { assert |ps| < 256 || more[..256] == ps; } else { assert more[..256] == ps[..256]; }
  }

  function Drawn(s: State, tool: Tool, id: Id, color: string, a: Point, ds: seq<Point>): State {
    Play(Step(s, Draw(tool, id, color, a)), Drags(ds))
  }

  /** While a mark is drawn, the drawing is the one before with the shape through the mouse's positions. */
  lemma {:induction false} DrawFollows(s: State, tool: Tool, id: Id, color: string, a: Point, ds: seq<Point>,
                                       ps: seq<Point>)
    requires forall j :: 0 <= j < |s.live.marks| ==> s.live.marks[j].id != id
    requires ps == Clamped([a] + ds)
    ensures var t := Drawn(s, tool, id, color, a, ds);
            && t.live == s.live.(marks := s.live.marks + [Shape(tool, id, color, ps)])
            && t.gesture == Dragging(Drawing, id, ClampPoint(a), s.live.marks)
  {
    var begun := Step(s, Draw(tool, id, color, a));
    if ds == [] {
      assert ps == [ClampPoint(a)] && Drags(ds) == [];
      ShapeStart(tool, id, color, ClampPoint(a));
    } else {
      var n := |ds| - 1;
      var front := Clamped([a] + ds[..n]);
      assert front[0] == ClampPoint(a);
      DrawFollows(s, tool, id, color, a, ds[..n], front);
      DragsNext(begun, ds);
      DrawStep(s, Play(begun, Drags(ds[..n])), tool, id, color, front, ds[n]);
      ClampedNext(a, ds);
    }
  }

  lemma {:induction false} DrawStep(s: State, t: State, tool: Tool, id: Id, color: string, ps: seq<Point>, at: Point)
    requires ps != [] && forall j :: 0 <= j < |s.live.marks| ==> s.live.marks[j].id != id
    requires t.live == s.live.(marks := s.live.marks + [Shape(tool, id, color, ps)])
    requires t.gesture == Dragging(Drawing, id, ps[0], s.live.marks)
    ensures var u := Step(t, Drag(at));
            && u.live == s.live.(marks := s.live.marks + [Shape(tool, id, color, ps + [ClampPoint(at)])])
            && u.gesture == t.gesture
  {
    var n := |s.live.marks|;
    FirstIndex(t.live.marks, id, n);
    ShapeExtends(tool, id, color, ps, ClampPoint(at));
    var y := Shape(tool, id, color, ps + [ClampPoint(at)]);
    assert (s.live.marks + [Shape(tool, id, color, ps)])[n := y] == s.live.marks + [y];
  }

  /** Large enough to keep: both sides of a rectangle, one way of an arrow, two points of a stroke. */
  predicate WorthKeeping(m: Mark) {
    match m
    case Rectangle(_, _, _, _, w, h) => w >= 0.004 && h >= 0.004
    case Arrow(_, _, x1, y1, x2, y2) =>
      x2 - x1 >= 0.004 || x1 - x2 >= 0.004 || y2 - y1 >= 0.004 || y1 - y2 >= 0.004
    case Stroke(_, _, _, ps) => |ps| >= 2
    case Pin(_, _, _, _) => true
    case Text(_, _, _, _, _) => true
  }

  /** When the mouse is released the shape is kept, and can be undone, if and only if it is worth keeping; otherwise
      the drawing and its history are as they were. Cancelling gives back the drawing in any case. */
  lemma {:induction false} DrawEnds(s: State, tool: Tool, id: Id, color: string, a: Point, ds: seq<Point>)
    requires forall j :: 0 <= j < |s.live.marks| ==> s.live.marks[j].id != id
    ensures var t := Drawn(s, tool, id, color, a, ds);
            var u, m := Step(t, Drop), Shape(tool, id, color, Clamped([a] + ds));
            && Step(t, Cancel).live == s.live && u.gesture == Idle
            && (!WorthKeeping(m) ==> u.live == s.live)
            && (WorthKeeping(m) ==>
                  && u.live == s.live.(marks := s.live.marks + [m], undo := s.live.undo + [s.live.marks], redo := [])
                  && Step(u, Undo).live == s.live.(redo := [u.live.marks]))
  {
    DrawFollows(s, tool, id, color, a, ds, Clamped([a] + ds));
    DrawnEnds(s, Drawn(s, tool, id, color, a, ds), id, Shape(tool, id, color, Clamped([a] + ds)));
  }

  lemma {:induction false} TooSmallIs(m: Mark)
    ensures TooSmall(m) <==> !WorthKeeping(m)
  {
  }

  lemma {:induction false} DrawnEnds(s: State, t: State, id: Id, m: Mark)
    requires m.id == id && forall j :: 0 <= j < |s.live.marks| ==> s.live.marks[j].id != id
    requires t.live == s.live.(marks := s.live.marks + [m])
    requires t.gesture.Dragging? && t.gesture == Dragging(Drawing, id, t.gesture.start, s.live.marks)
    ensures var u := Step(t, Drop);
            && Step(t, Cancel).live == s.live && u.gesture == Idle
            && (!WorthKeeping(m) ==> u.live == s.live)
            && (WorthKeeping(m) ==>
                  && u.live == s.live.(marks := s.live.marks + [m], undo := s.live.undo + [s.live.marks], redo := [])
                  && Step(u, Undo).live == s.live.(redo := [u.live.marks]))
  {
    FirstIndex(t.live.marks, id, |s.live.marks|);
    TooSmallIs(m);
    var undo := s.live.undo + [s.live.marks];
    assert undo[..|undo| - 1] == s.live.undo;
  }

  // ----- commands -----

  /** The event replaces the drawing as a command. */
  ghost predicate Edits(s: State, e: Event) {
    match e
    case PlacePin(_, _, _) => true
    case AddText(_, _, _, _) => true
    case Delete(_) => true
    case Recolor(_, _) => true
    case Clear => s.live.marks != []
    case Nudge(id, _, _) => exists i: nat :: At(s.live.marks, id, i) && HasPoints(s.live.marks[i])
    case _ => false
  }

  /** Every command can be undone and redone: undoing gives back the drawing and its history, redoing the result. */
  lemma {:induction false} EditUndoes(s: State, e: Event)
    requires Edits(s, e)
    ensures var t := Step(s, e); var u := Step(t, Undo);
            && t.live.undo == s.live.undo + [s.live.marks] && t.live.redo == []
            && u.live.marks == s.live.marks && u.live.undo == s.live.undo && u.live.redo == [t.live.marks]
            && Step(u, Redo).live == t.live
  {
    if e.Nudge? {
      var i: nat :| At(s.live.marks, e.id, i) && HasPoints(s.live.marks[i]);
      FirstIndex(s.live.marks, e.id, i);
    }
    var t := Step(s, e);
    assert t.live.undo == s.live.undo + [s.live.marks] && t.live.redo == [];
    TopUndoes(s, t);
  }

  lemma {:induction false} TopUndoes(s: State, t: State)
    requires t.live.undo == s.live.undo + [s.live.marks] && t.live.redo == []
    ensures var u := Step(t, Undo);
            && u.live.marks == s.live.marks && u.live.undo == s.live.undo && u.live.redo == [t.live.marks]
            && Step(u, Redo).live == t.live
  {
    assert t.live.undo[..|t.live.undo| - 1] == s.live.undo;
  }

  /** What each command leaves, when ids are distinct. */
  ghost predicate Result(marks: seq<Mark>, e: Event, after: seq<Mark>) {
    match e
    case PlacePin(id, color, at) =>
      var p := ClampPoint(at);
      if exists i :: 0 <= i < |marks| && marks[i].Pin? then
        && |after| == |marks|
        && (forall i :: 0 <= i < |marks| ==>
              after[i] == if marks[i].Pin? then Pin(marks[i].id, color, p.x, p.y) else marks[i])
      else after == marks + [Pin(id, color, p.x, p.y)]
    case AddText(id, color, at, text) => after == marks + [Text(id, color, ClampPoint(at).x, ClampPoint(at).y, text)]
    case Delete(id) =>
      if exists i :: 0 <= i < |marks| && marks[i].id == id then
        exists i :: 0 <= i < |marks| && marks[i].id == id && after == marks[..i] + marks[i + 1..]
      else after == marks
    case Recolor(id, color) =>
      && |after| == |marks|
      && (forall i :: 0 <= i < |marks| ==>
            after[i] == if marks[i].id == id then marks[i].(color := color) else marks[i])
    case Clear => after == []
    case _ => true
  }

  ghost predicate Apart(marks: seq<Mark>) {
    && (forall i, j :: 0 <= i < j < |marks| ==> marks[i].id != marks[j].id)
    && (forall i, j :: 0 <= i < j < |marks| ==> !(marks[i].Pin? && marks[j].Pin?))
  }

  lemma {:induction false} WithoutNone(marks: seq<Mark>, id: Id)
    requires forall i :: 0 <= i < |marks| ==> marks[i].id != id
    ensures Without(marks, id) == marks
  {
    if marks != [] { WithoutNone(marks[1..], id); }
  }

  lemma {:induction false} WithoutOne(marks: seq<Mark>, id: Id, i: nat)
    requires i < |marks| && marks[i].id == id && forall j :: 0 <= j < |marks| && j != i ==> marks[j].id != id
    ensures Without(marks, id) == marks[..i] + marks[i + 1..]
  {
    if i == 0 {
      WithoutNone(marks[1..], id);
    } else {
      WithoutOne(marks[1..], id, i - 1);
      assert marks[1..][..i - 1] == marks[1..i] && marks[1..][i..] == marks[i + 1..];
    }
  }

  lemma {:induction false} PinPlaced(s: State, e: Event)
    requires e.PlacePin? && Apart(s.live.marks)
    ensures Result(s.live.marks, e, Step(s, e).live.marks)
  {
    var marks, i := s.live.marks, IndexOfPin(s.live.marks);
    if i < |marks| {
      forall j | 0 <= j < |marks| ensures marks[j].id == marks[i].id <==> marks[j].Pin? {
        if j < i { assert marks[j].id != marks[i].id; } else if i < j { assert marks[i].id != marks[j].id; }
      }
    }
  }

  lemma {:induction false} EditMeans(s: State, e: Event)
    requires Edits(s, e) && Apart(s.live.marks)
    ensures Result(s.live.marks, e, Step(s, e).live.marks)
  {
    match e
    case PlacePin(_, _, _) => PinPlaced(s, e);
    case Delete(id) =>
      if i :| 0 <= i < |s.live.marks| && s.live.marks[i].id == id {
        WithoutOne(s.live.marks, id, i);
      } else {
        WithoutNone(s.live.marks, id);
      }
    case _ =>
  }

  /** An arrow key moves the mark by the given amount, or up to the edge, and no other mark. */
  lemma {:induction false} NudgeMeans(s: State, id: Id, dx: real, dy: real, i: nat) returns (y: Mark)
    requires At(s.live.marks, id, i) && Inside(s.live.marks[i])
    ensures Step(s, Nudge(id, dx, dy)).live.marks == s.live.marks[i := y] && Lands(s.live.marks[i], dx, dy, y)
  {
    y := NudgeIs(s, id, dx, dy, i);
    TranslateLands(s.live.marks[i], dx, dy, y);
  }

  lemma {:induction false} NudgeIs(s: State, id: Id, dx: real, dy: real, i: nat) returns (y: Mark)
    requires At(s.live.marks, id, i) && HasPoints(s.live.marks[i])
    ensures y == Translate(s.live.marks[i], dx, dy)
    ensures Step(s, Nudge(id, dx, dy)).live.marks == s.live.marks[i := y]
  {
    FirstIndex(s.live.marks, id, i);
    y := Translate(s.live.marks[i], dx, dy);
  }

  // ----- what is typed and set beside the marks -----

  predicate KeepsBody(e: Event) {
    !(e.SetBody? || e.Switch? || e.Reset? || e.Saved?)
  }

  predicate KeepsZoom(e: Event) {
    !(e.SetZoom? || e.Switch?)
  }

  predicate KeepsLabel(e: Event) {
    !(e.SetLabel? || e.AddText? || e.Switch? || e.Reset? || e.Saved?)
  }

  lemma {:induction false} StepKeeps(s: State, e: Event)
    ensures KeepsBody(e) ==> Step(s, e).live.body == s.live.body
    ensures KeepsZoom(e) ==> Step(s, e).live.zoom == s.live.zoom
    ensures KeepsLabel(e) ==> Step(s, e).live.pendingLabel == s.live.pendingLabel
  {
  }

  /** Over every run: what was last typed for an image stays its text through all drawing, undoing and redoing, and so
      do the zoom last set, within its range, and the label being written. */
  lemma {:induction false} SetStays(s: State, es: seq<Event>, k: nat)
    requires k < |es|
    ensures es[k].SetBody? && (forall i :: k < i < |es| ==> KeepsBody(es[i])) ==> Play(s, es).live.body == es[k].text
    ensures es[k].SetLabel? && (forall i :: k < i < |es| ==> KeepsLabel(es[i])) ==>
              Play(s, es).live.pendingLabel == es[k].pendingLabel
    ensures es[k].SetZoom? && (forall i :: k < i < |es| ==> KeepsZoom(es[i])) ==>
              var zoom := Play(s, es).live.zoom;
              && (0.5 <= es[k].value <= 4.0 ==> zoom == es[k].value)
              && (es[k].value < 0.5 ==> zoom == 0.5) && (es[k].value > 4.0 ==> zoom == 4.0)
  {
    if k < |es| - 1 {
      SetStays(s, es[..|es| - 1], k);
      StepKeeps(Play(s, es[..|es| - 1]), es[|es| - 1]);
    }
  }

  // ----- drafts that are given up -----

  /** Once an image's feedback is saved, or the draft shown is reset, nothing of its draft is left, and every other
      image's draft is as it was. */
  lemma {:induction false} SavedIsForgotten(s: State, key: string)
    ensures var t := Step(s, Saved(key));
            && (s.key == Some(key) ==> t.live == EMPTY.(zoom := s.live.zoom) && t == Step(s, Reset))
            && (s.key != Some(key) ==> t.live == s.live && Step(t, Switch(key)).live == EMPTY)
            && key !in t.drafts && (forall k :: k != key ==> (k in t.drafts <==> k in s.drafts))
            && (forall k :: k != key && k in s.drafts ==> t.drafts[k] == s.drafts[k])
  {
  }
}
