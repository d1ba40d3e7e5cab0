/** The annotation editor on values: live marks, undo and redo stacks of
    snapshots, drag gestures and the saved draft of every image that is not
    being shown. `Editor` holds the same state in mutable objects. */
module Annotations {
  import opened Common
  import opened Marks

  datatype Kind = PinKind | TextKind | RectangleKind | ArrowKind | StrokeKind

  function KindOf(m: Mark): Kind {
    match m
    case Pin(_, _, _, _) => PinKind
    case Text(_, _, _, _, _) => TextKind
    case Rectangle(_, _, _, _, _, _) => RectangleKind
    case Arrow(_, _, _, _, _, _) => ArrowKind
    case Stroke(_, _, _, _) => StrokeKind
  }

  datatype Label = Label(point: Point, text: string)

  datatype Draft = Draft(marks: seq<Mark>, body: string, undo: seq<seq<Mark>>, redo: seq<seq<Mark>>,
                         zoom: real, pendingLabel: Option<Label>)

  const EMPTY := Draft([], "", [], [], 1.0, None)

  datatype DragKind = Drawing | Moving | Resizing

  datatype Gesture = Idle | Panning | Dragging(kind: DragKind, id: Id, start: Point, before: seq<Mark>)

  /** `kinds` records every mark id handed out so far, and for what. */
  datatype State = State(key: Option<string>, live: Draft, drafts: map<string, Draft>,
                         gesture: Gesture, kinds: map<Id, Kind>)

  datatype Tool = RectangleTool | ArrowTool | FreehandTool | HighlightTool

  datatype Event =
    | Draw(tool: Tool, id: Id, color: string, at: Point)
    | Grab(id: Id, at: Point)
    | PlacePin(id: Id, color: string, at: Point)
    | AddText(id: Id, color: string, at: Point, text: string)
    | Drag(at: Point)
    | Drop
    | Cancel
    | Nudge(id: Id, dx: real, dy: real)
    | Delete(id: Id)
    | Recolor(id: Id, color: string)
    | Clear
    | Undo
    | Redo
    | SetBody(text: string)
    | SetZoom(value: real)
    | SetLabel(pendingLabel: Option<Label>)
    | Switch(key: string)
    | Reset
    | Saved(key: string)
    | Pan
    | NewCanvas

  // ----- finding marks -----

  function IndexById(marks: seq<Mark>, id: Id): (i: nat)
    ensures i <= |marks| && (i < |marks| ==> marks[i].id == id)
    ensures forall j :: 0 <= j < i ==> marks[j].id != id
  {
    if marks == [] || marks[0].id == id then 0 else 1 + IndexById(marks[1..], id)
  }

  function IndexOfPin(marks: seq<Mark>): (i: nat)
    ensures i <= |marks| && (i < |marks| ==> marks[i].Pin?)
    ensures forall j :: 0 <= j < i ==> !marks[j].Pin?
  {
    if marks == [] || marks[0].Pin? then 0 else 1 + IndexOfPin(marks[1..])
  }

  function Without(marks: seq<Mark>, id: Id): seq<Mark> {
    if marks == [] then [] else (if marks[0].id != id then [marks[0]] else []) + Without(marks[1..], id)
  }

  function Substitute(marks: seq<Mark>, id: Id, m: Mark): (r: seq<Mark>)
    ensures |r| == |marks| && forall i :: 0 <= i < |r| ==> r[i] == if marks[i].id == id then m else marks[i]
  {
    seq(|marks|, i requires 0 <= i < |marks| => if marks[i].id == id then m else marks[i])
  }

  function Recolored(marks: seq<Mark>, id: Id, color: string): (r: seq<Mark>)
    ensures |r| == |marks|
    ensures forall i :: 0 <= i < |r| ==> r[i] == if marks[i].id == id then marks[i].(color := color) else marks[i]
  {
    seq(|marks|, i requires 0 <= i < |marks| => if marks[i].id == id then marks[i].(color := color) else marks[i])
  }

  // ----- history -----

  function Commit(d: Draft, next: seq<Mark>): Draft {
    d.(undo := d.undo + [d.marks], marks := next, redo := [])
  }

  function Undone(d: Draft): Draft {
    if d.undo == [] then d
    else d.(redo := d.redo + [d.marks], marks := d.undo[|d.undo| - 1], undo := d.undo[..|d.undo| - 1])
  }

  function Redone(d: Draft): Draft {
    if d.redo == [] then d
    else d.(undo := d.undo + [d.marks], marks := d.redo[|d.redo| - 1], redo := d.redo[..|d.redo| - 1])
  }

  // ----- gestures -----

  function NewMark(tool: Tool, id: Id, color: string, p: Point): Mark {
    match tool
    case RectangleTool => Rectangle(id, color, p.x, p.y, 0.0, 0.0)
    case ArrowTool => Arrow(id, color, p.x, p.y, p.x, p.y)
    case FreehandTool => Stroke(id, color, false, [p])
    case HighlightTool => Stroke(id, color, true, [p])
  }

  function Resized(m: Mark, p: Point): Mark {
    if m.Rectangle? then m.(width := Max(0.002, Clamp01(p.x - m.x)), height := Max(0.002, Clamp01(p.y - m.y))) else m
  }

  function Extended(m: Mark, start: Point, p: Point): Mark {
    match m
    case Rectangle(id, c, _, _, _, _) =>
      Rectangle(id, c, Min(start.x, p.x), Min(start.y, p.y), Abs(p.x - start.x), Abs(p.y - start.y))
    case Arrow(id, c, x1, y1, _, _) => Arrow(id, c, x1, y1, p.x, p.y)
    case Stroke(id, c, h, ps) => if |ps| < 256 then Stroke(id, c, h, ps + [p]) else m
    case Pin(_, _, _, _) => m
    case Text(_, _, _, _, _) => m
  }

  /** The dragged mark for position `p`: moving and resizing start over
      from the mark as it was when grabbed, drawing goes on from its current value. */
  function Pulled(kind: DragKind, original: Mark, m: Mark, start: Point, p: Point): Mark {
    if kind == Moving then MovedBy(original, Point(p.x - start.x, p.y - start.y))
    else if kind == Resizing then Resized(original, p)
    else Extended(m, start, p)
  }

  function MovedBy(m: Mark, d: Point): Mark {
    if HasPoints(m) then Translate(m, d.x, d.y) else m
  }

  /** The grabbed mark before the gesture, if it was there. */
  function Original(g: Gesture, m: Mark): Mark
    requires g.Dragging?
  {
    var j := IndexById(g.before, g.id);
    if j < |g.before| then g.before[j] else m
  }

  function DraggedMark(g: Gesture, m: Mark, p: Point): Mark
    requires g.Dragging?
  {
    Pulled(g.kind, Original(g, m), m, g.start, p)
  }

  function Dragged(d: Draft, g: Gesture, p: Point): Draft {
    if !g.Dragging? then d
    else
      var i := IndexById(d.marks, g.id);
      if i == |d.marks| then d else d.(marks := d.marks[i := DraggedMark(g, d.marks[i], p)])
  }

  /** A drawn mark too small to keep. */
  predicate TooSmall(m: Mark) {
    match m
    case Rectangle(_, _, _, _, w, h) => w < 0.004 || h < 0.004
    case Arrow(_, _, x1, y1, x2, y2) => Abs(x2 - x1) < 0.004 && Abs(y2 - y1) < 0.004
    case Stroke(_, _, _, ps) => |ps| < 2
    case Pin(_, _, _, _) => false
    case Text(_, _, _, _, _) => false
  }

  function Dropped(d: Draft, g: Gesture): Draft {
    if !g.Dragging? then d
    else if g.kind == Drawing then
      var i := IndexById(d.marks, g.id);
      if i == |d.marks| || TooSmall(d.marks[i]) then d.(marks := g.before)
      else d.(undo := d.undo + [g.before], redo := [])
    else if g.before != d.marks then d.(undo := d.undo + [g.before], redo := [])
    else d
  }

  /** An arrow key moves the mark called `id`. */
  function Nudged(d: Draft, id: Id, dx: real, dy: real): Draft {
    var i := IndexById(d.marks, id);
    if i == |d.marks| || !HasPoints(d.marks[i]) then d
    else Commit(d, d.marks[i := Translate(d.marks[i], dx, dy)])
  }

  function GrabKind(m: Mark, p: Point): DragKind {
    if m.Rectangle? && Abs(p.x - (m.x + m.width)) < 0.025 && Abs(p.y - (m.y + m.height)) < 0.025
    then Resizing else Moving
  }

  // ----- images -----

  function Opened(d: Draft): Draft {
    if d.zoom == 0.0 then d.(zoom := 1.0) else d
  }

  /** Saves the shown image's draft and shows another image's. The entry of the
      image being shown is dropped: it is rewritten before it is read again. */
  function SwitchTo(s: State, key: string): State {
    if s.key == Some(key) then s
    else
      var drafts := if s.key.Some? then s.drafts[s.key.value := s.live] else s.drafts;
      s.(key := Some(key), live := if key in drafts then Opened(drafts[key]) else EMPTY, drafts := drafts - {key})
  }

  function ResetDraft(s: State): State {
    s.(live := s.live.(marks := [], body := "", undo := [], redo := [], pendingLabel := None),
       drafts := if s.key.Some? then s.drafts - {s.key.value} else s.drafts)
  }

  function Step(s: State, e: Event): State {
    match e
    case Draw(tool, id, color, at) =>
      var p := ClampPoint(at);
      var m := NewMark(tool, id, color, p);
      s.(live := s.live.(marks := s.live.marks + [m]), gesture := Dragging(Drawing, id, p, s.live.marks),
         kinds := s.kinds[id := KindOf(m)])
    case Grab(id, at) =>
      var p := ClampPoint(at);
      var i := IndexById(s.live.marks, id);
      if i == |s.live.marks| then s
      else s.(gesture := Dragging(GrabKind(s.live.marks[i], p), id, p, s.live.marks))
    case PlacePin(id, color, at) =>
      var p := ClampPoint(at);
      var i := IndexOfPin(s.live.marks);
      if i < |s.live.marks| then
        var pin := Pin(s.live.marks[i].id, color, p.x, p.y);
        s.(live := Commit(s.live, Substitute(s.live.marks, pin.id, pin)))
      else
        s.(live := Commit(s.live, s.live.marks + [Pin(id, color, p.x, p.y)]), kinds := s.kinds[id := PinKind])
    case AddText(id, color, at, text) =>
      var p := ClampPoint(at);
      s.(live := Commit(s.live, s.live.marks + [Text(id, color, p.x, p.y, text)]).(pendingLabel := None),
         kinds := s.kinds[id := TextKind])
    case Drag(at) => s.(live := Dragged(s.live, s.gesture, ClampPoint(at)))
    case Drop => s.(live := Dropped(s.live, s.gesture), gesture := Idle)
    case Cancel =>
      s.(live := if s.gesture.Dragging? then s.live.(marks := s.gesture.before) else s.live, gesture := Idle)
    case Nudge(id, dx, dy) => s.(live := Nudged(s.live, id, dx, dy))
    case Delete(id) => s.(live := Commit(s.live, Without(s.live.marks, id)))
    case Recolor(id, color) => s.(live := Commit(s.live, Recolored(s.live.marks, id, color)))
    case Clear => if s.live.marks == [] then s else s.(live := Commit(s.live, []))
    case Undo => s.(live := Undone(s.live))
    case Redo => s.(live := Redone(s.live))
    case SetBody(text) => s.(live := s.live.(body := text))
    case SetZoom(value) => s.(live := s.live.(zoom := Max(0.5, Min(4.0, value))))
    case SetLabel(pendingLabel) => s.(live := s.live.(pendingLabel := pendingLabel))
    case Switch(key) => SwitchTo(s, key)
    case Reset => ResetDraft(s)
    case Saved(key) => if s.key == Some(key) then ResetDraft(s) else s.(drafts := s.drafts - {key})
    case Pan => s.(gesture := Panning)
    case NewCanvas => s.(gesture := Idle)
  }

  function Play(s: State, es: seq<Event>): State {
    if es == [] then s else Step(Play(s, es[..|es| - 1]), es[|es| - 1])
  }

  const START := State(None, EMPTY, map[], Idle, map[])
}
