/** Annotation marks over the unit square, with exact coordinates: bounding
    boxes, clamped translation, and what clamping does and does not change. */
module Marks {

  type Id = string

  datatype Point = Point(x: real, y: real)

  datatype Mark =
    | Pin(id: Id, color: string, x: real, y: real)
    | Text(id: Id, color: string, x: real, y: real, text: string)
    | Rectangle(id: Id, color: string, x: real, y: real, width: real, height: real)
    | Arrow(id: Id, color: string, x1: real, y1: real, x2: real, y2: real)
    | Stroke(id: Id, color: string, highlight: bool, points: seq<Point>)

  datatype Box = Box(x: real, y: real, width: real, height: real)

  function Min(a: real, b: real): real { if a < b then a else b }

  function Max(a: real, b: real): real { if a < b then b else a }

  function Abs(a: real): real { if a < 0.0 then -a else a }

  function Clamp01(v: real): real { Max(0.0, Min(1.0, v)) }

  function ClampPoint(p: Point): Point { Point(Clamp01(p.x), Clamp01(p.y)) }

  predicate Unit(v: real) { 0.0 <= v <= 1.0 }

  predicate UnitPoint(p: Point) { Unit(p.x) && Unit(p.y) }

  function LeastX(ps: seq<Point>): real
    requires ps != []
  {
    if |ps| == 1 then ps[0].x else Min(ps[0].x, LeastX(ps[1..]))
  }

  function LeastY(ps: seq<Point>): real
    requires ps != []
  {
    if |ps| == 1 then ps[0].y else Min(ps[0].y, LeastY(ps[1..]))
  }

  function GreatestX(ps: seq<Point>): real
    requires ps != []
  {
    if |ps| == 1 then ps[0].x else Max(ps[0].x, GreatestX(ps[1..]))
  }

  function GreatestY(ps: seq<Point>): real
    requires ps != []
  {
    if |ps| == 1 then ps[0].y else Max(ps[0].y, GreatestY(ps[1..]))
  }

  /** The extremes bound every point, and points in the unit square have extremes in it. */
  lemma {:induction false} Extremes(ps: seq<Point>)
    requires ps != []
    ensures forall i :: 0 <= i < |ps| ==>
              LeastX(ps) <= ps[i].x <= GreatestX(ps) && LeastY(ps) <= ps[i].y <= GreatestY(ps)
    ensures (forall i :: 0 <= i < |ps| ==> UnitPoint(ps[i])) ==>
              Unit(LeastX(ps)) && Unit(GreatestX(ps)) && Unit(LeastY(ps)) && Unit(GreatestY(ps))
  {
    if |ps| > 1 {
      Extremes(ps[1..]);
      assert forall i :: 0 < i < |ps| ==> ps[i] == ps[1..][i - 1];
    }
  }

  predicate HasPoints(m: Mark) {
    m.Stroke? ==> m.points != []
  }

  function Bounds(m: Mark): Box
    requires HasPoints(m)
  {
    match m
    case Pin(_, _, x, y) => Box(x, y, 0.02, 0.02)
    case Text(_, _, x, y, _) => Box(x, y, 0.02, 0.02)
    case Rectangle(_, _, x, y, w, h) => Box(x, y, w, h)
    case Arrow(_, _, x1, y1, x2, y2) => Box(Min(x1, x2), Min(y1, y2), Abs(x2 - x1), Abs(y2 - y1))
    case Stroke(_, _, _, ps) =>
      Box(LeastX(ps), LeastY(ps), GreatestX(ps) - LeastX(ps), GreatestY(ps) - LeastY(ps))
  }

  /** The wish `d` limited so that [at, at + size] stays within [0, 1]. */
  function Limit(at: real, size: real, d: real): real {
    Max(-at, Min(1.0 - at - size, d))
  }

  function Shift(m: Mark, dx: real, dy: real): Mark {
    match m
    case Pin(id, c, x, y) => Pin(id, c, Clamp01(x + dx), Clamp01(y + dy))
    case Text(id, c, x, y, t) => Text(id, c, Clamp01(x + dx), Clamp01(y + dy), t)
    case Rectangle(id, c, x, y, w, h) => Rectangle(id, c, Clamp01(x + dx), Clamp01(y + dy), w, h)
    case Arrow(id, c, x1, y1, x2, y2) =>
      Arrow(id, c, Clamp01(x1 + dx), Clamp01(y1 + dy), Clamp01(x2 + dx), Clamp01(y2 + dy))
    case Stroke(id, c, h, ps) =>
      Stroke(id, c, h, ShiftPoints(ps, dx, dy))
  }

  function ShiftPoints(ps: seq<Point>, dx: real, dy: real): (r: seq<Point>)
    ensures |r| == |ps| && forall i :: 0 <= i < |ps| ==> r[i] == Point(Clamp01(ps[i].x + dx), Clamp01(ps[i].y + dy))
  {
    if ps == [] then [] else [Point(Clamp01(ps[0].x + dx), Clamp01(ps[0].y + dy))] + ShiftPoints(ps[1..], dx, dy)
  }

  /** `translateEvidenceMark`. */
  function Translate(m: Mark, dx: real, dy: real): Mark
    requires HasPoints(m)
  {
    var b := Bounds(m);
    Shift(m, Limit(b.x, b.width, dx), Limit(b.y, b.height, dy))
  }

  /** The mark lies in the unit square. */
  ghost predicate Inside(m: Mark) {
    match m
    case Pin(_, _, x, y) => Unit(x) && Unit(y)
    case Text(_, _, x, y, _) => Unit(x) && Unit(y)
    case Rectangle(_, _, x, y, w, h) => 0.0 <= x && 0.0 <= y && 0.0 <= w && 0.0 <= h && x + w <= 1.0 && y + h <= 1.0
    case Arrow(_, _, x1, y1, x2, y2) => Unit(x1) && Unit(y1) && Unit(x2) && Unit(y2)
    case Stroke(_, _, _, ps) => ps != [] && forall i :: 0 <= i < |ps| ==> UnitPoint(ps[i])
  }

  /** The mark moved by exactly (dx, dy), nothing else changed. */
  ghost function Moved(m: Mark, dx: real, dy: real): Mark {
    match m
    case Pin(id, c, x, y) => Pin(id, c, x + dx, y + dy)
    case Text(id, c, x, y, t) => Text(id, c, x + dx, y + dy, t)
    case Rectangle(id, c, x, y, w, h) => Rectangle(id, c, x + dx, y + dy, w, h)
    case Arrow(id, c, x1, y1, x2, y2) => Arrow(id, c, x1 + dx, y1 + dy, x2 + dx, y2 + dy)
    case Stroke(id, c, h, ps) =>
      Stroke(id, c, h, MovePoints(ps, dx, dy))
  }

  ghost function MovePoints(ps: seq<Point>, dx: real, dy: real): (r: seq<Point>)
    ensures |r| == |ps| && forall i :: 0 <= i < |ps| ==> r[i] == Point(ps[i].x + dx, ps[i].y + dy)
  {
    if ps == [] then [] else [Point(ps[0].x + dx, ps[0].y + dy)] + MovePoints(ps[1..], dx, dy)
  }

  ghost predicate Spans(b: Box, x: real, y: real) {
    b.x <= x <= b.x + b.width && b.y <= y <= b.y + b.height
  }

  /** Every point the mark is drawn from lies in the box. */
  ghost predicate Contains(b: Box, m: Mark) {
    match m
    case Pin(_, _, x, y) => Spans(b, x, y)
    case Text(_, _, x, y, _) => Spans(b, x, y)
    case Rectangle(_, _, x, y, w, h) => Spans(b, x, y) && Spans(b, x + w, y + h)
    case Arrow(_, _, x1, y1, x2, y2) => Spans(b, x1, y1) && Spans(b, x2, y2)
    case Stroke(_, _, _, ps) => forall i :: 0 <= i < |ps| ==> Spans(b, ps[i].x, ps[i].y)
  }

  /** The box contains the mark; the box of an arrow, rectangle or stroke lies in the unit square. */
  lemma {:induction false} BoxFits(m: Mark)
    requires Inside(m)
    ensures Contains(Bounds(m), m)
    ensures !m.Pin? && !m.Text? ==>
              var b := Bounds(m);
              0.0 <= b.x && 0.0 <= b.width && b.x + b.width <= 1.0
              && 0.0 <= b.y && 0.0 <= b.height && b.y + b.height <= 1.0
  {
    if m.Stroke? {
      Extremes(m.points);
      assert UnitPoint(m.points[0]);
    }
  }

  /** A coordinate inside a fitting span stays inside when the span moves by the
      limited wish, and the wish is limited only where it must be. */
  lemma {:induction false} LimitFits(at: real, size: real, v: real, d: real)
    requires 0.0 <= at && 0.0 <= size && at + size <= 1.0 && at <= v <= at + size
    ensures var e := Limit(at, size, d);
            && Clamp01(v + e) == v + e && Unit(v + e) && 0.0 <= at + e && at + size + e <= 1.0
            && (e == d <==> 0.0 <= at + d && at + size + d <= 1.0)
  {
  }

  /** An arrow, rectangle or stroke moves rigidly: the inner clamp never takes
      effect, the mark stays inside, and a wish that keeps it inside is granted. */
  lemma {:induction false} TranslateIsRigid(m: Mark, dx: real, dy: real)
    requires Inside(m) && !m.Pin? && !m.Text?
    ensures var b := Bounds(m);
            var ex, ey := Limit(b.x, b.width, dx), Limit(b.y, b.height, dy);
            && Translate(m, dx, dy) == Moved(m, ex, ey)
            && Inside(Translate(m, dx, dy))
            && (ex == dx <==> 0.0 <= b.x + dx && b.x + b.width + dx <= 1.0)
            && (ey == dy <==> 0.0 <= b.y + dy && b.y + b.height + dy <= 1.0)
  {
    BoxFits(m);
    var b := Bounds(m);
    LimitFits(b.x, b.width, b.x, dx);
    LimitFits(b.y, b.height, b.y, dy);
    match m
    case Rectangle(_, _, _, _, _, _) =>
    case Arrow(_, _, _, _, _, _) => ArrowIsRigid(m, b, dx, dy);
    case Stroke(_, _, _, _) => StrokeIsRigid(m, b, dx, dy);
  }

  lemma {:induction false} ArrowIsRigid(m: Mark, b: Box, dx: real, dy: real)
    requires m.Arrow? && Inside(m) && b == Bounds(m)
    ensures var ex, ey := Limit(b.x, b.width, dx), Limit(b.y, b.height, dy);
            Translate(m, dx, dy) == Moved(m, ex, ey) && Inside(Translate(m, dx, dy))
  {
    LimitFits(b.x, b.width, m.x1, dx);
    LimitFits(b.x, b.width, m.x2, dx);
    LimitFits(b.y, b.height, m.y1, dy);
    LimitFits(b.y, b.height, m.y2, dy);
  }

  lemma {:induction false} StrokeIsRigid(m: Mark, b: Box, dx: real, dy: real)
    requires m.Stroke? && m.points != [] && 0.0 <= b.x && 0.0 <= b.width && b.x + b.width <= 1.0
    requires 0.0 <= b.y && 0.0 <= b.height && b.y + b.height <= 1.0
    requires Contains(b, m)
    ensures var ex, ey := Limit(b.x, b.width, dx), Limit(b.y, b.height, dy);
            Shift(m, ex, ey) == Moved(m, ex, ey) && Inside(Shift(m, ex, ey))
  {
    var ex, ey := Limit(b.x, b.width, dx), Limit(b.y, b.height, dy);
    var ps, qs := Shift(m, ex, ey).points, Moved(m, ex, ey).points;
    forall i | 0 <= i < |m.points| ensures ps[i] == qs[i] && UnitPoint(ps[i]) {
      LimitFits(b.x, b.width, m.points[i].x, dx);
      LimitFits(b.y, b.height, m.points[i].y, dy);
    }
    assert ps == qs;
  }

  /** A pin or label is drawn back from the right and bottom edge by the size of
      its handle; translating it moves it rigidly exactly when the wish keeps the
      handle inside. */
  lemma {:induction false} TranslatePin(m: Mark, dx: real, dy: real)
    requires Inside(m) && (m.Pin? || m.Text?)
    ensures var t := Translate(m, dx, dy);
            && Inside(t) && t.x == Max(0.0, Min(0.98, m.x + dx)) && t.y == Max(0.0, Min(0.98, m.y + dy))
            && (t == Moved(m, dx, dy) <==> 0.0 <= m.x + dx <= 0.98 && 0.0 <= m.y + dy <= 0.98)
  {
  }

  lemma {:induction false} TranslateKeeps(m: Mark, dx: real, dy: real)
    requires HasPoints(m)
    ensures var t := Translate(m, dx, dy);
            && t.id == m.id && t.color == m.color && HasPoints(t)
            && (t.Pin? <==> m.Pin?) && (t.Text? <==> m.Text?)
            && (t.Rectangle? <==> m.Rectangle?) && (t.Arrow? <==> m.Arrow?)
            && (m.Rectangle? ==> t.width == m.width && t.height == m.height)
            && (m.Stroke? ==> |t.points| == |m.points|)
  {
  }

  // ----- where a translated mark goes, on its coordinates alone -----

  /** The mark reaches from `lo` to `hi` across. */
  ghost predicate Across(m: Mark, lo: real, hi: real) {
    match m
    case Pin(_, _, x, _) => lo == x && hi == x + 0.02
    case Text(_, _, x, _, _) => lo == x && hi == x + 0.02
    case Rectangle(_, _, x, _, w, _) => lo == x && hi == x + w
    case Arrow(_, _, x1, _, x2, _) => if x1 <= x2 then lo == x1 && hi == x2 else lo == x2 && hi == x1
    case Stroke(_, _, _, ps) =>
      && (forall i :: 0 <= i < |ps| ==> lo <= ps[i].x <= hi)
      && (exists i :: 0 <= i < |ps| && ps[i].x == lo) && (exists i :: 0 <= i < |ps| && ps[i].x == hi)
  }

  /** The mark reaches from `lo` to `hi` downwards. */
  ghost predicate Down(m: Mark, lo: real, hi: real) {
    match m
    case Pin(_, _, _, y) => lo == y && hi == y + 0.02
    case Text(_, _, _, y, _) => lo == y && hi == y + 0.02
    case Rectangle(_, _, _, y, _, h) => lo == y && hi == y + h
    case Arrow(_, _, _, y1, _, y2) => if y1 <= y2 then lo == y1 && hi == y2 else lo == y2 && hi == y1
    case Stroke(_, _, _, ps) =>
      && (forall i :: 0 <= i < |ps| ==> lo <= ps[i].y <= hi)
      && (exists i :: 0 <= i < |ps| && ps[i].y == lo) && (exists i :: 0 <= i < |ps| && ps[i].y == hi)
  }

  /** The way from `lo` to `hi` goes by `d`, or only up to the edge. */
  ghost predicate Goes(lo: real, hi: real, d: real, e: real) {
    if lo + d < 0.0 then e == -lo else if hi + d > 1.0 then e == 1.0 - hi else e == d
  }

  lemma {:induction false} ExtremesReached(ps: seq<Point>)
    requires ps != []
    ensures exists i :: 0 <= i < |ps| && ps[i].x == LeastX(ps)
    ensures exists i :: 0 <= i < |ps| && ps[i].x == GreatestX(ps)
    ensures exists i :: 0 <= i < |ps| && ps[i].y == LeastY(ps)
    ensures exists i :: 0 <= i < |ps| && ps[i].y == GreatestY(ps)
  {
    if |ps| == 1 {
      assert ps[0].x == LeastX(ps) == GreatestX(ps) && ps[0].y == LeastY(ps) == GreatestY(ps);
    } else {
      ExtremesReached(ps[1..]);
      assert forall i :: 0 <= i < |ps| - 1 ==> ps[1..][i] == ps[i + 1];
      assert ps[0] == ps[0];
    }
  }

  lemma {:induction false} BoundsAcross(m: Mark, lo: real, hi: real)
    requires HasPoints(m) && Across(m, lo, hi)
    ensures Bounds(m).x == lo && Bounds(m).x + Bounds(m).width == hi
  {
    if m.Stroke? {
      Extremes(m.points);
      ExtremesReached(m.points);
    }
  }

  lemma {:induction false} BoundsDown(m: Mark, lo: real, hi: real)
    requires HasPoints(m) && Down(m, lo, hi)
    ensures Bounds(m).y == lo && Bounds(m).y + Bounds(m).height == hi
  {
    if m.Stroke? {
      Extremes(m.points);
      ExtremesReached(m.points);
    }
  }

  /** `t` is the mark moved by what is wished, across and down, or up to the edge it would cross; nothing else about
      it has changed. */
  ghost predicate Lands(m: Mark, dx: real, dy: real, t: Mark) {
    exists left, right, top, bottom, ex, ey ::
      && Across(m, left, right) && Goes(left, right, dx, ex)
      && Down(m, top, bottom) && Goes(top, bottom, dy, ey) && t == Moved(m, ex, ey)
  }

  lemma {:induction false} LimitedGoes(m: Mark, dx: real, dy: real, left: real, right: real, top: real, bottom: real)
    requires Inside(m) && Across(m, left, right) && Down(m, top, bottom)
    ensures var b := Bounds(m);
            Goes(left, right, dx, Limit(b.x, b.width, dx)) && Goes(top, bottom, dy, Limit(b.y, b.height, dy))
  {
    BoundsAcross(m, left, right);
    BoundsDown(m, top, bottom);
    BoxFits(m);
  }

  lemma {:induction false} TranslateIsMoved(m: Mark, dx: real, dy: real, t: Mark)
    requires Inside(m) && t == Translate(m, dx, dy)
    ensures t == Moved(m, Limit(Bounds(m).x, Bounds(m).width, dx), Limit(Bounds(m).y, Bounds(m).height, dy))
  {
    if m.Pin? || m.Text? { TranslatePin(m, dx, dy); } else { TranslateIsRigid(m, dx, dy); }
  }

  /** A mark inside the square lands where it is wished, or at the edge. */
  lemma {:induction false} TranslateLands(m: Mark, dx: real, dy: real, t: Mark)
    requires Inside(m) && t == Translate(m, dx, dy)
    ensures Lands(m, dx, dy, t)
  {
    var left, right, top, bottom := HasExtents(m);
    LimitedGoes(m, dx, dy, left, right, top, bottom);
    TranslateIsMoved(m, dx, dy, t);
  }

  /** Every mark has such extents. */
  lemma {:induction false} HasExtents(m: Mark) returns (left: real, right: real, top: real, bottom: real)
    requires HasPoints(m)
    ensures Across(m, left, right) && Down(m, top, bottom)
  {
    var b := Bounds(m);
    left, right, top, bottom := b.x, b.x + b.width, b.y, b.y + b.height;
    if m.Stroke? {
      Extremes(m.points);
      ExtremesReached(m.points);
    }
  }

  /** A coordinate is drawn to the nearest one in the unit interval. */
  lemma {:induction false} ClampMeans(p: Point)
    ensures var q := ClampPoint(p);
            && UnitPoint(q)
            && q.x == (if p.x < 0.0 then 0.0 else if p.x > 1.0 then 1.0 else p.x)
            && q.y == (if p.y < 0.0 then 0.0 else if p.y > 1.0 then 1.0 else p.y)
  {
  }
}
