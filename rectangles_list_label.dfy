/**
 * desktop/view/widget/rectangles_list_label.py: the detection-zone editor. It holds the
 * zones and a small state machine driven by mouse and key events: a left press near a
 * zone's corner starts resizing that zone, any other left press starts drawing a new
 * zone, moves drag the corner or the end point, a release ends the resize or adds the
 * drawn zone, and Ctrl+Z removes the last zone.
 *
 * Positions are the label-local positions Qt computes (`mapFromGlobal(event.globalPos())`);
 * they and `underMouse()` arrive as parameters.
 */
module ZoneEditor {
  import opened Wrappers
  import opened Geometry
  import opened MyRectModel

  /** The corner a resize drags: 'top-left', 'top-right', 'bottom-left', 'bottom-right'. */
  datatype Direction = TopLeftHandle | TopRightHandle | BottomLeftHandle | BottomRightHandle

  datatype MouseButton = LeftButton | OtherButton

  datatype Key = KeyZ | OtherKey

  datatype Modifier = Control | Shift | Alt | Meta | Keypad

  /** The default corner margin, in pixels. */
  const Margin := 10

  /** The directions in the order `get_rect_corners` lists the corners. */
  const Directions := [TopLeftHandle, TopRightHandle, BottomLeftHandle, BottomRightHandle]

  /** `'top' in direction`, and so on for the other edges. */
  predicate MovesTop(d: Direction) { d == TopLeftHandle || d == TopRightHandle }
  predicate MovesBottom(d: Direction) { d == BottomLeftHandle || d == BottomRightHandle }
  predicate MovesLeft(d: Direction) { d == TopLeftHandle || d == BottomLeftHandle }
  predicate MovesRight(d: Direction) { d == TopRightHandle || d == BottomRightHandle }

  function Abs(n: int): int { if n < 0 then -n else n }

  /** The position is within `margin` of the corner on both axes. */
  predicate Near(corner: Point, pos: Point, margin: int)
  {
    Abs(corner.x - pos.x) <= margin && Abs(corner.y - pos.y) <= margin
  }

  /** The first of the corners from index `k` on that is near the position. */
  function NearCornerFrom(cs: seq<Point>, pos: Point, margin: int, k: nat): (r: Option<(Point, Direction)>)
    requires |cs| == 4
    decreases 4 - k
  {
    if k >= 4 then None
    else if Near(cs[k], pos, margin) then Some((cs[k], Directions[k]))
    else NearCornerFrom(cs, pos, margin, k + 1)
  }

  /** `is_pos_near_corner(pos, rect, margin)`, with None for `(None, None)`. */
  function NearCorner(pos: Point, rect: MyRect, margin: int): Option<(Point, Direction)>
  {
    NearCornerFrom(Corners(rect), pos, margin, 0)
  }

  lemma {:induction false} NearCornerFromIsFirst(cs: seq<Point>, pos: Point, margin: int, k: nat)
    requires |cs| == 4
    ensures var r := NearCornerFrom(cs, pos, margin, k);
      (r.None? <==> forall j | k <= j < 4 :: !Near(cs[j], pos, margin)) &&
      (r.Some? ==> exists j | k <= j < 4 ::
         r.value == (cs[j], Directions[j]) && Near(cs[j], pos, margin) &&
         forall i | k <= i < j :: !Near(cs[i], pos, margin))
    decreases 4 - k
  {
    if k < 4 && !Near(cs[k], pos, margin) {
      NearCornerFromIsFirst(cs, pos, margin, k + 1);
    }
  }

  /** The corner test answers the first corner, in the order top-left, top-right,
      bottom-left, bottom-right, within the margin on both axes, and its direction; it
      answers nothing exactly when no corner is that close. */
  lemma NearCornerIsFirst(pos: Point, rect: MyRect, margin: int)
    ensures var cs, r := Corners(rect), NearCorner(pos, rect, margin);
      (r.None? <==> forall j | 0 <= j < 4 :: !Near(cs[j], pos, margin)) &&
      (r.Some? ==> exists j | 0 <= j < 4 ::
         r.value == (cs[j], Directions[j]) && Near(cs[j], pos, margin) &&
         forall i | 0 <= i < j :: !Near(cs[i], pos, margin))
  {
    NearCornerFromIsFirst(Corners(rect), pos, margin, 0);
  }

  /** The loop of `is_pos_near_corner` over the corners and their directions. */
  method IsPosNearCorner(pos: Point, rect: MyRect, margin: int) returns (r: Option<(Point, Direction)>)
    ensures r == NearCorner(pos, rect, margin)
  {
    var corners := Corners(rect);
    for k := 0 to 4
      invariant NearCornerFrom(corners, pos, margin, 0) == NearCornerFrom(corners, pos, margin, k)
    {
      var corner, direction := corners[k], Directions[k];
      if Abs(corner.x - pos.x) <= margin && Abs(corner.y - pos.y) <= margin {
        return Some((corner, direction));
      }
    }
    return None;
  }

  /** The first zone, from index `from` on, with a corner near the position: its index
      and the corner's direction. */
  function FirstZoneNearCorner(zones: seq<MyRect>, pos: Point, from: nat): (r: Option<(nat, Direction)>)
    ensures r.Some? ==> from <= r.value.0 < |zones| && NearCorner(pos, zones[r.value.0], Margin).Some?
    decreases |zones| - from
  {
    if from >= |zones| then None
    else match NearCorner(pos, zones[from], Margin)
      case Some((_, d)) => Some((from, d))
      case None => FirstZoneNearCorner(zones, pos, from + 1)
  }

  /** A press resizes the first zone, in list order, that has a near corner, by that
      corner; it resizes none exactly when no zone has one. */
  lemma {:induction false} FirstZoneIsFirst(zones: seq<MyRect>, pos: Point, from: nat)
    ensures var r := FirstZoneNearCorner(zones, pos, from);
      (r.None? <==> forall i | from <= i < |zones| :: NearCorner(pos, zones[i], Margin).None?) &&
      (r.Some? ==>
         r.value.1 == NearCorner(pos, zones[r.value.0], Margin).value.1 &&
         forall i | from <= i < r.value.0 :: NearCorner(pos, zones[i], Margin).None?)
    decreases |zones| - from
  {
    if from < |zones| && NearCorner(pos, zones[from], Margin).None? {
      FirstZoneIsFirst(zones, pos, from + 1);
    }
  }

  /** `setTop`/`setBottom`/`setLeft`/`setRight` for the edges the direction names; the
      opposite edges stay where they are. */
  function Resize(r: MyRect, d: Direction, pos: Point): MyRect
  {
    var b := r.bounds;
    r.(bounds := QRect(
      if MovesLeft(d) then pos.x else b.left,
      if MovesTop(d) then pos.y else b.top,
      if MovesRight(d) then pos.x else b.right,
      if MovesBottom(d) then pos.y else b.bottom))
  }

  function CornerIndex(d: Direction): (k: nat)
    ensures k < 4 && Directions[k] == d
  {
    match d
    case TopLeftHandle => 0
    case TopRightHandle => 1
    case BottomLeftHandle => 2
    case BottomRightHandle => 3
  }

  /** Dragging a corner puts that corner on the mouse and leaves the opposite corner,
      the zone's colour and its type where they were. */
  lemma ResizeDragsCorner(r: MyRect, d: Direction, pos: Point)
    ensures var k := CornerIndex(d);
      Corners(Resize(r, d, pos))[k] == pos &&
      Corners(Resize(r, d, pos))[3 - k] == Corners(r)[3 - k] &&
      Resize(r, d, pos).color == r.color && Resize(r, d, pos).kind == r.kind
  {
  }

  /** A drawn zone has its top-left corner at the press point and its bottom-right corner
      one pixel up and left of the point the mouse was released at. */
  lemma DrawnZoneSpansDrag(s: Point, e: Point)
    ensures var z := NewMyRect(s.x, s.y, e.x - s.x, e.y - s.y);
      Corners(z)[0] == s && Corners(z)[3] == Point(e.x - 1, e.y - 1)
  {
    CornersOfNew(s.x, s.y, e.x - s.x, e.y - s.y);
  }

  class RectanglesLabelList {
    var rectangles: seq<MyRect>
    var startPoint: Option<Point>
    var endPoint: Option<Point>
    var resizingRect: Option<nat>
    var resizeDirection: Option<Direction>

    /** `RectanglesLabelList()`: no zones, nothing being drawn or resized. */
    constructor()
      ensures rectangles == [] && startPoint == None && endPoint == None
      ensures resizingRect == None && resizeDirection == None
    {
      rectangles := [];
      startPoint := None;
      endPoint := None;
      resizingRect := None;
      resizeDirection := None;
    }

    /** `get_rectangles`. */
    function GetRectangles(): seq<MyRect>
      reads this
    {
      rectangles
    }

    /** `set_rectangles`: the zones read back are the ones set. */
    method SetRectangles(zones: seq<MyRect>)
      modifies this`rectangles
      ensures GetRectangles() == zones
    {
      rectangles := zones;
    }

    /** `get_start_end_points`. */
    function GetStartEndPoints(): (Option<Point>, Option<Point>)
      reads this
    {
      (startPoint, endPoint)
    }

    /** `pop_last_rect`: drop the last zone, if there is one. */
    method PopLastRect()
      modifies this`rectangles
      ensures PoppedLast(this)
    {
      if |rectangles| > 0 {
        rectangles := rectangles[..|rectangles| - 1];
      }
    }

    /** `keyPressEvent`: Ctrl+Z, with no other modifier, drops the last zone. */
    method KeyPress(key: Key, modifiers: set<Modifier>)
      modifies this`rectangles
      ensures KeyStep(this, key, modifiers)
    {
      if key == KeyZ && modifiers == {Control} {
        PopLastRect();
      }
    }

    /** `mousePressEvent`. */
    method MousePress(button: MouseButton, underMouse: bool, pos: Point)
      modifies this`resizingRect, this`resizeDirection, this`startPoint, this`endPoint
      ensures PressStep(this, button, underMouse, pos)
    {
      if button == LeftButton && underMouse {
        var i := 0;
        while i < |rectangles|
          invariant 0 <= i <= |rectangles|
          invariant FirstZoneNearCorner(rectangles, pos, 0) == FirstZoneNearCorner(rectangles, pos, i)
          invariant startPoint == old(startPoint) && endPoint == old(endPoint)
          invariant resizingRect == old(resizingRect) && resizeDirection == old(resizeDirection)
        {
          var hit := IsPosNearCorner(pos, rectangles[i], Margin);
          if hit.Some? {
            resizingRect := Some(i);
            resizeDirection := Some(hit.value.1);
            return;
          }
          i := i + 1;
        }
        startPoint := Some(pos);
        endPoint := None;
      }
    }

    /** `mouseMoveEvent`. `raised` reports the IndexError of a resize index that no longer
        names a zone (the zone was removed during the drag) or the TypeError of a missing
        direction; the event then changes nothing. */
    method MouseMove(pos: Point) returns (raised: bool)
      modifies this`rectangles, this`endPoint
      ensures MoveStep(this, pos, raised)
    {
      raised := false;
      if resizingRect.Some? {
        var i := resizingRect.value;
        if i >= |rectangles| || resizeDirection.None? {
          raised := true;
          return;
        }
        rectangles := rectangles[i := Resize(rectangles[i], resizeDirection.value, pos)];
      } else if startPoint.Some? {
        endPoint := Some(pos);
      }
    }

    /** `mouseReleaseEvent`. */
    method MouseRelease(button: MouseButton)
      modifies this`resizingRect, this`rectangles, this`startPoint, this`endPoint
      ensures ReleaseStep(this, button)
    {
      if resizingRect.Some? {
        resizingRect := None;
      } else if button == LeftButton && startPoint.Some? && endPoint.Some? {
        var s, e := startPoint.value, endPoint.value;
        var rect := NewMyRect(s.x, s.y, e.x - s.x, e.y - s.y);
        rectangles := rectangles + [rect];
        startPoint := None;
        endPoint := None;
      }
    }
  }

  /** The zones lose their last element, if they have one; nothing else changes. */
  twostate predicate PoppedLast(e: RectanglesLabelList)
    reads e
  {
    (|old(e.rectangles)| == 0 ==> e.rectangles == []) &&
    (|old(e.rectangles)| > 0 ==> e.rectangles == old(e.rectangles)[..|old(e.rectangles)| - 1])
  }

  /** A key press: Ctrl+Z pops the last zone, any other key changes nothing. */
  twostate predicate KeyStep(e: RectanglesLabelList, key: Key, modifiers: set<Modifier>)
    reads e
  {
    if key == KeyZ && modifiers == {Control} then PoppedLast(e) else e.rectangles == old(e.rectangles)
  }

  /** A press: with the left button over the label, resize the first zone with a near
      corner, or else start drawing at the position; otherwise nothing changes. */
  twostate predicate PressStep(e: RectanglesLabelList, button: MouseButton, underMouse: bool, pos: Point)
    reads e
  {
    e.rectangles == old(e.rectangles) &&
    if button != LeftButton || !underMouse then
      e.resizingRect == old(e.resizingRect) && e.resizeDirection == old(e.resizeDirection) &&
      e.startPoint == old(e.startPoint) && e.endPoint == old(e.endPoint)
    else match FirstZoneNearCorner(old(e.rectangles), pos, 0)
      case Some((i, d)) =>
        e.resizingRect == Some(i) && e.resizeDirection == Some(d) &&
        e.startPoint == old(e.startPoint) && e.endPoint == old(e.endPoint)
      case None =>
        e.startPoint == Some(pos) && e.endPoint == None &&
        e.resizingRect == old(e.resizingRect) && e.resizeDirection == old(e.resizeDirection)
  }

  /** A move: while resizing, drag the chosen zone's corner (only that zone changes);
      while drawing, move the end point; otherwise nothing changes. */
  twostate predicate MoveStep(e: RectanglesLabelList, pos: Point, raised: bool)
    reads e
  {
    var r := old(e.resizingRect);
    e.resizingRect == r && e.resizeDirection == old(e.resizeDirection) && e.startPoint == old(e.startPoint) &&
    (raised <==> r.Some? && (r.value >= |old(e.rectangles)| || old(e.resizeDirection).None?)) &&
    if raised then
      e.rectangles == old(e.rectangles) && e.endPoint == old(e.endPoint)
    else if r.Some? then
      e.rectangles == old(e.rectangles)[r.value := Resize(old(e.rectangles)[r.value], old(e.resizeDirection).value, pos)] &&
      e.endPoint == old(e.endPoint)
    else if old(e.startPoint).Some? then
      e.rectangles == old(e.rectangles) && e.endPoint == Some(pos)
    else
      e.rectangles == old(e.rectangles) && e.endPoint == old(e.endPoint)
  }

  /** A release: end a resize; or, with the left button after a press and a move, add
      the drawn zone and clear both points; otherwise nothing changes. */
  twostate predicate ReleaseStep(e: RectanglesLabelList, button: MouseButton)
    reads e
  {
    var s, t := old(e.startPoint), old(e.endPoint);
    if old(e.resizingRect).Some? then
      e.resizingRect == None && e.rectangles == old(e.rectangles) && e.startPoint == s && e.endPoint == t
    else if button == LeftButton && s.Some? && t.Some? then
      e.rectangles == old(e.rectangles) + [NewMyRect(s.value.x, s.value.y, t.value.x - s.value.x, t.value.y - s.value.y)] &&
      e.startPoint == None && e.endPoint == None && e.resizingRect == None
    else
      e.rectangles == old(e.rectangles) && e.startPoint == s && e.endPoint == t && e.resizingRect == None
  }
}
