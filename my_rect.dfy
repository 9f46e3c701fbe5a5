/**
 * A detection zone: a QRect with a colour and an (unused) type tag, its four corner
 * handles, its text form, and the zone-hit test the windows run for a person's centre.
 */
module MyRectModel {
  import opened Wrappers
  import opened Geometry
  import opened Text

  datatype Rgb = Rgb(red: int, green: int, blue: int)

  const Black := Rgb(0, 0, 0)

  /** `MyRect`: the rectangle, its colour and its type (which nothing in the program sets). */
  datatype MyRect = MyRect(bounds: QRect, color: Rgb, kind: Option<string>)

  /** `MyRect(x, y, width, height)`: a black rectangle with no type. */
  function NewMyRect(x: int, y: int, w: int, h: int): (r: MyRect)
    ensures r.bounds.left == x && r.bounds.top == y
    ensures Width(r.bounds) == w && Height(r.bounds) == h
    ensures r.color == Black && r.kind == None
  {
    MyRect(RectFromXYWH(x, y, w, h), Black, None)
  }

  /** `get_rect_corners`: top-left, top-right, bottom-left, bottom-right. */
  function Corners(r: MyRect): (cs: seq<Point>)
    ensures |cs| == 4
    ensures cs[0] == Point(r.bounds.left, r.bounds.top)
    ensures cs[1] == Point(cs[0].x + Width(r.bounds) - 1, cs[0].y)
    ensures cs[2] == Point(cs[0].x, cs[0].y + Height(r.bounds) - 1)
    ensures cs[3] == Point(cs[1].x, cs[2].y)
  {
    [TopLeft(r.bounds), TopRight(r.bounds), BottomLeft(r.bounds), BottomRight(r.bounds)]
  }

  /** The corners of a freshly built zone, in terms of the arguments it was built from. */
  lemma CornersOfNew(x: int, y: int, w: int, h: int)
    ensures Corners(NewMyRect(x, y, w, h)) ==
      [Point(x, y), Point(x + w - 1, y), Point(x, y + h - 1), Point(x + w - 1, y + h - 1)]
  {
  }

  /** `__str__`: "(x, y, w, h)". */
  function Render(r: MyRect): string
  {
    "(" + IntToString(r.bounds.left) + ", " + IntToString(r.bounds.top) + ", "
        + IntToString(Width(r.bounds)) + ", " + IntToString(Height(r.bounds)) + ")"
  }

  lemma NoCommaInNumber(n: int)
    ensures ',' !in IntToString(n)
  {
    IntToStringChars(n);
  }

  lemma CommaAfterHead(p: string, r: string)
    ensures (p + ", " + r)[|p|] == ','
  {
  }

  /** Two comma-free heads followed by ", " can only match if heads and tails match. */
  lemma SplitAtComma(p1: string, r1: string, p2: string, r2: string)
    requires ',' !in p1 && ',' !in p2
    requires p1 + ", " + r1 == p2 + ", " + r2
    ensures p1 == p2 && r1 == r2
  {
    var s := p1 + ", " + r1;
    if |p1| < |p2| {
      CommaAfterHead(p1, r1);
      assert false;
    } else if |p2| < |p1| {
      CommaAfterHead(p2, r2);
      assert false;
    }
    assert p1 == s[..|p1|] == p2;
    assert r1 == s[|p1| + 2..] == r2;
  }

  /** The pieces of "(a, b, c, d)" are recovered from the text when the first three
      pieces hold no comma. */
  lemma UnpackTuple(a1: string, b1: string, c1: string, d1: string,
                    a2: string, b2: string, c2: string, d2: string)
    requires ',' !in a1 && ',' !in b1 && ',' !in c1
    requires ',' !in a2 && ',' !in b2 && ',' !in c2
    requires "(" + a1 + ", " + b1 + ", " + c1 + ", " + d1 + ")" ==
             "(" + a2 + ", " + b2 + ", " + c2 + ", " + d2 + ")"
    ensures a1 == a2 && b1 == b2 && c1 == c2 && d1 == d2
  {
    var s1 := "(" + a1 + ", " + b1 + ", " + c1 + ", " + d1 + ")";
    var s2 := "(" + a2 + ", " + b2 + ", " + c2 + ", " + d2 + ")";
    var t1 := b1 + ", " + c1 + ", " + d1;
    var t2 := b2 + ", " + c2 + ", " + d2;
    assert s1[1..|s1| - 1] == a1 + ", " + t1;
    assert s2[1..|s2| - 1] == a2 + ", " + t2;
    SplitAtComma(a1, t1, a2, t2);
    assert t1 == b1 + ", " + (c1 + ", " + d1);
    assert t2 == b2 + ", " + (c2 + ", " + d2);
    SplitAtComma(b1, c1 + ", " + d1, b2, c2 + ", " + d2);
    SplitAtComma(c1, d1, c2, d2);
  }

  /** The text form determines the rectangle: two zones that print alike have the same
      position and size (colour and type are not printed). */
  lemma RenderInjective(a: MyRect, b: MyRect)
    requires Render(a) == Render(b)
    ensures a.bounds == b.bounds
  {
    NoCommaInNumber(a.bounds.left); NoCommaInNumber(b.bounds.left);
    NoCommaInNumber(a.bounds.top); NoCommaInNumber(b.bounds.top);
    NoCommaInNumber(Width(a.bounds)); NoCommaInNumber(Width(b.bounds));
    UnpackTuple(IntToString(a.bounds.left), IntToString(a.bounds.top),
                IntToString(Width(a.bounds)), IntToString(Height(a.bounds)),
                IntToString(b.bounds.left), IntToString(b.bounds.top),
                IntToString(Width(b.bounds)), IntToString(Height(b.bounds)));
    IntToStringInjective(a.bounds.left, b.bounds.left);
    IntToStringInjective(a.bounds.top, b.bounds.top);
    IntToStringInjective(Width(a.bounds), Width(b.bounds));
    IntToStringInjective(Height(a.bounds), Height(b.bounds));
  }

  /** Some zone contains the point. */
  predicate InSomeZone(zones: seq<MyRect>, p: Point)
  {
    exists i | 0 <= i < |zones| :: Contains(zones[i].bounds, p)
  }

  /** The zone-hit loop `for rect in rectangles: if rect.contains(mid_point): ...; break`. */
  method AnyZoneContains(zones: seq<MyRect>, p: Point) returns (hit: bool)
    ensures hit <==> InSomeZone(zones, p)
  {
    hit := false;
    var i := 0;
    while i < |zones|
      invariant 0 <= i <= |zones|
      invariant forall k | 0 <= k < i :: !Contains(zones[k].bounds, p)
    {
      if Contains(zones[i].bounds, p) {
        hit := true;
        return;
      }
      i := i + 1;
    }
  }
}
