/** Points, sizes and half-open rectangles in pixel coordinates. */
module Geometry {
  import opened Base

  datatype Point = Point(x: I32, y: I32)

  datatype Size = Size(width: NonZeroU32, height: NonZeroU32)

  datatype Edge = Left | Right | Top | Bottom {
    function Opposite(): Edge {
      match this
      case Left => Right
      case Right => Left
      case Top => Bottom
      case Bottom => Top
    }

    // Left and Right edges run along the y axis, Top and Bottom along the x axis.
    predicate Vertical() {
      Left? || Right?
    }
  }

  datatype Rect = Rect(origin: Point, size: Size) {
    function LeftSide(): int { origin.x }
    function TopSide(): int { origin.y }
    function RightSide(): int { origin.x + size.width }
    function BottomSide(): int { origin.y + size.height }

    predicate Overlaps(other: Rect) {
      && LeftSide() < other.RightSide()
      && RightSide() > other.LeftSide()
      && TopSide() < other.BottomSide()
      && BottomSide() > other.TopSide()
    }

    predicate ContainsCoordinates(x: int, y: int) {
      LeftSide() <= x < RightSide() && TopSide() <= y < BottomSide()
    }

    // The coordinate of one side.
    function Side(edge: Edge): int {
      match edge
      case Left => LeftSide()
      case Right => RightSide()
      case Top => TopSide()
      case Bottom => BottomSide()
    }

    // The half-open interval covered along the direction of an edge.
    function Start(edge: Edge): int {
      if edge.Vertical() then TopSide() else LeftSide()
    }

    function End(edge: Edge): int {
      if edge.Vertical() then BottomSide() else RightSide()
    }

    function Length(edge: Edge): int {
      if edge.Vertical() then size.height else size.width
    }
  }

  predicate ContainsAxis(start: int, end: int, value: int) {
    value >= start && value < end
  }

  // The pixels of a rectangle: its width by its height, from its origin on.
  predicate HasPixel(r: Rect, x: int, y: int) {
    0 <= x - r.origin.x < r.size.width && 0 <= y - r.origin.y < r.size.height
  }

  lemma ContainsIsHasPixel(r: Rect, x: int, y: int)
    ensures r.ContainsCoordinates(x, y) <==> HasPixel(r, x, y)
  {
  }

  /** Two rectangles overlap exactly when some pixel lies in both. */
  lemma OverlapIsCommonPixel(a: Rect, b: Rect)
    ensures a.Overlaps(b) <==> exists x, y :: HasPixel(a, x, y) && HasPixel(b, x, y)
  {
    if a.Overlaps(b) {
      var x, y := Max(a.origin.x, b.origin.x), Max(a.origin.y, b.origin.y);
      assert HasPixel(a, x, y) && HasPixel(b, x, y);
    }
  }
}
