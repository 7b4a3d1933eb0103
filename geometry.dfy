/** Geometry the canvas engine works with: integer points, colours, and paths
    recorded as the sequence of drawing commands issued on them. */
module Geometry {

  /** A point on the canvas; the engine's float offsets are modelled as integers. */
  datatype Point = Point(x: int, y: int)

  function Add(p: Point, d: Point): (r: Point)
    ensures r.x - p.x == d.x && r.y - p.y == d.y
  {
    Point(p.x + d.x, p.y + d.y)
  }

  /** An axis-aligned rectangle given by its left, top, right and bottom edges. */
  datatype Rect = Rect(left: int, top: int, right: int, bottom: int)

  /** A colour as its packed ARGB value. */
  datatype Color = Color(argb: int)

  /** The fully transparent colour used for erasing strokes. */
  const Transparent: Color := Color(0)

  /** One command issued on a path. */
  datatype PathOp =
    | MoveTo(to: Point)
    | LineTo(to: Point)
    | AddOval(oval: Rect)
    | AddRect(rect: Rect)

  /** A path is the ordered list of commands that built it. */
  type Path = seq<PathOp>

  /** The preset shapes a user can insert. */
  datatype Shape = Circle | Square | Triangle

  /** The box in which the preset circle and square are drawn. */
  const ShapeBox: Rect := Rect(100, 100, 400, 400)

  /** The fixed geometry inserted for each preset shape. */
  function ShapePath(shape: Shape): (r: Path)
    ensures |r| > 0
    ensures shape == Circle ==> r == [AddOval(ShapeBox)]
    ensures shape == Square ==> r == [AddRect(ShapeBox)]
    ensures shape == Triangle ==>
      |r| == 4 && r[0] == MoveTo(Point(100, 100)) &&
      r[1] == LineTo(Point(200, 250)) && r[2] == LineTo(Point(0, 250)) &&
      r[3] == LineTo(r[0].to)
  {
    match shape
    case Circle => [AddOval(ShapeBox)]
    case Square => [AddRect(ShapeBox)]
    case Triangle =>
      [MoveTo(Point(100, 100)), LineTo(Point(200, 250)), LineTo(Point(0, 250)), LineTo(Point(100, 100))]
  }

  /** A mutable path under construction: each call appends one command. */
  class PathBuilder {
    var ops: seq<PathOp>

    constructor ()
      ensures ops == []
    {
      ops := [];
    }

    method MoveTo(p: Point)
      modifies this
      ensures ops == old(ops) + [PathOp.MoveTo(p)]
    {
      ops := ops + [PathOp.MoveTo(p)];
    }

    method LineTo(p: Point)
      modifies this
      ensures ops == old(ops) + [PathOp.LineTo(p)]
    {
      ops := ops + [PathOp.LineTo(p)];
    }

    method AddOval(r: Rect)
      modifies this
      ensures ops == old(ops) + [PathOp.AddOval(r)]
    {
      ops := ops + [PathOp.AddOval(r)];
    }

    method AddRect(r: Rect)
      modifies this
      ensures ops == old(ops) + [PathOp.AddRect(r)]
    {
      ops := ops + [PathOp.AddRect(r)];
    }
  }
}
