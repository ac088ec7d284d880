/**
 * The vector primitives the layer generators issue through `ImageDraw`
 * (`line`, `arc`, `ellipse`, `rectangle`, `polygon`, `point`), each with its
 * bounding box or vertices, stroke width and colours, plus mirroring about
 * the vertical centre line of a canvas.
 */
module Drawing {
  import opened Wrappers
  import opened Raster

  /** PIL's named colours, opaque. */
  const Black := Rgba(0, 0, 0, 255)
  const DarkRed := Rgba(139, 0, 0, 255)
  const Brown := Rgba(165, 42, 42, 255)

  datatype Point = Point(x: int, y: int)

  /** A bounding box `[left, top, right, bottom]` as passed to `ImageDraw`. */
  datatype Box = Box(left: int, top: int, right: int, bottom: int)

  datatype Primitive =
      /** `draw.line(points, fill, width)`: a polyline through `points`. */
    | Line(points: seq<Point>, colour: Rgba, width: nat)
      /** `draw.arc(box, start, end, fill, width)`: angles in degrees, clockwise from 3 o'clock. */
    | Arc(box: Box, start: int, end: int, colour: Rgba, width: nat)
      /** `draw.ellipse(box, outline, fill, width)`. */
    | Ellipse(box: Box, stroke: Option<Rgba>, fill: Option<Rgba>, width: nat)
      /** `draw.rectangle(box, outline, width)`. */
    | Rectangle(box: Box, outline: Rgba, width: nat)
      /** `draw.polygon(points, outline, width)`. */
    | Polygon(vertices: seq<Point>, outline: Rgba, width: nat)
      /** `draw.point(at, fill)`: a single pixel. */
    | Dot(at: Point, colour: Rgba)

  predicate PointIn(p: Point, size: int) {
    0 <= p.x < size && 0 <= p.y < size
  }

  /** A box PIL accepts (right not left of left, bottom not above top) lying on a `size`-square canvas. */
  predicate BoxIn(b: Box, size: int) {
    0 <= b.left <= b.right < size && 0 <= b.top <= b.bottom < size
  }

  /** The primitive is well formed for PIL and lies wholly on a `size`-square canvas. */
  predicate OnCanvas(p: Primitive, size: int) {
    match p
    case Line(pts, _, _) => |pts| >= 2 && forall k | 0 <= k < |pts| :: PointIn(pts[k], size)
    case Arc(b, _, _, _, _) => BoxIn(b, size)
    case Ellipse(b, _, _, _) => BoxIn(b, size)
    case Rectangle(b, _, _) => BoxIn(b, size)
    case Polygon(vs, _, _) => |vs| >= 3 && forall k | 0 <= k < |vs| :: PointIn(vs[k], size)
    case Dot(q, _) => PointIn(q, size)
  }

  predicate AllOnCanvas(ps: seq<Primitive>, size: int) {
    forall k | 0 <= k < |ps| :: OnCanvas(ps[k], size)
  }

  /** Reflection of a point in the vertical line x = `axis`. */
  function MirrorPoint(p: Point, axis: int): Point {
    Point(2 * axis - p.x, p.y)
  }

  function MirrorBox(b: Box, axis: int): Box {
    Box(2 * axis - b.right, b.top, 2 * axis - b.left, b.bottom)
  }

  /** Reflected polyline, listed from its new left end. */
  function MirrorPoints(pts: seq<Point>, axis: int): (r: seq<Point>)
    ensures |r| == |pts|
  {
    seq(|pts|, k requires 0 <= k < |pts| => MirrorPoint(pts[|pts| - 1 - k], axis))
  }

  /** A two-point segment reflects onto its two reflected ends, listed right end first. */
  lemma MirrorSegment(a: Point, b: Point, axis: int)
    ensures MirrorPoints([a, b], axis) == [MirrorPoint(b, axis), MirrorPoint(a, axis)]
  {
  }

  /** A three-point polyline reflects onto its reflected vertices in reverse order. */
  lemma MirrorPolyline3(a: Point, b: Point, c: Point, axis: int)
    ensures MirrorPoints([a, b, c], axis) == [MirrorPoint(c, axis), MirrorPoint(b, axis), MirrorPoint(a, axis)]
  {
  }

  /**
   * Reflection of a primitive in x = `axis`. An arc from `s` to `e` degrees
   * (clockwise) becomes an arc from 180 - e to 180 - s, taken in [0, 360];
   * a full circle stays a full circle.
   */
  function Mirror(p: Primitive, axis: int): Primitive {
    match p
    case Line(pts, c, w) => Line(MirrorPoints(pts, axis), c, w)
    case Arc(b, s, e, c, w) =>
      if e - s >= 360 then Arc(MirrorBox(b, axis), s, e, c, w)
      else if 540 - s > 360 then Arc(MirrorBox(b, axis), 180 - e, 180 - s, c, w)
      else Arc(MirrorBox(b, axis), 540 - e, 540 - s, c, w)
    case Ellipse(b, o, f, w) => Ellipse(MirrorBox(b, axis), o, f, w)
    case Rectangle(b, o, w) => Rectangle(MirrorBox(b, axis), o, w)
    case Polygon(vs, o, w) => Polygon(MirrorPoints(vs, axis), o, w)
    case Dot(q, c) => Dot(MirrorPoint(q, axis), c)
  }

  /** Every primitive of the layer has its reflection in x = `axis` in the layer too. */
  predicate MirrorSymmetric(ps: seq<Primitive>, axis: int) {
    forall k | 0 <= k < |ps| :: Mirror(ps[k], axis) in ps
  }
}
