/**
 * The plane geometry the robot-arm code borrows from the Java library:
 * points, the rectangles of obstacles, the angle conversions, and the
 * trigonometry and segment-rectangle test, which stay uninterpreted.
 */
module Plane {

  /** java.awt.geom.Point2D.Double. */
  datatype Point = Point(x: real, y: real)

  /** The rectangle an obstacle covers, as its corner and extent. */
  datatype Rect = Rect(x: real, y: real, width: real, height: real)

  /** An obstacle; its text format and construction are not part of this model. */
  datatype Obstacle = Obstacle(rect: Rect)

  /**
   * The library functions whose values are left open: Math.cos, Math.sin,
   * and Line2D.intersects(Rectangle2D) for the segment between two points.
   */
  datatype Geometry = Geometry(cos: real -> real, sin: real -> real, segmentHits: (Point, Point, Rect) -> bool)

  /** Math.PI, the double nearest to pi. */
  const PI: real := 3.141592653589793

  /** Math.toDegrees: angrad * 180 / PI. */
  function ToDegrees(angrad: real): (d: real)
    ensures d >= 0.0 <==> angrad >= 0.0
    ensures d == 0.0 <==> angrad == 0.0
  {
    angrad * 180.0 / PI
  }

  /** Math.toRadians: angdeg / 180 * PI. */
  function ToRadians(angdeg: real): (r: real)
    ensures r >= 0.0 <==> angdeg >= 0.0
  {
    angdeg / 180.0 * PI
  }

  /** On exact reals the two conversions undo each other. */
  lemma DegreesRoundTrip(angdeg: real)
    ensures ToDegrees(ToRadians(angdeg)) == angdeg
  {
  }

  /** The degree conversion is linear. */
  lemma ToDegreesAdds(a: real, b: real)
    ensures ToDegrees(a + b) == ToDegrees(a) + ToDegrees(b)
  {
  }

  /** The degree conversion keeps order. */
  lemma ToDegreesMonotonic(a: real, b: real)
    ensures a <= b <==> ToDegrees(a) <= ToDegrees(b)
  {
  }

  /** The squared distance between two points. */
  function SquaredDistance(p: Point, q: Point): (d: real)
    ensures d >= 0.0
  {
    (q.x - p.x) * (q.x - p.x) + (q.y - p.y) * (q.y - p.y)
  }
}
