/**
 * Points of 3-D space and the geometric helpers the curvature estimator calls.
 *
 * distance_between_points and get_angle_between_points are square-root and
 * arc-cosine computations whose bodies are not part of this model: they are
 * carried as function values (`Measures`) together with the only facts the
 * estimator relies on. INTERPOLATE_POINTS and get_points_centroid are given
 * their usual linear definitions.
 */
module Geometry {

  datatype Point = Point(x: real, y: real, z: real)

  const PI: real := 3.14159265358979323846
  const RAD_TO_DEG: real := 180.0 / PI

  /** The two measuring helpers: edge length between two points, and the angle at the middle point. */
  datatype Measures = Measures(distance: (Point, Point) -> real, angle: (Point, Point, Point) -> real)
  {
    /** A Euclidean length is never negative. */
    ghost predicate DistanceValid() {
      forall a, b :: distance(a, b) >= 0.0
    }

    /** An angle between two rays lies in [0, PI] radians. */
    ghost predicate AngleValid() {
      forall a, b, c :: 0.0 <= angle(a, b, c) <= PI
    }

    ghost predicate Valid() {
      DistanceValid() && AngleValid()
    }
  }

  /** INTERPOLATE_POINTS: the point at parameter t on the segment from a (t = 0) to b (t = 1). */
  function Interpolate(a: Point, b: Point, t: real): Point {
    Point(a.x + t * (b.x - a.x), a.y + t * (b.y - a.y), a.z + t * (b.z - a.z))
  }

  function Add(a: Point, b: Point): Point {
    Point(a.x + b.x, a.y + b.y, a.z + b.z)
  }

  function Scale(a: Point, s: real): Point {
    Point(s * a.x, s * a.y, s * a.z)
  }

  /** Coordinate-wise sum of a sequence of points. */
  function Sum(pts: seq<Point>): Point {
    if |pts| == 0 then Point(0.0, 0.0, 0.0) else Add(Sum(pts[..|pts| - 1]), pts[|pts| - 1])
  }

  /** get_points_centroid: the arithmetic mean of the points. */
  function Centroid(pts: seq<Point>): Point
    requires |pts| > 0
  {
    Scale(Sum(pts), 1.0 / |pts| as real)
  }

  /** Interpolating at parameter 0 gives the start point back; at 1, the end point. */
  lemma InterpolateEnds(a: Point, b: Point)
    ensures Interpolate(a, b, 0.0) == a
    ensures Interpolate(a, b, 1.0) == b
  {
  }

  /** n copies of one point sum to n times that point. */
  lemma {:induction false} SumOfCopies(pts: seq<Point>, p: Point)
    requires forall k :: 0 <= k < |pts| ==> pts[k] == p
    ensures Sum(pts) == Scale(p, |pts| as real)
  {
    if |pts| > 0 {
      SumOfCopies(pts[..|pts| - 1], p);
    }
  }

  /** The centroid of points that all coincide is that point. */
  lemma CentroidOfCopies(pts: seq<Point>, p: Point)
    requires |pts| > 0
    requires forall k :: 0 <= k < |pts| ==> pts[k] == p
    ensures Centroid(pts) == p
  {
    SumOfCopies(pts, p);
  }
}
