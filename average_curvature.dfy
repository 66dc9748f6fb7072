/**
 * get_average_curvature: the mean, over the smoothing points, of how far the angle at the
 * estimated point between a smoothing point and the centroid of all smoothing points falls
 * short of a straight angle, in degrees.
 */
module AverageCurvature {
  import opened Geometry

  /** One sample's term: the angle converted to degrees, less 180. */
  function Deviation(angle: real): real {
    angle * RAD_TO_DEG - 180.0
  }

  /** The sum of the terms of the points in `pts`, in order. */
  function DeviationSum(g: Measures, point: Point, centroid: Point, pts: seq<Point>): real {
    if |pts| == 0 then 0.0
    else DeviationSum(g, point, centroid, pts[..|pts| - 1]) + Deviation(g.angle(pts[|pts| - 1], point, centroid))
  }

  /** An angle in [0, PI] gives a term in [-180, 0]; the term is 0 exactly at a straight angle. */
  lemma DeviationBounds(angle: real)
    requires 0.0 <= angle <= PI
    ensures -180.0 <= Deviation(angle) <= 0.0
    ensures Deviation(angle) == 0.0 <==> angle == PI
  {
    assert PI * RAD_TO_DEG == 180.0;
    assert angle * RAD_TO_DEG <= PI * RAD_TO_DEG;
    if angle * RAD_TO_DEG == 180.0 {
      assert angle == 180.0 / RAD_TO_DEG;
    }
  }

  /** With angles in [0, PI], the sum over n points lies in [-180 n, 0]. */
  lemma {:induction false} DeviationSumBounds(g: Measures, point: Point, centroid: Point, pts: seq<Point>)
    requires g.AngleValid()
    ensures -180.0 * |pts| as real <= DeviationSum(g, point, centroid, pts) <= 0.0
  {
    if |pts| > 0 {
      DeviationSumBounds(g, point, centroid, pts[..|pts| - 1]);
      DeviationBounds(g.angle(pts[|pts| - 1], point, centroid));
    }
  }

  /**
   * With angles in [0, PI], the sum is 0 exactly when the point lies on a straight line
   * between every smoothing point and the centroid (every angle is PI).
   */
  lemma {:induction false} DeviationSumZeroIffStraight(g: Measures, point: Point, centroid: Point, pts: seq<Point>)
    requires g.AngleValid()
    ensures DeviationSum(g, point, centroid, pts) == 0.0
            <==> forall k :: 0 <= k < |pts| ==> g.angle(pts[k], point, centroid) == PI
  {
    if |pts| > 0 {
      var init := pts[..|pts| - 1];
      DeviationSumZeroIffStraight(g, point, centroid, init);
      DeviationSumBounds(g, point, centroid, init);
      DeviationBounds(g.angle(pts[|pts| - 1], point, centroid));
      assert forall k :: 0 <= k < |init| ==> init[k] == pts[k];
    }
  }

  /** When every smoothing point is the same point `p`, the sum is n times that point's term. */
  lemma {:induction false} DeviationSumOfCopies(g: Measures, point: Point, centroid: Point, pts: seq<Point>, p: Point)
    requires forall k :: 0 <= k < |pts| ==> pts[k] == p
    ensures DeviationSum(g, point, centroid, pts) == |pts| as real * Deviation(g.angle(p, point, centroid))
  {
    if |pts| > 0 {
      DeviationSumOfCopies(g, point, centroid, pts[..|pts| - 1], p);
    }
  }

  /** When every smoothing point is `p`, the mean term is `p`'s term against itself as centroid. */
  lemma MeanOfCopies(g: Measures, point: Point, pts: seq<Point>, p: Point)
    requires |pts| > 0
    requires forall k :: 0 <= k < |pts| ==> pts[k] == p
    ensures DeviationSum(g, point, Centroid(pts), pts) / |pts| as real == Deviation(g.angle(p, point, p))
  {
    CentroidOfCopies(pts, p);
    DeviationSumOfCopies(g, point, p, pts, p);
  }

  /** Lines 216-237: the mean term over the smoothing points, measured against their centroid. */
  method GetAverageCurvature(g: Measures, point: Point, pts: seq<Point>) returns (curvature: real)
    requires |pts| > 0
    ensures curvature == DeviationSum(g, point, Centroid(pts), pts) / |pts| as real
    ensures g.AngleValid() ==> -180.0 <= curvature <= 0.0
  {
    var centroid := Centroid(pts);
    var sum := 0.0;
    var i := 0;
    while i < |pts|
      invariant 0 <= i <= |pts|
      invariant sum == DeviationSum(g, point, centroid, pts[..i])
    {
      assert pts[..i + 1][..i] == pts[..i];
      sum := sum + Deviation(g.angle(pts[i], point, centroid));
      i := i + 1;
    }
    assert pts[..i] == pts;
    curvature := sum / |pts| as real;
    if g.AngleValid() {
      DeviationSumBounds(g, point, centroid, pts);
    }
  }
}
