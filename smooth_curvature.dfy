/**
 * get_smooth_surface_curvature: the curvature estimate at one vertex of a polygon mesh.
 * Propagate distances out from the vertex up to the smoothing distance, sample the
 * points where edges cross that distance, and average the angle terms of the samples
 * against their centroid; with no samples the estimate is 0.
 */
module SmoothCurvature {
  import opened Geometry
  import opened Mesh
  import opened VertexDistances
  import opened SmoothingPoints
  import opened AverageCurvature

  /**
   * Lines 20-54. `reached` is the distance array as propagation leaves it, and `samples`
   * the smoothing points drawn from it. `fuel` bounds the propagation loop, and `exhausted`
   * says that the bound ended it (see GetVertexDistances); `via` and `par` are the
   * propagation's last-setting occurrences and parents.
   */
  method GetSmoothSurfaceCurvature(m: Polygons, g: Measures, poly: nat, vertex: nat, smoothingDistance: real, fuel: nat)
    returns (curvature: real, exhausted: bool, ghost reached: seq<real>, ghost via: seq<Occurrence>,
             ghost par: seq<Occurrence>, ghost samples: seq<Point>)
    requires m.Valid() && g.DistanceValid()
    requires m.ValidOcc(Occurrence(poly, vertex))
    ensures var src := m.PointOf(Occurrence(poly, vertex));
            |reached| == |m.points| && reached[src] == 0.0
            && forall j :: 0 <= j < |reached| && j != src ==>
                 reached[j] == GREATER_THAN_DISTANCE || 0.0 <= reached[j] < smoothingDistance
    ensures |via| == |m.points| && forall j :: 0 <= j < |reached| && reached[j] >= 0.0 ==> m.ValidOcc(via[j]) && m.PointOf(via[j]) == j
    ensures !exhausted && smoothingDistance >= 0.0 ==>
              forall j :: 0 <= j < |reached| && reached[j] >= 0.0 ==> RelaxedAround(m, g, reached, via[j], smoothingDistance)
    ensures Rooted(m, g, reached, m.PointOf(Occurrence(poly, vertex)), par)
    ensures samples == PointsOf(Sampled(m, g, smoothingDistance, reached).crossings)
    ensures |samples| == 0 ==> curvature == 0.0
    ensures |samples| > 0 ==>
              var point := m.points[m.PointOf(Occurrence(poly, vertex))];
              curvature == DeviationSum(g, point, Centroid(samples), samples) / |samples| as real
    ensures g.AngleValid() ==> -180.0 <= curvature <= 0.0
    ensures smoothingDistance == 0.0 && |samples| > 0 ==>
              var point := m.points[m.PointOf(Occurrence(poly, vertex))];
              curvature == Deviation(g.angle(point, point, point))
  {
    var src := m.PointOf(Occurrence(poly, vertex));
    var distances := new real[|m.points|];
    ghost var rest;
    exhausted, rest, via, par := GetVertexDistances(m, g, poly, vertex, smoothingDistance, distances, fuel);
    reached := distances[..];
    var n, pts := GetSmoothingPoints(m, g, smoothingDistance, distances);
    samples := pts;
    if n > 0 {
      curvature := GetAverageCurvature(g, m.points[src], pts);
      if smoothingDistance == 0.0 {
        ZeroRadiusSamplesSource(m, g, reached, src);
        MeanOfCopies(g, m.points[src], pts, m.points[src]);
      }
    } else {
      curvature := 0.0;
    }
  }
}
