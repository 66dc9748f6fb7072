# Smoothed surface curvature at a mesh vertex

This project models bicpl's `get_smooth_surface_curvature`
(`Geometry/smooth_curvature.c`). The function estimates the curvature of a polygon
mesh at one vertex in three steps:

1. **Distance propagation** (`get_vertex_distances`). From the vertex, distances
   travel along mesh edges through a priority queue. The source's entry in a
   per-point array is 0. Every other entry ends up either unreached
   (`GREATER_THAN_DISTANCE`, -1) or in `[0, distance)`. An entry changes only when a
   point of a polygon around the popped occurrence gets the popped point's entry
   plus one edge length.
2. **Sampling** (`get_smoothing_points`). The scan walks every vertex of every
   polygon. A point with an entry >= 0 is expanded and then marked `ALREADY_DONE`
   (-2). For each unreached vertex of the polygons around it, the point where the
   edge crosses the smoothing distance is interpolated and appended to the samples.
   The scan as written can skip a reached point (see Findings). The corrected scan
   expands every reached point exactly once.
3. **Averaging** (`get_average_curvature`). For each sample, the angle at the vertex
   between the sample and the centroid of all samples is converted to degrees,
   and 180 is subtracted. The result is the mean of these terms, or 0 when there
   are no samples.

The modules are:

- `Geometry`: points, `PI` and `RAD_TO_DEG`, interpolation, the centroid, and the
  two measuring helpers as function values.
- `Mesh`: bicpl's flat polygon layout (`points`, `indices`, `end_indices`) and
  `get_polygons_around_vertex` as a function value.
- `PriorityQueue`: the queue as a class over a sequence of items.
- `VertexDistances`: the propagation, as methods over an `array<real>`.
- `SmoothingPoints`: the sampler, specified by a fold over a scan state (`Sampled`).
  Methods are proved to compute exactly that fold. Both the intended scan and the
  scan as written are included; see Findings.
- `AverageCurvature`: the accumulator loop, specified by `DeviationSum`.
- `SmoothCurvature`: the driver.

The propagation never states its result as a closed form. Its contract says:

- the source entry is 0;
- every other entry is unreached or in `[0, distance)`;
- every reached point's occurrence is either still in the remaining queue `rest`, or
  has every vertex of every polygon around it relaxed (`Frontier`);
- every reached point other than the source has a parent (`Rooted`). The parent is a
  different reached point whose surrounding polygons contain it, and the parent's entry plus the
  edge between them is at most the point's own entry;
- every change of an entry pushes the occurrence that made it, keyed by minus the new
  entry;
- when the loop ends because the queue ran dry, and the distance is not negative,
  `rest` is empty, so the entries are a fixpoint of relaxation.

Facts about what the code computes:

- With smoothing distance 0, only the source is reached. Yet every unreached
  neighbour across an edge of non-zero length still yields a sample, at ratio 0,
  which is the source point itself. So the result is the term of the degenerate
  angle `angle(P, P, P)`, not 0 (`SmoothCurvature.GetSmoothSurfaceCurvature`, last
  ensures clause).
- Angles lie in [0, PI], so every term lies in [-180, 0]. The result is therefore
  never positive, and 0 only when every angle is straight
  (`AverageCurvature.DeviationSumZeroIffStraight`). A positive estimate cannot
  occur.
- A popped item's key is never compared with the point's current entry. A stale
  item is simply relaxed again, which is harmless: relaxing is monotone.
- The `break` at line 102 fires only when the smoothing distance is negative. Every
  entry is then either the source's 0 or below the distance.
- A reached entry is strictly below the distance, except the source's 0.

## Model

| member | source | states |
|---|---|---|
| `Geometry.Interpolate` | Geometry/smooth_curvature.c:194-197 | Defines INTERPOLATE_POINTS as the point at parameter t on the segment from the first point to the second. |
| `Geometry.Centroid` | Geometry/smooth_curvature.c:225 | Defines get_points_centroid as the coordinate-wise mean of the points. |
| `Mesh.Polygons.Size` | Geometry/smooth_curvature.c:111 | A polygon's run of vertices, from its start index, lies inside the index list. |
| `Mesh.Polygons.Start` | Geometry/smooth_curvature.c:81-82 | Defines START_INDEX: polygon 0 starts at index 0, and every later polygon at the end index of the one before. |
| `Mesh.Polygons.FlatIndex` | Geometry/smooth_curvature.c:81-82 | Defines POINT_INDEX: a vertex's position in the index list is its polygon's start index plus the vertex number. |
| `Mesh.Polygons.PointOf` | Geometry/smooth_curvature.c:98-100 | The index stored at a valid occurrence names a point of the mesh. |
| `PriorityQueue.MaxIndex` | Geometry/smooth_curvature.c:96 | Returns a position in the queue whose key is at least every queued key. |
| `PriorityQueue.Queue.IsEmpty` | Geometry/smooth_curvature.c:94 | Defines IS_PRIORITY_QUEUE_EMPTY: the queue holds no item. |
| `PriorityQueue.Queue.constructor` | Geometry/smooth_curvature.c:88 | A new queue is empty. |
| `PriorityQueue.Queue.Insert` | Geometry/smooth_curvature.c:133 | The queue afterwards is the old queue plus the new item, and nothing else changes. |
| `PriorityQueue.Queue.RemoveMax` | Geometry/smooth_curvature.c:96 | Returns an item whose key is at least every queued key. The queue afterwards is the old one without exactly that item. |
| `VertexDistances.RelaxVertex` | Geometry/smooth_curvature.c:115-135 | Afterwards the vertex is relaxed from the expanded point, and only that vertex's point may change. A change is a first reach below the distance, or a strict decrease, to the expanded point's entry plus the edge. When the entry changes, the queue is the old queue plus exactly the item `((q, p), -new entry)`, and that occurrence is recorded as the point's setter. Otherwise the queue and the setters are unchanged. |
| `VertexDistances.RelaxPolygon` | Geometry/smooth_curvature.c:111-136 | Every vertex of the polygon is relaxed afterwards. Only points of that polygon may change, by the same rules, and at most one item per vertex is queued. Every changed point has the occurrence that set it pushed during the call, keyed by minus its new entry. |
| `VertexDistances.RelaxAround` | Geometry/smooth_curvature.c:105-137 | Every vertex of every polygon around the popped occurrence is relaxed afterwards. Only points of those polygons may change, by the same rules. Every changed point has the occurrence that set it pushed during the call, keyed by minus its new entry. |
| `VertexDistances.PushedForTrans` | Geometry/smooth_curvature.c:130-133 | Over two relaxation steps, every item pushed in either step belongs to a point changed overall, keyed by minus its final entry. |
| `VertexDistances.ViaTrans` | Geometry/smooth_curvature.c:130-133 | Over two relaxation steps, every point changed overall has the occurrence that last set it pushed since the start, keyed by minus its final entry. Unchanged points keep their setter. |
| `VertexDistances.ProgressTrans` | Geometry/smooth_curvature.c:109-137 | Two successive relaxation steps from one point, each within a set of points, compose into one step within that set. |
| `VertexDistances.ProgressWiden` | Geometry/smooth_curvature.c:113-136 | A step that changes only one vertex's point, or one polygon's points, is a step within any larger set of points. |
| `VertexDistances.RelaxPolygonStep` | Geometry/smooth_curvature.c:111-136 | Relaxing one more vertex of a polygon extends a step within the polygon's points, and the first p + 1 vertices are then relaxed. |
| `VertexDistances.PolygonPointsWithin` | Geometry/smooth_curvature.c:105-111 | The points of one polygon around the popped occurrence are among the points of all of them. |
| `VertexDistances.RelaxAroundProgress` | Geometry/smooth_curvature.c:105-136 | Relaxing one more polygon around the popped occurrence extends a step within all those polygons' points to a longer step within the same set. |
| `VertexDistances.RelaxAroundKept` | Geometry/smooth_curvature.c:105-136 | Polygons relaxed before the next polygon is relaxed stay relaxed, so after polygon i the first i + 1 are relaxed. |
| `VertexDistances.ResetDistances` | Geometry/smooth_curvature.c:78-79 | Every entry becomes `GREATER_THAN_DISTANCE`. |
| `VertexDistances.FrontierStepReached` | Geometry/smooth_curvature.c:94-138 | After one turn of the loop, every reached point's last-setting occurrence is still queued or has every vertex around it relaxed. |
| `VertexDistances.FrontierStepQueued` | Geometry/smooth_curvature.c:94-138 | After one turn of the loop, every queued occurrence is valid and its point reached. |
| `VertexDistances.FrontierStep` | Geometry/smooth_curvature.c:94-138 | One turn of the loop, which pops an item and relaxes around it, keeps the invariant: queued occurrences are valid and reached, and each reached point's last-setting occurrence is queued or relaxed. |
| `VertexDistances.RootedStep` | Geometry/smooth_curvature.c:113-133 | One relaxation step around a popped occurrence keeps every reached point other than the source rooted. A changed point takes that occurrence as parent, whose point is not the changed point itself. An unchanged point keeps its parent, whose entry can only have dropped. |
| `VertexDistances.PropagationStep` | Geometry/smooth_curvature.c:96-137 | One turn of the loop keeps the bounds on the entries, the `Frontier` invariant and the parents. |
| `VertexDistances.FrontierEmpty` | Geometry/smooth_curvature.c:94 | With the queue empty, the invariant says every vertex around every reached point's occurrence is relaxed. |
| `VertexDistances.RelaxedAroundLowered` | Geometry/smooth_curvature.c:118-130 | Lowering other entries never undoes a relaxed vertex, because the expanded point's own entry stays fixed. |
| `VertexDistances.GetVertexDistances` | Geometry/smooth_curvature.c:65-142 | The source entry is 0. Every other entry is unreached or in `[0, distance)`. Each reached point has a valid occurrence of itself, either in the remaining queue `rest` or relaxed. Each reached point other than the source has a parent: a different reached point whose surrounding polygons contain it, with the parent's entry plus the edge at most its own entry. The cap ends the loop only with `rest` non-empty. When the loop ends otherwise and the distance is not negative, `rest` is empty, so every vertex around every reached point's occurrence is relaxed. |
| `SmoothingPoints.EdgeCrossing` | Geometry/smooth_curvature.c:178-201 | One vertex's contribution to the samples: at most one crossing, and only when that vertex's point is unreached. Its other properties are stated by `EdgeCrossingCrosses`. |
| `SmoothingPoints.PolygonCrossings` | Geometry/smooth_curvature.c:176-203 | The crossings from one point over the first vertices of one polygon, in vertex order. There is at most one per vertex. |
| `SmoothingPoints.AroundCrossings` | Geometry/smooth_curvature.c:172-204 | Defines the crossings over every vertex of every polygon around a point, in loop order. Its properties are stated by `AroundCrossingsCross`. |
| `SmoothingPoints.Visit` | Geometry/smooth_curvature.c:164-207 | Defines one visit: a point with an entry >= 0 gets its crossings appended and is marked `ALREADY_DONE`; any other point is left alone. The entry list keeps its length. Its properties are stated by `VisitConsistent`. |
| `SmoothingPoints.ScanPolygon` | Geometry/smooth_curvature.c:162-208 | Defines the intended vertex loop: every vertex of one polygon, from a given vertex to the polygon's own end, is visited in order. The entry list keeps its length. |
| `SmoothingPoints.ScanPolygons` | Geometry/smooth_curvature.c:158-209 | Defines the polygon loop: each polygon from a given one to the last is scanned in order by `ScanPolygon`. The entry list keeps its length. |
| `SmoothingPoints.Sampled` | Geometry/smooth_curvature.c:158-209 | Defines the intended scan over every vertex of every polygon. Its properties are stated by `SamplerMarksEachReachedPointOnce`, `SamplerSamplesCrossRadius` and `SamplerCoversEveryOccurrence`. |
| `SmoothingPoints.SizeAfterExpansion` | Geometry/smooth_curvature.c:172-176 | Defines the bound of the vertex loop after an expansion: the size of the last polygon around the point, or the old bound when there is none. |
| `SmoothingPoints.ScanPolygonAsWritten` | Geometry/smooth_curvature.c:160-208 | Defines the vertex loop as written, bounded by the reused `size`. A position past the index list stops it and reports an overrun. The entry list keeps its length. |
| `SmoothingPoints.ScanPolygonsAsWritten` | Geometry/smooth_curvature.c:158-209 | Defines the polygon loop as written, with each polygon's bound starting from its own size, as at line 160. Its properties are stated by `AsWrittenMarksEachReachedPointOnce` and `AsWrittenSamplesCrossRadius`. |
| `SmoothingPoints.ScanPolygonAsWrittenConsistent` | Geometry/smooth_curvature.c:160-208 | The vertex loop as written keeps the scan state consistent, whatever its bound and whether or not it overruns. |
| `SmoothingPoints.ScanPolygonsAsWrittenConsistent` | Geometry/smooth_curvature.c:158-209 | The whole scan as written keeps the scan state consistent with the entries it started from. |
| `SmoothingPoints.AsWrittenMarksEachReachedPointOnce` | Geometry/smooth_curvature.c:167-207 | In the scan as written, too, an entry changes only from reached (>= 0) to `ALREADY_DONE`. The expanded points are exactly the points so marked, and none is expanded twice. |
| `SmoothingPoints.AsWrittenSamplesCrossRadius` | Geometry/smooth_curvature.c:172-204 | Every sample of the scan as written lies on a non-zero edge from an expanded, reached point to a point unreached before and after, with `ratio * edge == radius - d_in`. |
| `SmoothingPoints.EdgeCrossingCrosses` | Geometry/smooth_curvature.c:181-200 | A sample from an edge is taken only from a reached to an unreached point, over a non-zero edge. Its ratio satisfies `ratio * edge == radius - d_in`, and its point is the interpolation at that ratio. |
| `SmoothingPoints.PolygonCrossingsCross` | Geometry/smooth_curvature.c:176-203 | Every sample over one polygon's vertices crosses the radius from the expanded point. |
| `SmoothingPoints.AroundCrossingsCross` | Geometry/smooth_curvature.c:172-204 | Every sample over all polygons around a point crosses the radius from that point. |
| `SmoothingPoints.VisitConsistent` | Geometry/smooth_curvature.c:164-207 | Visiting one vertex keeps the scan consistent: marks, expansions and samples keep the properties of `Consistent`. |
| `SmoothingPoints.ScanPolygonsConsistent` | Geometry/smooth_curvature.c:158-209 | The whole scan keeps the scan state consistent with the entries it started from. |
| `SmoothingPoints.SamplerMarksEachReachedPointOnce` | Geometry/smooth_curvature.c:167-207 | An entry changes only from reached (>= 0) to `ALREADY_DONE`. The expanded points are exactly the points so marked, and none is expanded twice. |
| `SmoothingPoints.SamplerSamplesCrossRadius` | Geometry/smooth_curvature.c:172-204 | Every sample lies on an edge from an expanded, reached point to a point that is unreached before and after the scan. The edge has non-zero length, and `ratio * edge == radius - d_in` holds. |
| `SmoothingPoints.SamplerCoversEveryOccurrence` | Geometry/smooth_curvature.c:158-209 | After the intended scan, no point of any polygon still has an entry >= 0: every reached point was expanded. |
| `SmoothingPoints.ZeroRadiusSamplesSource` | Geometry/smooth_curvature.c:189-197 | With radius 0 and only the source reached, every sample is the source point itself. |
| `SmoothingPoints.QuadAndTriangle` | Geometry/smooth_curvature.c:158-176 | The example mesh of the finding is a valid mesh. |
| `SmoothingPoints.QuadVisitExpands` | Geometry/smooth_curvature.c:164-207 | On the example quad, visiting one of the first three vertices while its point is reached marks that point and appends it to the expanded points. |
| `SmoothingPoints.QuadSizeAfterExpansion` | Geometry/smooth_curvature.c:169-174 | On the example quad, the bound after expanding vertex 0 is 4, and after vertex 1 or 2 it is the triangle's 3. |
| `SmoothingPoints.QuadScanFromVertex2` | Geometry/smooth_curvature.c:162-207 | From vertex 2 with bound 3, the scan as written expands point 2 and stops. |
| `SmoothingPoints.QuadScanFromVertex1` | Geometry/smooth_curvature.c:162-207 | From vertex 1 with bound 4, the scan as written expands points 1 and 2 and stops. |
| `SmoothingPoints.QuadScanStopsEarly` | Geometry/smooth_curvature.c:162-176 | On the example quad, the scan as written expands three vertices and stops, with `size` now 3. |
| `SmoothingPoints.TriangleScanExpandsLastPoint` | Geometry/smooth_curvature.c:158-207 | On the example triangle, the scan as written expands only the point still reached. |
| `SmoothingPoints.SizeReuseSkipsReachedPoint` | Geometry/smooth_curvature.c:160-176 | The scan as written leaves a reached point of a valid occurrence unexpanded, without overrunning. The intended scan marks that point. |
| `SmoothingPoints.AroundCrossingsPrefix` | Geometry/smooth_curvature.c:172-204 | The sample points over the first i + 1 polygons around a point are those over the first i, then those of polygon i. |
| `SmoothingPoints.VisitTracks` | Geometry/smooth_curvature.c:167-207 | A reached point marked `ALREADY_DONE` with its samples appended, or an untouched point with no samples, is exactly one visit. |
| `SmoothingPoints.ScanFromStep` | Geometry/smooth_curvature.c:162-208 | The rest of the intended scan from a vertex is the rest after visiting it. |
| `SmoothingPoints.AsWrittenFromStep` | Geometry/smooth_curvature.c:162-208 | The rest of the scan as written from a vertex is the rest after visiting it, with the bound replaced after an expansion. |
| `SmoothingPoints.PolygonSamples` | Geometry/smooth_curvature.c:176-203 | Returns exactly the sample points of the polygon's vertices, in order. |
| `SmoothingPoints.CollectSamples` | Geometry/smooth_curvature.c:169-204 | Returns exactly the sample points around the point, in order. `size` is left as the size of the last polygon around the point, as at line 174. |
| `SmoothingPoints.ExpandVertex` | Geometry/smooth_curvature.c:164-207 | The new entries and the samples found are those of one visit. `size` becomes the size of the last polygon around an expanded point, and is kept otherwise. |
| `SmoothingPoints.GetSmoothingPoints` | Geometry/smooth_curvature.c:144-214 | The new entries and the samples are those of the intended scan `Sampled`. The count is the number of samples. |
| `SmoothingPoints.GetSmoothingPointsAsWritten` | Geometry/smooth_curvature.c:144-214 | The new entries and samples are those of the scan with the reused `size`. `overrun` tells whether that scan ran past the index list. |
| `AverageCurvature.Deviation` | Geometry/smooth_curvature.c:233 | Defines one sample's term: the angle in degrees, less 180. Its properties are stated by `DeviationBounds`. |
| `AverageCurvature.DeviationSum` | Geometry/smooth_curvature.c:227-234 | Defines the accumulated sum of the terms of the samples against the centroid, taken in sample order. Its properties are stated by `DeviationSumBounds` and `DeviationSumZeroIffStraight`. |
| `AverageCurvature.DeviationBounds` | Geometry/smooth_curvature.c:231-233 | An angle in [0, PI] gives a term in [-180, 0]. The term is 0 if and only if the angle is PI. |
| `AverageCurvature.DeviationSumBounds` | Geometry/smooth_curvature.c:228-234 | With valid angles, the sum of n terms lies in [-180 n, 0]. |
| `AverageCurvature.DeviationSumZeroIffStraight` | Geometry/smooth_curvature.c:228-234 | With valid angles, the sum is 0 if and only if every angle is PI. |
| `AverageCurvature.DeviationSumOfCopies` | Geometry/smooth_curvature.c:228-234 | n copies of one point sum to n times that point's term. |
| `AverageCurvature.MeanOfCopies` | Geometry/smooth_curvature.c:225-236 | When every smoothing point is the same point, the centroid is that point and the mean term is its term. |
| `AverageCurvature.GetAverageCurvature` | Geometry/smooth_curvature.c:216-237 | The result is the sum of the terms against the centroid, divided by the number of samples. With valid angles it lies in [-180, 0]. |
| `SmoothCurvature.GetSmoothSurfaceCurvature` | Geometry/smooth_curvature.c:20-54 | Propagation leaves the source at 0 and every other entry unreached or below the distance. Every reached point other than the source has a parent, as for `GetVertexDistances`. Unless the cap ended propagation (`exhausted`), a non-negative distance leaves every reached point's setting occurrence relaxed. The samples are those of the intended scan. With no samples the result is 0, otherwise the mean term. With valid angles it lies in [-180, 0]. With distance 0, the result is the term of the degenerate angle at the source. |

## Left out

- `VertexDistances.GetVertexDistances`: termination of the source loop is not proved here. A `fuel` parameter caps the number of pops. When the cap ends the loop, `exhausted` is set, `rest` is non-empty, and only the `Frontier` invariant is promised, not the fixpoint.
- `VertexDistances.GetVertexDistances`: it does not state that entries equal shortest edge-path lengths. It states the bounds, the relaxation fixpoint, and one parent step per reached point (`Rooted`). Each parent is a point other than the child, but the parent chain is not proved to lead back to the source: when distinct points lie at zero distance from each other, the invariant alone allows parents to form a cycle among them.
- `PriorityQueue.Queue.RemoveMax`: the heap behind `PRIORITY_QUEUE_STRUCT` is not modelled. Removal promises some item of maximal key, so the order among equal keys is left open.
- Floating point: all arithmetic is on exact reals. IEEE rounding, such as `d + e == d` for a tiny non-zero `e` at line 189, is not modelled.
- `distance_between_points` and `get_angle_between_points` are function values. Only non-negativity and the [0, PI] range are assumed of them, since their square-root and arc-cosine bodies are outside this file. `get_polygons_around_vertex` is likewise a function value known only to list polygon indices of the mesh.
- Memory handling (`ALLOC`, `FREE`, `DELETE_PRIORITY_QUEUE`, the growth of `ADD_ELEMENT_TO_ARRAY`) is not modelled.
- `SmoothingPoints.GetSmoothingPointsAsWritten`: an index past the end of the index list is undefined behaviour in C. Here it stops the scan and sets `overrun`.
- `SmoothCurvature.GetSmoothSurfaceCurvature`: besides the curvature it returns `exhausted`, and as ghost values the propagation's setters and parents. These exist only because the propagation loop is capped by `fuel`; the C function returns the curvature alone.
- `SmoothCurvature.GetSmoothSurfaceCurvature`: it calls the intended sampler `GetSmoothingPoints`, not the one as written. The `size` reuse is kept in `GetSmoothingPointsAsWritten` and described under Findings.
- Determinism, and monotonicity of the result in the smoothing distance, are not stated.

## Findings

| source | as written | input that shows it | evidently intended | confidence | as-written member | corrected member |
|---|---|---|---|---|---|---|
| Geometry/smooth_curvature.c:160-176 | The vertex loop's bound `size` is overwritten at line 174 by the size of each polygon around an expanded point. The loop over the current polygon then runs to the size of the last such polygon. | A quad (0 1 2 3) and a triangle (1 2 4) sharing edge 1-2, with all points reached. After vertex 2 of the quad is expanded, `size` is 3, so vertex 3 (point 3) is never visited and never expanded. A larger last polygon instead makes the loop read vertices of the next polygon, or past the index list. | Each polygon's vertex loop runs over exactly that polygon's vertices, so every reached point is expanded. | not executed | `SmoothingPoints.GetSmoothingPointsAsWritten`, `SmoothingPoints.SizeReuseSkipsReachedPoint` | `SmoothingPoints.GetSmoothingPoints`, `SmoothingPoints.SamplerCoversEveryOccurrence` |
