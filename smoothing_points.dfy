/**
 * get_smoothing_points: scan every vertex of every polygon; each point that propagation
 * reached (entry >= 0) is expanded once. For every vertex around it that is still
 * unreached, the point where the edge crosses the radius is interpolated and appended
 * to the output. Then the expanded point is marked ALREADY_DONE.
 *
 * The scan is specified by functions over a ScanState (entries, crossings found,
 * points expanded), and the methods are proved to compute exactly that.
 */
module SmoothingPoints {
  import opened Geometry
  import opened Mesh
  import opened VertexDistances

  /** The entry of a point that has been expanded. */
  const ALREADY_DONE: real := -2.0

  /** One sampled crossing: the edge from `inside` to `outside`, its parameter and the interpolated point. */
  datatype Crossing = Crossing(inside: nat, outside: nat, ratio: real, point: Point)

  /** Lines 178-201: the crossing, if any, on the edge from point `pi` to vertex `p` of polygon `q`. */
  function EdgeCrossing(m: Polygons, g: Measures, radius: real, d: seq<real>, pi: nat, q: nat, p: nat): (r: seq<Crossing>)
    requires m.Valid() && |d| == |m.points| && pi < |m.points|
    requires q < m.NItems() && p < m.Size(q)
    ensures |r| <= 1
    ensures |r| == 1 ==> d[m.PointOf(Occurrence(q, p))] == GREATER_THAN_DISTANCE
  {
    var next := m.PointOf(Occurrence(q, p));
    if d[next] == GREATER_THAN_DISTANCE then
      var dist := d[pi] + m.Edge(g, pi, next);
      if dist != d[pi] then
        var ratio := (radius - d[pi]) / (dist - d[pi]);
        [Crossing(pi, next, ratio, Interpolate(m.points[pi], m.points[next], ratio))]
      else []
    else []
  }

  /** The crossings from `pi` over vertices 0 .. upto-1 of polygon `q`. */
  function PolygonCrossings(m: Polygons, g: Measures, radius: real, d: seq<real>, pi: nat, q: nat, upto: nat): (r: seq<Crossing>)
    requires m.Valid() && |d| == |m.points| && pi < |m.points|
    requires q < m.NItems() && upto <= m.Size(q)
    ensures |r| <= upto
  {
    if upto == 0 then []
    else PolygonCrossings(m, g, radius, d, pi, q, upto - 1) + EdgeCrossing(m, g, radius, d, pi, q, upto - 1)
  }

  /** Lines 172-204: the crossings from `pi` over every vertex of every polygon in `polys`, in order. */
  function AroundCrossings(m: Polygons, g: Measures, radius: real, d: seq<real>, pi: nat, polys: seq<nat>): seq<Crossing>
    requires m.Valid() && |d| == |m.points| && pi < |m.points|
    requires forall k :: 0 <= k < |polys| ==> polys[k] < m.NItems()
  {
    if |polys| == 0 then []
    else
      var last := |polys| - 1;
      assert polys[last] < m.NItems();
      AroundCrossings(m, g, radius, d, pi, polys[..last]) + PolygonCrossings(m, g, radius, d, pi, polys[last], m.Size(polys[last]))
  }

  function PointsOf(cs: seq<Crossing>): seq<Point> {
    seq(|cs|, k requires 0 <= k < |cs| => cs[k].point)
  }

  lemma PointsOfAppend(a: seq<Crossing>, b: seq<Crossing>)
    ensures PointsOf(a + b) == PointsOf(a) + PointsOf(b)
  {
  }

  /** The points found over the first i + 1 polygons are those over the first i, then those of polygon i. */
  lemma AroundCrossingsPrefix(m: Polygons, g: Measures, radius: real, d: seq<real>, pi: nat, polys: seq<nat>, i: nat)
    requires m.Valid() && |d| == |m.points| && pi < |m.points|
    requires forall k :: 0 <= k < |polys| ==> polys[k] < m.NItems()
    requires i < |polys|
    ensures PointsOf(AroundCrossings(m, g, radius, d, pi, polys[..i + 1]))
            == PointsOf(AroundCrossings(m, g, radius, d, pi, polys[..i]))
               + PointsOf(PolygonCrossings(m, g, radius, d, pi, polys[i], m.Size(polys[i])))
  {
    assert polys[..i + 1][..i] == polys[..i];
    PointsOfAppend(AroundCrossings(m, g, radius, d, pi, polys[..i]),
                   PolygonCrossings(m, g, radius, d, pi, polys[i], m.Size(polys[i])));
  }

  /** The sampler's state: the entries, the crossings found so far, and the points expanded so far. */
  datatype ScanState = ScanState(d: seq<real>, crossings: seq<Crossing>, expanded: seq<nat>)

  /**
   * Lines 164-207: visit the vertex stored at position `flat` of the index list, reached as
   * occurrence `o`. A point with entry >= 0 is expanded: its crossings are appended and its
   * entry becomes ALREADY_DONE; any other point is left alone.
   */
  function Visit(m: Polygons, g: Measures, radius: real, s: ScanState, flat: nat, o: Occurrence): (r: ScanState)
    requires m.Valid() && |s.d| == |m.points| && flat < |m.indices|
    ensures |r.d| == |s.d|
  {
    var pi := m.indices[flat];
    if s.d[pi] >= 0.0 then
      ScanState(s.d[pi := ALREADY_DONE],
                s.crossings + AroundCrossings(m, g, radius, s.d, pi, m.around(o.poly, o.vertex)),
                s.expanded + [pi])
    else s
  }

  /** Visit vertices `vertex`, `vertex` + 1, ... of polygon `q`, up to its own size. */
  function ScanPolygon(m: Polygons, g: Measures, radius: real, s: ScanState, q: nat, vertex: nat): (r: ScanState)
    requires m.Valid() && |s.d| == |m.points|
    requires q < m.NItems() && vertex <= m.Size(q)
    ensures |r.d| == |s.d|
    decreases m.Size(q) - vertex
  {
    if vertex == m.Size(q) then s
    else
      var s' := Visit(m, g, radius, s, m.FlatIndex(q, vertex), Occurrence(q, vertex));
      ScanPolygon(m, g, radius, s', q, vertex + 1)
  }

  /** Scan polygons `q`, `q` + 1, ... to the last. */
  function ScanPolygons(m: Polygons, g: Measures, radius: real, s: ScanState, q: nat): (r: ScanState)
    requires m.Valid() && |s.d| == |m.points| && q <= m.NItems()
    ensures |r.d| == |s.d|
    decreases m.NItems() - q
  {
    if q == m.NItems() then s
    else ScanPolygons(m, g, radius, ScanPolygon(m, g, radius, s, q, 0), q + 1)
  }

  /** The whole scan from the entries `d0` that propagation left. */
  function Sampled(m: Polygons, g: Measures, radius: real, d0: seq<real>): (r: ScanState)
    requires m.Valid() && |d0| == |m.points|
    ensures |r.d| == |d0|
  {
    ScanPolygons(m, g, radius, ScanState(d0, [], []), 0)
  }

  // ---------------------------------------------------------------------------------
  // The scan as the source writes it: `size` is reused.

  /**
   * The vertex-loop bound after expanding occurrence (`q`, `vertex`): the inner loop has
   * reassigned `size` to the size of each polygon around the vertex, so it ends as the
   * size of the last one (line 174), and the vertex loop re-reads it.
   */
  function SizeAfterExpansion(m: Polygons, q: nat, vertex: nat, size: nat): nat
    requires m.Valid()
  {
    var polys := m.around(q, vertex);
    if |polys| == 0 then size else m.Size(polys[|polys| - 1])
  }

  /**
   * Lines 162-208 as written: the vertex loop runs while `vertex < size`, where `size` may
   * have been overwritten. A position past the end of the index list is a read out of
   * bounds in C; here it stops the scan and the second component reports it.
   */
  function ScanPolygonAsWritten(m: Polygons, g: Measures, radius: real, s: ScanState, q: nat, vertex: nat, size: nat)
    : (r: (ScanState, bool))
    requires m.Valid() && |s.d| == |m.points| && q < m.NItems()
    ensures |r.0.d| == |s.d|
    decreases |m.indices| - vertex
  {
    if size <= vertex then (s, false)
    else if |m.indices| <= m.FlatIndex(q, vertex) then (s, true)
    else
      var flat := m.FlatIndex(q, vertex);
      var size' := if s.d[m.indices[flat]] >= 0.0 then SizeAfterExpansion(m, q, vertex, size) else size;
      ScanPolygonAsWritten(m, g, radius, Visit(m, g, radius, s, flat, Occurrence(q, vertex)), q, vertex + 1, size')
  }

  /** Lines 158-209 as written: each polygon's vertex loop starts from that polygon's own size (line 160). */
  function ScanPolygonsAsWritten(m: Polygons, g: Measures, radius: real, s: ScanState, q: nat): (r: (ScanState, bool))
    requires m.Valid() && |s.d| == |m.points| && q <= m.NItems()
    ensures |r.0.d| == |s.d|
    decreases m.NItems() - q
  {
    if q == m.NItems() then (s, false)
    else
      var (s', overrun) := ScanPolygonAsWritten(m, g, radius, s, q, 0, m.Size(q));
      if overrun then (s', true) else ScanPolygonsAsWritten(m, g, radius, s', q + 1)
  }

  /** The rest of the scan, from vertex `vertex` of polygon `q`. */
  ghost function ScanFrom(m: Polygons, g: Measures, radius: real, s: ScanState, q: nat, vertex: nat): (r: ScanState)
    requires m.Valid() && |s.d| == |m.points| && q < m.NItems() && vertex <= m.Size(q)
  {
    ScanPolygons(m, g, radius, ScanPolygon(m, g, radius, s, q, vertex), q + 1)
  }

  /** One vertex of the scan: visit it and go on with the next. */
  lemma ScanFromStep(m: Polygons, g: Measures, radius: real, s: ScanState, q: nat, vertex: nat)
    requires m.Valid() && |s.d| == |m.points| && q < m.NItems() && vertex < m.Size(q)
    ensures ScanFrom(m, g, radius, s, q, vertex)
            == ScanFrom(m, g, radius, Visit(m, g, radius, s, m.FlatIndex(q, vertex), Occurrence(q, vertex)), q, vertex + 1)
  {
  }

  /** The rest of the scan as written, from vertex `vertex` of polygon `q` with bound `size`. */
  ghost function AsWrittenFrom(m: Polygons, g: Measures, radius: real, s: ScanState, q: nat, vertex: nat, size: nat)
    : (r: (ScanState, bool))
    requires m.Valid() && |s.d| == |m.points| && q < m.NItems()
  {
    var (s', overrun) := ScanPolygonAsWritten(m, g, radius, s, q, vertex, size);
    if overrun then (s', true) else ScanPolygonsAsWritten(m, g, radius, s', q + 1)
  }

  /** One vertex of the scan as written: visit it, and widen the bound when its point was expanded. */
  lemma AsWrittenFromStep(m: Polygons, g: Measures, radius: real, s: ScanState, q: nat, vertex: nat, size: nat, size': nat)
    requires m.Valid() && |s.d| == |m.points| && q < m.NItems()
    requires vertex < size && m.FlatIndex(q, vertex) < |m.indices|
    requires size' == if s.d[m.indices[m.FlatIndex(q, vertex)]] >= 0.0 then SizeAfterExpansion(m, q, vertex, size) else size
    ensures AsWrittenFrom(m, g, radius, s, q, vertex, size)
            == AsWrittenFrom(m, g, radius, Visit(m, g, radius, s, m.FlatIndex(q, vertex), Occurrence(q, vertex)), q, vertex + 1, size')
  {
  }

  // ---------------------------------------------------------------------------------
  // What the scan guarantees

  /**
   * `c` is a sample on a radius-crossing edge: from a reached point `inside` to an unreached
   * point `outside` at non-zero length, at the parameter where the inside entry plus that
   * fraction of the edge equals the radius.
   */
  ghost predicate CrossesRadius(m: Polygons, g: Measures, radius: real, d: seq<real>, c: Crossing)
    requires m.Valid() && |d| == |m.points|
  {
    c.inside < |m.points| && c.outside < |m.points|
    && d[c.inside] >= 0.0 && d[c.outside] == GREATER_THAN_DISTANCE
    && m.Edge(g, c.inside, c.outside) != 0.0
    && c.ratio * m.Edge(g, c.inside, c.outside) == radius - d[c.inside]
    && c.point == Interpolate(m.points[c.inside], m.points[c.outside], c.ratio)
  }

  /** Every crossing in `cs` leaves point `pi` and crosses the radius. */
  ghost predicate AllCrossFrom(m: Polygons, g: Measures, radius: real, d: seq<real>, pi: nat, cs: seq<Crossing>)
    requires m.Valid() && |d| == |m.points|
  {
    forall k :: 0 <= k < |cs| ==> cs[k].inside == pi && CrossesRadius(m, g, radius, d, cs[k])
  }

  lemma AllCrossFromAppend(m: Polygons, g: Measures, radius: real, d: seq<real>, pi: nat, a: seq<Crossing>, b: seq<Crossing>)
    requires m.Valid() && |d| == |m.points|
    requires AllCrossFrom(m, g, radius, d, pi, a) && AllCrossFrom(m, g, radius, d, pi, b)
    ensures AllCrossFrom(m, g, radius, d, pi, a + b)
  {
    forall k | 0 <= k < |a + b|
      ensures (a + b)[k].inside == pi && CrossesRadius(m, g, radius, d, (a + b)[k])
    {
      if k >= |a| {
        assert (a + b)[k] == b[k - |a|];
      }
    }
  }

  lemma EdgeCrossingCrosses(m: Polygons, g: Measures, radius: real, d: seq<real>, pi: nat, q: nat, p: nat)
    requires m.Valid() && |d| == |m.points| && pi < |m.points| && d[pi] >= 0.0
    requires q < m.NItems() && p < m.Size(q)
    ensures AllCrossFrom(m, g, radius, d, pi, EdgeCrossing(m, g, radius, d, pi, q, p))
  {
    var next := m.PointOf(Occurrence(q, p));
    var cs := EdgeCrossing(m, g, radius, d, pi, q, p);
    if |cs| > 0 {
      var e := m.Edge(g, pi, next);
      var ratio := (radius - d[pi]) / ((d[pi] + e) - d[pi]);
      assert e != 0.0;
      assert ratio * e == radius - d[pi];
      assert cs[0] == Crossing(pi, next, ratio, Interpolate(m.points[pi], m.points[next], ratio));
    }
  }

  lemma {:induction false} PolygonCrossingsCross(m: Polygons, g: Measures, radius: real, d: seq<real>, pi: nat, q: nat, upto: nat)
    requires m.Valid() && |d| == |m.points| && pi < |m.points| && d[pi] >= 0.0
    requires q < m.NItems() && upto <= m.Size(q)
    ensures AllCrossFrom(m, g, radius, d, pi, PolygonCrossings(m, g, radius, d, pi, q, upto))
  {
    if upto > 0 {
      PolygonCrossingsCross(m, g, radius, d, pi, q, upto - 1);
      EdgeCrossingCrosses(m, g, radius, d, pi, q, upto - 1);
      AllCrossFromAppend(m, g, radius, d, pi, PolygonCrossings(m, g, radius, d, pi, q, upto - 1),
                         EdgeCrossing(m, g, radius, d, pi, q, upto - 1));
    }
  }

  /** Every crossing found around a reached point leaves from that point and crosses the radius. */
  lemma {:induction false} AroundCrossingsCross(m: Polygons, g: Measures, radius: real, d: seq<real>, pi: nat, polys: seq<nat>)
    requires m.Valid() && |d| == |m.points| && pi < |m.points| && d[pi] >= 0.0
    requires forall k :: 0 <= k < |polys| ==> polys[k] < m.NItems()
    ensures AllCrossFrom(m, g, radius, d, pi, AroundCrossings(m, g, radius, d, pi, polys))
  {
    if |polys| > 0 {
      var last := |polys| - 1;
      AroundCrossingsCross(m, g, radius, d, pi, polys[..last]);
      PolygonCrossingsCross(m, g, radius, d, pi, polys[last], m.Size(polys[last]));
      AllCrossFromAppend(m, g, radius, d, pi, AroundCrossings(m, g, radius, d, pi, polys[..last]),
                         PolygonCrossings(m, g, radius, d, pi, polys[last], m.Size(polys[last])));
    }
  }

  /**
   * What holds of a scan state reached from entries `d0`: an entry changed only from >= 0 to
   * ALREADY_DONE; the expanded points are exactly those, each listed once; every crossing
   * leaves an expanded point and crosses the radius as measured by `d0`.
   */
  ghost predicate Consistent(m: Polygons, g: Measures, radius: real, d0: seq<real>, s: ScanState)
    requires m.Valid() && |d0| == |m.points|
  {
    |s.d| == |d0|
    && (forall j :: 0 <= j < |d0| ==> s.d[j] == d0[j] || (d0[j] >= 0.0 && s.d[j] == ALREADY_DONE))
    && (forall k :: 0 <= k < |s.expanded| ==> s.expanded[k] < |d0|)
    && (forall j :: 0 <= j < |d0| ==> (j in s.expanded <==> d0[j] >= 0.0 && s.d[j] == ALREADY_DONE))
    && (forall a, b :: 0 <= a < b < |s.expanded| ==> s.expanded[a] != s.expanded[b])
    && (forall k :: 0 <= k < |s.crossings| ==>
          s.crossings[k].inside in s.expanded && CrossesRadius(m, g, radius, d0, s.crossings[k]))
  }

  lemma VisitConsistent(m: Polygons, g: Measures, radius: real, d0: seq<real>, s: ScanState, flat: nat, o: Occurrence)
    requires m.Valid() && |d0| == |m.points| && flat < |m.indices|
    requires Consistent(m, g, radius, d0, s)
    ensures Consistent(m, g, radius, d0, Visit(m, g, radius, s, flat, o))
  {
    var pi := m.indices[flat];
    if s.d[pi] >= 0.0 {
      var polys := m.around(o.poly, o.vertex);
      var cs := AroundCrossings(m, g, radius, s.d, pi, polys);
      AroundCrossingsCross(m, g, radius, s.d, pi, polys);
      var r := Visit(m, g, radius, s, flat, o);
      assert pi !in s.expanded;
      forall k | 0 <= k < |r.crossings|
        ensures r.crossings[k].inside in r.expanded && CrossesRadius(m, g, radius, d0, r.crossings[k])
      {
        if k >= |s.crossings| {
          var c := cs[k - |s.crossings|];
          assert r.crossings[k] == c;
          assert CrossesRadius(m, g, radius, s.d, c);
        }
      }
    }
  }

  lemma {:induction false} ScanPolygonConsistent(m: Polygons, g: Measures, radius: real, d0: seq<real>, s: ScanState, q: nat, vertex: nat)
    requires m.Valid() && |d0| == |m.points| && q < m.NItems() && vertex <= m.Size(q)
    requires Consistent(m, g, radius, d0, s)
    ensures Consistent(m, g, radius, d0, ScanPolygon(m, g, radius, s, q, vertex))
    decreases m.Size(q) - vertex
  {
    if vertex < m.Size(q) {
      VisitConsistent(m, g, radius, d0, s, m.FlatIndex(q, vertex), Occurrence(q, vertex));
      ScanPolygonConsistent(m, g, radius, d0, Visit(m, g, radius, s, m.FlatIndex(q, vertex), Occurrence(q, vertex)), q, vertex + 1);
    }
  }

  lemma {:induction false} ScanPolygonsConsistent(m: Polygons, g: Measures, radius: real, d0: seq<real>, s: ScanState, q: nat)
    requires m.Valid() && |d0| == |m.points| && q <= m.NItems()
    requires Consistent(m, g, radius, d0, s)
    ensures Consistent(m, g, radius, d0, ScanPolygons(m, g, radius, s, q))
    decreases m.NItems() - q
  {
    if q < m.NItems() {
      ScanPolygonConsistent(m, g, radius, d0, s, q, 0);
      ScanPolygonsConsistent(m, g, radius, d0, ScanPolygon(m, g, radius, s, q, 0), q + 1);
    }
  }

  lemma SampledConsistent(m: Polygons, g: Measures, radius: real, d0: seq<real>)
    requires m.Valid() && |d0| == |m.points|
    ensures Consistent(m, g, radius, d0, Sampled(m, g, radius, d0))
  {
    ScanPolygonsConsistent(m, g, radius, d0, ScanState(d0, [], []), 0);
  }

  /**
   * The scan changes an entry only by marking a reached point (entry >= 0) ALREADY_DONE, so an
   * unreached entry stays GREATER_THAN_DISTANCE; and each point is expanded at most once, the
   * expanded points being exactly those marked.
   */
  lemma SamplerMarksEachReachedPointOnce(m: Polygons, g: Measures, radius: real, d0: seq<real>)
    requires m.Valid() && |d0| == |m.points|
    ensures var r := Sampled(m, g, radius, d0);
            && (forall j :: 0 <= j < |d0| ==> r.d[j] == d0[j] || (d0[j] >= 0.0 && r.d[j] == ALREADY_DONE))
            && (forall j :: 0 <= j < |d0| ==> (j in r.expanded <==> d0[j] >= 0.0 && r.d[j] == ALREADY_DONE))
            && (forall a, b :: 0 <= a < b < |r.expanded| ==> r.expanded[a] != r.expanded[b])
  {
    SampledConsistent(m, g, radius, d0);
  }

  /**
   * Every sample lies on an edge from an expanded, reached point to a point that propagation
   * never reached and that is still unreached afterwards, the edge has non-zero length, and
   * ratio * (dist - d_in) == radius - d_in.
   */
  lemma SamplerSamplesCrossRadius(m: Polygons, g: Measures, radius: real, d0: seq<real>)
    requires m.Valid() && |d0| == |m.points|
    ensures var r := Sampled(m, g, radius, d0);
            forall k :: 0 <= k < |r.crossings| ==>
              r.crossings[k].inside in r.expanded
              && CrossesRadius(m, g, radius, d0, r.crossings[k])
              && r.d[r.crossings[k].outside] == GREATER_THAN_DISTANCE
  {
    SampledConsistent(m, g, radius, d0);
  }

  /**
   * With radius 0 and only the source reached (entry 0, every other entry unreached), each
   * crossing has ratio 0, so every sample is the source point itself.
   */
  lemma ZeroRadiusSamplesSource(m: Polygons, g: Measures, d0: seq<real>, src: nat)
    requires m.Valid() && |d0| == |m.points| && src < |d0| && d0[src] == 0.0
    requires forall j :: 0 <= j < |d0| && j != src ==> d0[j] == GREATER_THAN_DISTANCE
    ensures var samples := PointsOf(Sampled(m, g, 0.0, d0).crossings);
            forall k :: 0 <= k < |samples| ==> samples[k] == m.points[src]
  {
    SamplerSamplesCrossRadius(m, g, 0.0, d0);
    var cs := Sampled(m, g, 0.0, d0).crossings;
    forall k | 0 <= k < |cs|
      ensures cs[k].point == m.points[src]
    {
      var c := cs[k];
      assert CrossesRadius(m, g, 0.0, d0, c);
      assert c.inside == src;
      assert c.ratio * m.Edge(g, c.inside, c.outside) == 0.0;
      assert c.ratio == 0.0;
      InterpolateEnds(m.points[src], m.points[c.outside]);
    }
  }

  /** The scan as written keeps the state consistent too, whether or not it overruns. */
  lemma {:induction false} ScanPolygonAsWrittenConsistent(m: Polygons, g: Measures, radius: real, d0: seq<real>,
                                                          s: ScanState, q: nat, vertex: nat, size: nat)
    requires m.Valid() && |d0| == |m.points| && q < m.NItems()
    requires Consistent(m, g, radius, d0, s)
    ensures Consistent(m, g, radius, d0, ScanPolygonAsWritten(m, g, radius, s, q, vertex, size).0)
    decreases |m.indices| - vertex
  {
    if vertex < size && m.FlatIndex(q, vertex) < |m.indices| {
      var flat := m.FlatIndex(q, vertex);
      var size' := if s.d[m.indices[flat]] >= 0.0 then SizeAfterExpansion(m, q, vertex, size) else size;
      VisitConsistent(m, g, radius, d0, s, flat, Occurrence(q, vertex));
      ScanPolygonAsWrittenConsistent(m, g, radius, d0, Visit(m, g, radius, s, flat, Occurrence(q, vertex)), q, vertex + 1, size');
    }
  }

  lemma {:induction false} ScanPolygonsAsWrittenConsistent(m: Polygons, g: Measures, radius: real, d0: seq<real>, s: ScanState, q: nat)
    requires m.Valid() && |d0| == |m.points| && q <= m.NItems()
    requires Consistent(m, g, radius, d0, s)
    ensures Consistent(m, g, radius, d0, ScanPolygonsAsWritten(m, g, radius, s, q).0)
    decreases m.NItems() - q
  {
    if q < m.NItems() {
      ScanPolygonAsWrittenConsistent(m, g, radius, d0, s, q, 0, m.Size(q));
      var r := ScanPolygonAsWritten(m, g, radius, s, q, 0, m.Size(q));
      if !r.1 {
        ScanPolygonsAsWrittenConsistent(m, g, radius, d0, r.0, q + 1);
      }
    }
  }

  /**
   * The scan as written also changes an entry only by marking a reached point ALREADY_DONE,
   * and expands each point at most once, the expanded points being exactly those marked.
   */
  lemma AsWrittenMarksEachReachedPointOnce(m: Polygons, g: Measures, radius: real, d0: seq<real>)
    requires m.Valid() && |d0| == |m.points|
    ensures var r := ScanPolygonsAsWritten(m, g, radius, ScanState(d0, [], []), 0).0;
            && (forall j :: 0 <= j < |d0| ==> r.d[j] == d0[j] || (d0[j] >= 0.0 && r.d[j] == ALREADY_DONE))
            && (forall j :: 0 <= j < |d0| ==> (j in r.expanded <==> d0[j] >= 0.0 && r.d[j] == ALREADY_DONE))
            && (forall a, b :: 0 <= a < b < |r.expanded| ==> r.expanded[a] != r.expanded[b])
  {
    ScanPolygonsAsWrittenConsistent(m, g, radius, d0, ScanState(d0, [], []), 0);
  }

  /** Every sample of the scan as written also lies on an edge crossing the radius from an expanded point. */
  lemma AsWrittenSamplesCrossRadius(m: Polygons, g: Measures, radius: real, d0: seq<real>)
    requires m.Valid() && |d0| == |m.points|
    ensures var r := ScanPolygonsAsWritten(m, g, radius, ScanState(d0, [], []), 0).0;
            forall k :: 0 <= k < |r.crossings| ==>
              r.crossings[k].inside in r.expanded
              && CrossesRadius(m, g, radius, d0, r.crossings[k])
              && r.d[r.crossings[k].outside] == GREATER_THAN_DISTANCE
  {
    ScanPolygonsAsWrittenConsistent(m, g, radius, d0, ScanState(d0, [], []), 0);
  }

  // Every occurrence is visited: each reached point of the mesh ends up expanded.

  lemma {:induction false} ScanPolygonKeepsNegative(m: Polygons, g: Measures, radius: real, s: ScanState, q: nat, vertex: nat, j: nat)
    requires m.Valid() && |s.d| == |m.points| && q < m.NItems() && vertex <= m.Size(q)
    requires j < |s.d| && s.d[j] < 0.0
    ensures ScanPolygon(m, g, radius, s, q, vertex).d[j] == s.d[j]
    decreases m.Size(q) - vertex
  {
    if vertex < m.Size(q) {
      ScanPolygonKeepsNegative(m, g, radius, Visit(m, g, radius, s, m.FlatIndex(q, vertex), Occurrence(q, vertex)), q, vertex + 1, j);
    }
  }

  lemma {:induction false} ScanPolygonsKeepsNegative(m: Polygons, g: Measures, radius: real, s: ScanState, q: nat, j: nat)
    requires m.Valid() && |s.d| == |m.points| && q <= m.NItems()
    requires j < |s.d| && s.d[j] < 0.0
    ensures ScanPolygons(m, g, radius, s, q).d[j] == s.d[j]
    decreases m.NItems() - q
  {
    if q < m.NItems() {
      ScanPolygonKeepsNegative(m, g, radius, s, q, 0, j);
      ScanPolygonsKeepsNegative(m, g, radius, ScanPolygon(m, g, radius, s, q, 0), q + 1, j);
    }
  }

  lemma {:induction false} ScanPolygonCovers(m: Polygons, g: Measures, radius: real, s: ScanState, q: nat, vertex: nat, v: nat)
    requires m.Valid() && |s.d| == |m.points| && q < m.NItems()
    requires vertex <= v < m.Size(q)
    ensures ScanPolygon(m, g, radius, s, q, vertex).d[m.PointOf(Occurrence(q, v))] < 0.0
    decreases m.Size(q) - vertex
  {
    var s' := Visit(m, g, radius, s, m.FlatIndex(q, vertex), Occurrence(q, vertex));
    if vertex == v {
      ScanPolygonKeepsNegative(m, g, radius, s', q, vertex + 1, m.PointOf(Occurrence(q, v)));
    } else {
      ScanPolygonCovers(m, g, radius, s', q, vertex + 1, v);
    }
  }

  lemma {:induction false} ScanPolygonsCovers(m: Polygons, g: Measures, radius: real, s: ScanState, q: nat, o: Occurrence)
    requires m.Valid() && |s.d| == |m.points| && q <= m.NItems()
    requires m.ValidOcc(o) && q <= o.poly
    ensures ScanPolygons(m, g, radius, s, q).d[m.PointOf(o)] < 0.0
    decreases m.NItems() - q
  {
    var s' := ScanPolygon(m, g, radius, s, q, 0);
    if o.poly == q {
      ScanPolygonCovers(m, g, radius, s, q, 0, o.vertex);
      ScanPolygonsKeepsNegative(m, g, radius, s', q + 1, m.PointOf(o));
    } else {
      ScanPolygonsCovers(m, g, radius, s', q + 1, o);
    }
  }

  /** After the scan no point of any polygon is left with an entry >= 0: every reached point of the mesh was expanded. */
  lemma SamplerCoversEveryOccurrence(m: Polygons, g: Measures, radius: real, d0: seq<real>)
    requires m.Valid() && |d0| == |m.points|
    ensures forall o :: m.ValidOcc(o) ==> Sampled(m, g, radius, d0).d[m.PointOf(o)] < 0.0
  {
    forall o | m.ValidOcc(o)
      ensures Sampled(m, g, radius, d0).d[m.PointOf(o)] < 0.0
    {
      ScanPolygonsCovers(m, g, radius, ScanState(d0, [], []), 0, o);
    }
  }

  // ---------------------------------------------------------------------------------
  // The reused `size` skips a vertex

  /**
   * A quad (0 1 2 3) and a triangle (1 2 4) sharing the edge 1-2; the polygons around a
   * vertex are those containing its point, listed in polygon order.
   */
  function QuadAndTriangle(): (m: Polygons)
    ensures m.Valid()
  {
    var o := Point(0.0, 0.0, 0.0);
    Polygons([o, o, o, o, o], [0, 1, 2, 3, 1, 2, 4], [4, 7],
             (q: nat, v: nat) => if q == 0 && (v == 0 || v == 3) then [0] else if q == 1 && v == 2 then [1] else [0, 1])
  }

  /** Vertex v < 3 of the quad is point v; visiting it while reached expands it. */
  lemma QuadVisitExpands(g: Measures, radius: real, s: ScanState, v: nat)
    requires |s.d| == 5 && v < 3 && s.d[v] >= 0.0
    ensures var r := Visit(QuadAndTriangle(), g, radius, s, v, Occurrence(0, v));
            r.d == s.d[v := ALREADY_DONE] && r.expanded == s.expanded + [v]
  {
    var m := QuadAndTriangle();
    assert m.indices[v] == v;
  }

  /**
   * After vertex 0 of the quad is expanded the bound is the quad's own 4; after vertex 1 or
   * 2 it is the size 3 of the triangle, the last polygon around those points.
   */
  lemma QuadSizeAfterExpansion(v: nat, size: nat)
    requires v < 3
    ensures SizeAfterExpansion(QuadAndTriangle(), 0, v, size) == if v == 0 then 4 else 3
  {
    var m := QuadAndTriangle();
    assert m.around(0, v) == if v == 0 then [0] else [0, 1];
  }

  /** From vertex 2 of the quad with bound 3: point 2 is expanded and the loop stops. */
  lemma QuadScanFromVertex2(g: Measures, radius: real, s: ScanState)
    requires s.d == [-2.0, -2.0, 0.4, 0.5, 0.6] && s.expanded == [0, 1]
    ensures var r := ScanPolygonAsWritten(QuadAndTriangle(), g, radius, s, 0, 2, 3);
            !r.1 && r.0.d == [-2.0, -2.0, -2.0, 0.5, 0.6] && r.0.expanded == [0, 1, 2]
  {
    var m := QuadAndTriangle();
    QuadVisitExpands(g, radius, s, 2);
    QuadSizeAfterExpansion(2, 3);
    var s3 := Visit(m, g, radius, s, 2, Occurrence(0, 2));
    assert ScanPolygonAsWritten(m, g, radius, s3, 0, 3, 3) == (s3, false);
  }

  /** From vertex 1 of the quad with bound 4: point 1 is expanded and the bound drops to 3. */
  lemma QuadScanFromVertex1(g: Measures, radius: real, s: ScanState)
    requires s.d == [-2.0, 0.3, 0.4, 0.5, 0.6] && s.expanded == [0]
    ensures var r := ScanPolygonAsWritten(QuadAndTriangle(), g, radius, s, 0, 1, 4);
            !r.1 && r.0.d == [-2.0, -2.0, -2.0, 0.5, 0.6] && r.0.expanded == [0, 1, 2]
  {
    QuadVisitExpands(g, radius, s, 1);
    QuadSizeAfterExpansion(1, 4);
    QuadScanFromVertex2(g, radius, Visit(QuadAndTriangle(), g, radius, s, 1, Occurrence(0, 1)));
  }

  /** On the quad, the scan as written expands vertices 0, 1 and 2 and then stops: the bound has become 3. */
  lemma QuadScanStopsEarly(g: Measures, radius: real)
    ensures var r := ScanPolygonAsWritten(QuadAndTriangle(), g, radius, ScanState([0.0, 0.3, 0.4, 0.5, 0.6], [], []), 0, 0, 4);
            !r.1 && r.0.d == [-2.0, -2.0, -2.0, 0.5, 0.6] && r.0.expanded == [0, 1, 2]
  {
    var s0 := ScanState([0.0, 0.3, 0.4, 0.5, 0.6], [], []);
    QuadVisitExpands(g, radius, s0, 0);
    QuadSizeAfterExpansion(0, 4);
    QuadScanFromVertex1(g, radius, Visit(QuadAndTriangle(), g, radius, s0, 0, Occurrence(0, 0)));
  }

  /** On the triangle, only point 4 is still reached and unexpanded. */
  lemma TriangleScanExpandsLastPoint(g: Measures, radius: real, s: ScanState)
    requires s.d == [-2.0, -2.0, -2.0, 0.5, 0.6] && s.expanded == [0, 1, 2]
    ensures var r := ScanPolygonAsWritten(QuadAndTriangle(), g, radius, s, 1, 0, 3);
            !r.1 && r.0.d == [-2.0, -2.0, -2.0, 0.5, -2.0] && r.0.expanded == [0, 1, 2, 4]
  {
    var m := QuadAndTriangle();
    var s4 := Visit(m, g, radius, s, 6, Occurrence(1, 2));
    assert s4.d == [-2.0, -2.0, -2.0, 0.5, -2.0] && s4.expanded == [0, 1, 2, 4];
    assert ScanPolygonAsWritten(m, g, radius, s4, 1, 3, 3) == (s4, false);
    assert ScanPolygonAsWritten(m, g, radius, s, 1, 2, 3) == (s4, false);
    assert ScanPolygonAsWritten(m, g, radius, s, 1, 1, 3) == (s4, false);
  }

  /**
   * With every point reached, the scan as written expands vertex 2 of the quad, leaves
   * `size` at the triangle's 3, and stops before vertex 3: point 3 keeps its entry and is
   * never expanded, though it is an occurrence of the mesh. The intended scan expands it.
   */
  lemma SizeReuseSkipsReachedPoint(g: Measures, radius: real)
    ensures var m := QuadAndTriangle();
            m.ValidOcc(Occurrence(0, 3)) && m.PointOf(Occurrence(0, 3)) == 3
    ensures var r := ScanPolygonsAsWritten(QuadAndTriangle(), g, radius, ScanState([0.0, 0.3, 0.4, 0.5, 0.6], [], []), 0);
            !r.1 && r.0.d[3] == 0.5 && 3 !in r.0.expanded
    ensures var r := Sampled(QuadAndTriangle(), g, radius, [0.0, 0.3, 0.4, 0.5, 0.6]);
            r.d[3] == ALREADY_DONE && 3 in r.expanded
  {
    var m := QuadAndTriangle();
    var d0 := [0.0, 0.3, 0.4, 0.5, 0.6];
    var s0 := ScanState(d0, [], []);
    QuadScanStopsEarly(g, radius);
    var r0 := ScanPolygonAsWritten(m, g, radius, s0, 0, 0, m.Size(0));
    TriangleScanExpandsLastPoint(g, radius, r0.0);
    var r1 := ScanPolygonAsWritten(m, g, radius, r0.0, 1, 0, m.Size(1));
    assert ScanPolygonsAsWritten(m, g, radius, r1.0, 2) == (r1.0, false);
    assert ScanPolygonsAsWritten(m, g, radius, s0, 0) == (r1.0, false);
    SamplerCoversEveryOccurrence(m, g, radius, d0);
    SamplerMarksEachReachedPointOnce(m, g, radius, d0);
    assert Sampled(m, g, radius, d0).d[m.PointOf(Occurrence(0, 3))] < 0.0;
  }

  // ---------------------------------------------------------------------------------
  // Methods

  /** Lines 176-203: the interpolated crossing points from point `pointIndex` over the vertices of polygon `q`. */
  method PolygonSamples(m: Polygons, g: Measures, radius: real, distances: array<real>, pointIndex: nat, q: nat)
    returns (pts: seq<Point>)
    requires m.Valid() && distances.Length == |m.points| && pointIndex < |m.points|
    requires q < m.NItems()
    ensures pts == PointsOf(PolygonCrossings(m, g, radius, distances[..], pointIndex, q, m.Size(q)))
  {
    ghost var d := distances[..];
    ghost var done: seq<Crossing> := [];
    pts := [];
    var size := m.Size(q);
    for p := 0 to size
      invariant done == PolygonCrossings(m, g, radius, d, pointIndex, q, p)
      invariant pts == PointsOf(done)
    {
      var nextPointIndex := m.PointOf(Occurrence(q, p));
      ghost var edge := EdgeCrossing(m, g, radius, d, pointIndex, q, p);
      if distances[nextPointIndex] == GREATER_THAN_DISTANCE {
        var dist := distances[pointIndex] + m.Edge(g, pointIndex, nextPointIndex);
        if dist != distances[pointIndex] {
          var ratio := (radius - distances[pointIndex]) / (dist - distances[pointIndex]);
          var point := Interpolate(m.points[pointIndex], m.points[nextPointIndex], ratio);
          assert edge == [Crossing(pointIndex, nextPointIndex, ratio, point)];
          PointsOfAppend(done, edge);
          pts := pts + [point];
        } else {
          assert edge == [];
        }
      } else {
        assert edge == [];
      }
      done := done + edge;
    }
  }

  /**
   * Lines 172-204: collect the interpolated crossing points from point `pointIndex` over every
   * vertex of every polygon in `polys`. As in the source, `size` is assigned the size of each
   * polygon in turn, and its last value is handed back.
   */
  method CollectSamples(m: Polygons, g: Measures, radius: real, distances: array<real>,
                        pointIndex: nat, polys: seq<nat>, size: nat)
    returns (pts: seq<Point>, size': nat)
    requires m.Valid() && distances.Length == |m.points| && pointIndex < |m.points|
    requires forall k :: 0 <= k < |polys| ==> polys[k] < m.NItems()
    ensures pts == PointsOf(AroundCrossings(m, g, radius, distances[..], pointIndex, polys))
    ensures size' == if |polys| == 0 then size else m.Size(polys[|polys| - 1])
  {
    ghost var d := distances[..];
    pts, size' := [], size;
    for i := 0 to |polys|
      invariant pts == PointsOf(AroundCrossings(m, g, radius, d, pointIndex, polys[..i]))
      invariant size' == if i == 0 then size else m.Size(polys[i - 1])
    {
      size' := m.Size(polys[i]);
      var more := PolygonSamples(m, g, radius, distances, pointIndex, polys[i]);
      AroundCrossingsPrefix(m, g, radius, d, pointIndex, polys, i);
      pts := pts + more;
    }
    assert polys[..|polys|] == polys;
  }

  /**
   * One vertex of the scan in terms of the method's state: when the point is reached, its
   * entry becomes ALREADY_DONE and its crossing points are appended; otherwise nothing
   * changes. Either way the new entries and samples are those of `Visit`.
   */
  lemma VisitTracks(m: Polygons, g: Measures, radius: real, s: ScanState, flat: nat, o: Occurrence,
                    samples: seq<Point>, pts: seq<Point>, d': seq<real>)
    requires m.Valid() && |s.d| == |m.points| && flat < |m.indices|
    requires samples == PointsOf(s.crossings)
    requires var pi := m.indices[flat];
             if s.d[pi] >= 0.0 then
               pts == PointsOf(AroundCrossings(m, g, radius, s.d, pi, m.around(o.poly, o.vertex)))
               && d' == s.d[pi := ALREADY_DONE]
             else pts == [] && d' == s.d
    ensures var r := Visit(m, g, radius, s, flat, o);
            d' == r.d && samples + pts == PointsOf(r.crossings)
  {
    var pi := m.indices[flat];
    if s.d[pi] >= 0.0 {
      PointsOfAppend(s.crossings, AroundCrossings(m, g, radius, s.d, pi, m.around(o.poly, o.vertex)));
    }
  }

  /**
   * Lines 166-206: the visit of vertex `vertex` of polygon `poly`. A reached point has its
   * crossing points collected from every polygon around it and is marked ALREADY_DONE;
   * `size'` is then the size of the last of those polygons (line 174). Any other point is
   * left alone and `size` is kept.
   */
  method ExpandVertex(m: Polygons, g: Measures, radius: real, distances: array<real>,
                      poly: nat, vertex: nat, size: nat, ghost s: ScanState)
    returns (pts: seq<Point>, size': nat)
    requires m.Valid() && distances.Length == |m.points| && distances[..] == s.d
    requires poly < m.NItems() && m.FlatIndex(poly, vertex) < |m.indices|
    modifies distances
    ensures var r := Visit(m, g, radius, s, m.FlatIndex(poly, vertex), Occurrence(poly, vertex));
            distances[..] == r.d && PointsOf(s.crossings) + pts == PointsOf(r.crossings)
    ensures size' == if s.d[m.indices[m.FlatIndex(poly, vertex)]] >= 0.0 then SizeAfterExpansion(m, poly, vertex, size) else size
  {
    var flat := m.FlatIndex(poly, vertex);
    var pointIndex := m.indices[flat];
    pts, size' := [], size;
    if distances[pointIndex] >= 0.0 {
      pts, size' := CollectSamples(m, g, radius, distances, pointIndex, m.around(poly, vertex), size);
      distances[pointIndex] := ALREADY_DONE;
    }
    VisitTracks(m, g, radius, s, flat, Occurrence(poly, vertex), PointsOf(s.crossings), pts, distances[..]);
  }

  /**
   * get_smoothing_points with each polygon's vertex loop bounded by that polygon's own size.
   * The new entries and the samples are exactly those of the scan `Sampled`; the returned
   * count is the number of samples.
   */
  method GetSmoothingPoints(m: Polygons, g: Measures, radius: real, distances: array<real>)
    returns (n: nat, samples: seq<Point>)
    requires m.Valid() && distances.Length == |m.points|
    modifies distances
    ensures distances[..] == Sampled(m, g, radius, old(distances[..])).d
    ensures samples == PointsOf(Sampled(m, g, radius, old(distances[..])).crossings)
    ensures n == |samples|
  {
    ghost var s := ScanState(distances[..], [], []);
    ghost var goal := ScanPolygons(m, g, radius, s, 0);
    n, samples := 0, [];
    for poly := 0 to m.NItems()
      invariant |s.d| == |m.points|
      invariant distances[..] == s.d && samples == PointsOf(s.crossings) && n == |samples|
      invariant ScanPolygons(m, g, radius, s, poly) == goal
    {
      var size := m.Size(poly);
      for vertex := 0 to size
        invariant |s.d| == |m.points|
        invariant distances[..] == s.d && samples == PointsOf(s.crossings) && n == |samples|
        invariant ScanFrom(m, g, radius, s, poly, vertex) == goal
      {
        var pts, _ := ExpandVertex(m, g, radius, distances, poly, vertex, size, s);
        ScanFromStep(m, g, radius, s, poly, vertex);
        samples, n := samples + pts, n + |pts|;
        s := Visit(m, g, radius, s, m.FlatIndex(poly, vertex), Occurrence(poly, vertex));
      }
    }
  }

  /**
   * get_smoothing_points as written: after a point is expanded, the vertex loop of the
   * current polygon runs to the size of the last polygon around that point. `overrun`
   * reports that the loop reached past the end of the index list, where C reads out of bounds.
   */
  method GetSmoothingPointsAsWritten(m: Polygons, g: Measures, radius: real, distances: array<real>)
    returns (n: nat, samples: seq<Point>, overrun: bool)
    requires m.Valid() && distances.Length == |m.points|
    modifies distances
    ensures var r := ScanPolygonsAsWritten(m, g, radius, ScanState(old(distances[..]), [], []), 0);
            distances[..] == r.0.d && samples == PointsOf(r.0.crossings) && overrun == r.1
    ensures n == |samples|
  {
    ghost var s := ScanState(distances[..], [], []);
    ghost var goal := ScanPolygonsAsWritten(m, g, radius, s, 0);
    n, samples, overrun := 0, [], false;
    for poly := 0 to m.NItems()
      invariant |s.d| == |m.points|
      invariant distances[..] == s.d && samples == PointsOf(s.crossings) && n == |samples|
      invariant ScanPolygonsAsWritten(m, g, radius, s, poly) == goal
    {
      var size := m.Size(poly);
      var vertex := 0;
      while vertex < size
        invariant |s.d| == |m.points|
        invariant distances[..] == s.d && samples == PointsOf(s.crossings) && n == |samples|
        invariant AsWrittenFrom(m, g, radius, s, poly, vertex, size) == goal
        decreases |m.indices| - vertex
      {
        var flat := m.FlatIndex(poly, vertex);
        if |m.indices| <= flat {
          overrun := true;
          return;
        }
        var pts, size' := ExpandVertex(m, g, radius, distances, poly, vertex, size, s);
        AsWrittenFromStep(m, g, radius, s, poly, vertex, size, size');
        samples, n := samples + pts, n + |pts|;
        s := Visit(m, g, radius, s, flat, Occurrence(poly, vertex));
        size := size';
        vertex := vertex + 1;
      }
    }
  }
}
