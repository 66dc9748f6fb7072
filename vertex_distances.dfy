/**
 * get_vertex_distances: a label-correcting, Dijkstra-like propagation of edge-path
 * distances from one mesh vertex, bounded by a radius, over an array that holds
 * either a distance or the sentinel GREATER_THAN_DISTANCE (not reached yet).
 */
module VertexDistances {
  import opened Geometry
  import opened Mesh
  import opened PriorityQueue

  /** The entry of a point no path has reached yet. */
  const GREATER_THAN_DISTANCE: real := -1.0

  /**
   * How one entry may change while distances propagate: it stays, it is reached for the
   * first time at a distance below the radius, or a reached entry strictly decreases and
   * stays reached.
   */
  predicate Lowered(before: real, after: real, distance: real) {
    after == before
    || (before == GREATER_THAN_DISTANCE && 0.0 <= after < distance)
    || (0.0 <= before && 0.0 <= after < before)
  }

  /**
   * The entry `dk` of a point one edge of length `e` away from a point at `dp` is relaxed:
   * either it is reached and no longer than the path through that edge, or it is still
   * unreached and the path through that edge would not end below the radius.
   */
  predicate Relaxed(dp: real, dk: real, e: real, distance: real) {
    if dk == GREATER_THAN_DISTANCE then distance <= dp + e else dk <= dp + e
  }

  /** Vertex `p` of polygon `q` is relaxed from point `pi`. */
  ghost predicate RelaxedAt(m: Polygons, g: Measures, d: seq<real>, pi: nat, q: nat, p: nat, distance: real)
    requires m.Valid() && |d| == |m.points| && pi < |m.points|
    requires q < m.NItems() && p < m.Size(q)
  {
    var k := m.PointOf(Occurrence(q, p));
    Relaxed(d[pi], d[k], m.Edge(g, pi, k), distance)
  }

  /** Every vertex of every polygon around occurrence `o` is relaxed from `o`'s point. */
  ghost predicate RelaxedAround(m: Polygons, g: Measures, d: seq<real>, o: Occurrence, distance: real)
    requires m.Valid() && |d| == |m.points| && m.ValidOcc(o)
  {
    var polys := m.around(o.poly, o.vertex);
    forall i, p :: 0 <= i < |polys| && 0 <= p < m.Size(polys[i]) ==>
      RelaxedAt(m, g, d, m.PointOf(o), polys[i], p, distance)
  }

  /** The points of the vertices of polygon `q`. */
  ghost function PolygonPoints(m: Polygons, q: nat): set<nat>
    requires m.Valid() && q < m.NItems()
  {
    set p | 0 <= p < m.Size(q) :: m.PointOf(Occurrence(q, p))
  }

  /** The points of the vertices of the polygons `polys`. */
  ghost function PolygonsPoints(m: Polygons, polys: seq<nat>): set<nat>
    requires m.Valid() && forall i :: 0 <= i < |polys| ==> polys[i] < m.NItems()
  {
    if |polys| == 0 then {}
    else
      var last := |polys| - 1;
      assert polys[last] < m.NItems();
      PolygonsPoints(m, polys[..last]) + PolygonPoints(m, polys[last])
  }

  /** Occurrence `o` is waiting in the queue. */
  ghost predicate Pending(items: seq<Item>, o: Occurrence) {
    exists k :: 0 <= k < |items| && items[k].occ == o
  }

  /** A queued item pushed for a point whose entry changed from `d0` to `d`, keyed by minus that new entry. */
  ghost predicate PushedFor(m: Polygons, d0: seq<real>, d: seq<real>, it: Item)
    requires m.Valid() && |d0| == |m.points| && |d| == |m.points|
  {
    m.ValidOcc(it.occ)
    && var k := m.PointOf(it.occ);
       d[k] != d0[k] && it.key == -d[k]
  }

  /** Item `it` is in the queue at position `from` or later: it was pushed after the first `from` items. */
  ghost predicate PushedAfter(items: seq<Item>, from: nat, it: Item) {
    exists k :: from <= k < |items| && items[k] == it
  }

  lemma PendingAfterRemove(items: seq<Item>, at: nat, o: Occurrence)
    requires at < |items| && items[at].occ != o && Pending(items, o)
    ensures Pending(items[..at] + items[at + 1..], o)
  {
    var k :| 0 <= k < |items| && items[k].occ == o;
    var rest := items[..at] + items[at + 1..];
    if k < at {
      assert rest[k] == items[k];
    } else {
      assert rest[k - 1] == items[k];
    }
  }

  lemma PendingAfterPush(items: seq<Item>, more: seq<Item>, o: Occurrence)
    requires Pending(items, o)
    ensures Pending(items + more, o)
  {
    var k :| 0 <= k < |items| && items[k].occ == o;
    assert (items + more)[k] == items[k];
  }

  /** Lowering entries elsewhere keeps an occurrence relaxed, as long as its own point keeps its entry. */
  lemma RelaxedAroundLowered(m: Polygons, g: Measures, d0: seq<real>, d1: seq<real>, o: Occurrence, distance: real)
    requires m.Valid() && m.ValidOcc(o) && |d0| == |m.points| && |d1| == |m.points|
    requires forall j :: 0 <= j < |d0| ==> Lowered(d0[j], d1[j], distance)
    requires d1[m.PointOf(o)] == d0[m.PointOf(o)]
    requires RelaxedAround(m, g, d0, o, distance)
    ensures RelaxedAround(m, g, d1, o, distance)
  {
    var polys := m.around(o.poly, o.vertex);
    forall i, p | 0 <= i < |polys| && 0 <= p < m.Size(polys[i])
      ensures RelaxedAt(m, g, d1, m.PointOf(o), polys[i], p, distance)
    {
      assert RelaxedAt(m, g, d0, m.PointOf(o), polys[i], p, distance);
    }
  }

  /**
   * What relaxing from point `pi` does to the state (entries `d0`, queue `items0`, last
   * setting occurrences `via0`) as it becomes (`d`, `items`, `via`): `pi`'s own entry stays;
   * only the entries of points in `may` change; every entry is Lowered; an entry that changed
   * now holds the path through `pi` and one edge; the queue only grows, each new item belongs
   * to a changed point and is keyed by minus its new entry; and every changed point has the
   * occurrence that set it pushed during the step, keyed by minus its new entry.
   */
  ghost predicate Progress(m: Polygons, g: Measures, distance: real, pi: nat, may: set<nat>,
                           d0: seq<real>, d: seq<real>, items0: seq<Item>, items: seq<Item>,
                           via0: seq<Occurrence>, via: seq<Occurrence>)
    requires m.Valid() && |d0| == |m.points| && |d| == |m.points| && pi < |m.points|
  {
    d[pi] == d0[pi]
    && (forall j :: 0 <= j < |d| && j !in may ==> d[j] == d0[j])
    && (forall j :: 0 <= j < |d| ==> Lowered(d0[j], d[j], distance))
    && (forall j :: 0 <= j < |d| && d[j] != d0[j] ==> d[j] == d0[pi] + m.Edge(g, pi, j))
    && |items0| <= |items| && items[..|items0|] == items0
    && (forall k :: |items0| <= k < |items| ==> PushedFor(m, d0, d, items[k]))
    && |via0| == |m.points| && |via| == |m.points|
    && (forall j :: 0 <= j < |d| && d[j] == d0[j] ==> via[j] == via0[j])
    && (forall j :: 0 <= j < |d| && d[j] != d0[j] ==>
          m.ValidOcc(via[j]) && m.PointOf(via[j]) == j && PushedAfter(items, |items0|, Item(via[j], -d[j])))
  }

  lemma ProgressNone(m: Polygons, g: Measures, distance: real, pi: nat, may: set<nat>,
                     d: seq<real>, items: seq<Item>, via: seq<Occurrence>)
    requires m.Valid() && |d| == |m.points| && pi < |m.points| && |via| == |m.points|
    ensures Progress(m, g, distance, pi, may, d, d, items, items, via, via)
  {
    assert items[..|items|] == items;
  }

  /** Composing two steps, the items pushed in either are pushed for points changed overall, with their final entries. */
  lemma PushedForTrans(m: Polygons, d0: seq<real>, d1: seq<real>, d2: seq<real>,
                       items0: seq<Item>, items1: seq<Item>, items2: seq<Item>)
    requires m.Valid() && |d0| == |m.points| && |d1| == |m.points| && |d2| == |m.points|
    requires |items0| <= |items1| <= |items2| && items2[..|items1|] == items1
    requires forall k :: |items0| <= k < |items1| ==> PushedFor(m, d0, d1, items1[k])
    requires forall k :: |items1| <= k < |items2| ==> PushedFor(m, d1, d2, items2[k])
    requires forall j :: 0 <= j < |d1| && d1[j] != d0[j] ==> d2[j] == d1[j]
    ensures forall k :: |items0| <= k < |items2| ==> PushedFor(m, d0, d2, items2[k])
  {
    forall k | |items0| <= k < |items2|
      ensures PushedFor(m, d0, d2, items2[k])
    {
      if k < |items1| {
        assert items2[k] == items2[..|items1|][k];
      }
    }
  }

  /** Composing two steps, every point changed overall has the occurrence that last set it pushed since the start. */
  lemma ViaTrans(m: Polygons, d0: seq<real>, d1: seq<real>, d2: seq<real>,
                 items0: seq<Item>, items1: seq<Item>, items2: seq<Item>,
                 via0: seq<Occurrence>, via1: seq<Occurrence>, via2: seq<Occurrence>)
    requires m.Valid() && |d0| == |m.points| && |d1| == |m.points| && |d2| == |m.points|
    requires |via0| == |m.points| && |via1| == |m.points| && |via2| == |m.points|
    requires |items0| <= |items1| <= |items2| && items2[..|items1|] == items1
    requires forall j :: 0 <= j < |d1| && d1[j] == d0[j] ==> via1[j] == via0[j]
    requires forall j :: 0 <= j < |d2| && d2[j] == d1[j] ==> via2[j] == via1[j]
    requires forall j :: 0 <= j < |d1| && d1[j] != d0[j] ==>
               m.ValidOcc(via1[j]) && m.PointOf(via1[j]) == j && PushedAfter(items1, |items0|, Item(via1[j], -d1[j]))
    requires forall j :: 0 <= j < |d2| && d2[j] != d1[j] ==>
               m.ValidOcc(via2[j]) && m.PointOf(via2[j]) == j && PushedAfter(items2, |items1|, Item(via2[j], -d2[j]))
    requires forall j :: 0 <= j < |d1| && d1[j] != d0[j] ==> d2[j] == d1[j]
    ensures forall j :: 0 <= j < |d2| && d2[j] == d0[j] ==> via2[j] == via0[j]
    ensures forall j :: 0 <= j < |d2| && d2[j] != d0[j] ==>
              m.ValidOcc(via2[j]) && m.PointOf(via2[j]) == j && PushedAfter(items2, |items0|, Item(via2[j], -d2[j]))
  {
    forall j | 0 <= j < |d2| && d2[j] != d0[j]
      ensures PushedAfter(items2, |items0|, Item(via2[j], -d2[j]))
    {
      if d2[j] != d1[j] {
        var k :| |items1| <= k < |items2| && items2[k] == Item(via2[j], -d2[j]);
      } else {
        var k :| |items0| <= k < |items1| && items1[k] == Item(via1[j], -d1[j]);
        assert items2[k] == items2[..|items1|][k];
      }
    }
  }

  /** Two steps of relaxation from one point compose, each within `may`. */
  lemma ProgressTrans(m: Polygons, g: Measures, distance: real, pi: nat, may: set<nat>,
                      d0: seq<real>, d1: seq<real>, d2: seq<real>,
                      items0: seq<Item>, items1: seq<Item>, items2: seq<Item>,
                      via0: seq<Occurrence>, via1: seq<Occurrence>, via2: seq<Occurrence>)
    requires m.Valid() && |d0| == |m.points| && |d1| == |m.points| && |d2| == |m.points| && pi < |m.points|
    requires Progress(m, g, distance, pi, may, d0, d1, items0, items1, via0, via1)
    requires Progress(m, g, distance, pi, may, d1, d2, items1, items2, via1, via2)
    ensures Progress(m, g, distance, pi, may, d0, d2, items0, items2, via0, via2)
  {
    // A point set in the first step already holds the path through `pi`, which the second
    // step, from the same entry of `pi`, cannot strictly improve.
    forall j | 0 <= j < |d1| && d1[j] != d0[j]
      ensures d2[j] == d1[j]
    {
      assert Lowered(d1[j], d2[j], distance);
    }
    assert items2[..|items0|] == items2[..|items1|][..|items0|];
    PushedForTrans(m, d0, d1, d2, items0, items1, items2);
    ViaTrans(m, d0, d1, d2, items0, items1, items2, via0, via1, via2);
  }

  /** A step that changes only points of `may` changes only points of any larger set. */
  lemma ProgressWiden(m: Polygons, g: Measures, distance: real, pi: nat, may: set<nat>, may': set<nat>,
                      d0: seq<real>, d: seq<real>, items0: seq<Item>, items: seq<Item>,
                      via0: seq<Occurrence>, via: seq<Occurrence>)
    requires m.Valid() && |d0| == |m.points| && |d| == |m.points| && pi < |m.points|
    requires Progress(m, g, distance, pi, may, d0, d, items0, items, via0, via) && may <= may'
    ensures Progress(m, g, distance, pi, may', d0, d, items0, items, via0, via)
  {
  }

  /** Progress keeps a relaxed vertex relaxed. */
  lemma RelaxedAtKept(m: Polygons, g: Measures, distance: real, pi: nat, may: set<nat>,
                      d0: seq<real>, d: seq<real>, items0: seq<Item>, items: seq<Item>,
                      via0: seq<Occurrence>, via: seq<Occurrence>, q: nat, p: nat)
    requires m.Valid() && |d0| == |m.points| && |d| == |m.points| && pi < |m.points|
    requires q < m.NItems() && p < m.Size(q)
    requires Progress(m, g, distance, pi, may, d0, d, items0, items, via0, via)
    requires RelaxedAt(m, g, d0, pi, q, p, distance)
    ensures RelaxedAt(m, g, d, pi, q, p, distance)
  {
  }

  /** A step that changes only the points of polygon `polys[i]` changes only points of `polys`. */
  lemma {:induction false} PolygonPointsWithin(m: Polygons, polys: seq<nat>, i: nat)
    requires m.Valid() && forall k :: 0 <= k < |polys| ==> polys[k] < m.NItems()
    requires i < |polys|
    ensures PolygonPoints(m, polys[i]) <= PolygonsPoints(m, polys)
  {
    var last := |polys| - 1;
    if i < last {
      PolygonPointsWithin(m, polys[..last], i);
    }
  }

  /**
   * Lines 115-135: relax vertex `p` of polygon `q` from point `pointIndex`. An unreached
   * vertex is reached only when the path through this edge ends below the radius; a reached
   * one is lowered only when that path is strictly shorter; either way the occurrence is
   * queued with key minus the new entry.
   */
  method RelaxVertex(m: Polygons, g: Measures, distance: real, distances: array<real>, queue: Queue,
                     pointIndex: nat, q: nat, p: nat, ghost via: seq<Occurrence>)
    returns (ghost via': seq<Occurrence>)
    requires m.Valid() && g.DistanceValid()
    requires distances.Length == |m.points| && |via| == |m.points|
    requires pointIndex < |m.points| && distances[pointIndex] >= 0.0
    requires q < m.NItems() && p < m.Size(q)
    modifies distances, queue
    ensures Progress(m, g, distance, pointIndex, {m.PointOf(Occurrence(q, p))},
                     old(distances[..]), distances[..], old(queue.items), queue.items, via, via')
    ensures var k := m.PointOf(Occurrence(q, p));
            queue.items == if distances[k] != old(distances[k]) then old(queue.items) + [Item(Occurrence(q, p), -distances[k])]
                           else old(queue.items)
    ensures var k := m.PointOf(Occurrence(q, p));
            via' == if distances[k] != old(distances[k]) then via[k := Occurrence(q, p)] else via
    ensures RelaxedAt(m, g, distances[..], pointIndex, q, p, distance)
  {
    via' := via;
    var nextPointIndex := m.PointOf(Occurrence(q, p));
    if distances[nextPointIndex] == GREATER_THAN_DISTANCE || distances[nextPointIndex] > distances[pointIndex] {
      var dist := distances[pointIndex] + m.Edge(g, pointIndex, nextPointIndex);
      if (distances[nextPointIndex] == GREATER_THAN_DISTANCE && dist < distance) || dist < distances[nextPointIndex] {
        distances[nextPointIndex] := dist;
        queue.Insert(Occurrence(q, p), -dist);
        via' := via'[nextPointIndex := Occurrence(q, p)];
        assert queue.items[|old(queue.items)|] == Item(Occurrence(q, p), -dist);
        assert queue.items[..|old(queue.items)|] == old(queue.items);
        return;
      }
    }
    ProgressNone(m, g, distance, pointIndex, {nextPointIndex}, distances[..], queue.items, via);
  }

  /** Relaxing vertex `p` of polygon `q` extends a step within `q`'s points, and with it the first p + 1 vertices are relaxed. */
  lemma RelaxPolygonStep(m: Polygons, g: Measures, distance: real, pi: nat, q: nat, p: nat,
                         d0: seq<real>, d1: seq<real>, d2: seq<real>,
                         items0: seq<Item>, items1: seq<Item>, items2: seq<Item>,
                         via0: seq<Occurrence>, via1: seq<Occurrence>, via2: seq<Occurrence>)
    requires m.Valid() && q < m.NItems() && p < m.Size(q) && pi < |m.points|
    requires |d0| == |m.points| && |d1| == |m.points| && |d2| == |m.points|
    requires Progress(m, g, distance, pi, PolygonPoints(m, q), d0, d1, items0, items1, via0, via1)
    requires Progress(m, g, distance, pi, {m.PointOf(Occurrence(q, p))}, d1, d2, items1, items2, via1, via2)
    requires forall p' :: 0 <= p' < p ==> RelaxedAt(m, g, d1, pi, q, p', distance)
    requires RelaxedAt(m, g, d2, pi, q, p, distance)
    ensures Progress(m, g, distance, pi, PolygonPoints(m, q), d0, d2, items0, items2, via0, via2)
    ensures forall p' :: 0 <= p' < p + 1 ==> RelaxedAt(m, g, d2, pi, q, p', distance)
  {
    var may := PolygonPoints(m, q);
    assert m.PointOf(Occurrence(q, p)) in may;
    ProgressWiden(m, g, distance, pi, {m.PointOf(Occurrence(q, p))}, may, d1, d2, items1, items2, via1, via2);
    ProgressTrans(m, g, distance, pi, may, d0, d1, d2, items0, items1, items2, via0, via1, via2);
    forall p' | 0 <= p' < p
      ensures RelaxedAt(m, g, d2, pi, q, p', distance)
    {
      RelaxedAtKept(m, g, distance, pi, may, d1, d2, items1, items2, via1, via2, q, p');
    }
  }

  /** Lines 111-136: relax every vertex of polygon `q` from point `pointIndex`. */
  method RelaxPolygon(m: Polygons, g: Measures, distance: real, distances: array<real>, queue: Queue,
                      pointIndex: nat, q: nat, ghost via: seq<Occurrence>)
    returns (ghost via': seq<Occurrence>)
    requires m.Valid() && g.DistanceValid()
    requires distances.Length == |m.points| && |via| == |m.points|
    requires pointIndex < |m.points| && distances[pointIndex] >= 0.0
    requires q < m.NItems()
    modifies distances, queue
    ensures Progress(m, g, distance, pointIndex, PolygonPoints(m, q),
                     old(distances[..]), distances[..], old(queue.items), queue.items, via, via')
    ensures |queue.items| <= |old(queue.items)| + m.Size(q)
    ensures forall p :: 0 <= p < m.Size(q) ==> RelaxedAt(m, g, distances[..], pointIndex, q, p, distance)
  {
    ghost var d0, items0 := distances[..], queue.items;
    ghost var may := PolygonPoints(m, q);
    via' := via;
    ProgressNone(m, g, distance, pointIndex, may, d0, items0, via);
    var size := m.Size(q);
    for p := 0 to size
      invariant Progress(m, g, distance, pointIndex, may, d0, distances[..], items0, queue.items, via, via')
      invariant |queue.items| <= |items0| + p
      invariant forall p' :: 0 <= p' < p ==> RelaxedAt(m, g, distances[..], pointIndex, q, p', distance)
    {
      ghost var d1, items1, via1 := distances[..], queue.items, via';
      via' := RelaxVertex(m, g, distance, distances, queue, pointIndex, q, p, via');
      RelaxPolygonStep(m, g, distance, pointIndex, q, p, d0, d1, distances[..], items0, items1, queue.items, via, via1, via');
    }
  }

  /** A step within one polygon of `polys` is a step within `polys`, and composes with earlier ones. */
  lemma RelaxAroundProgress(m: Polygons, g: Measures, distance: real, pi: nat, polys: seq<nat>, i: nat,
                            d0: seq<real>, d1: seq<real>, d2: seq<real>,
                            items0: seq<Item>, items1: seq<Item>, items2: seq<Item>,
                            via0: seq<Occurrence>, via1: seq<Occurrence>, via2: seq<Occurrence>)
    requires m.Valid() && forall k :: 0 <= k < |polys| ==> polys[k] < m.NItems()
    requires i < |polys| && pi < |m.points|
    requires |d0| == |m.points| && |d1| == |m.points| && |d2| == |m.points|
    requires Progress(m, g, distance, pi, PolygonsPoints(m, polys), d0, d1, items0, items1, via0, via1)
    requires Progress(m, g, distance, pi, PolygonPoints(m, polys[i]), d1, d2, items1, items2, via1, via2)
    ensures Progress(m, g, distance, pi, PolygonsPoints(m, polys), d0, d2, items0, items2, via0, via2)
  {
    var may := PolygonsPoints(m, polys);
    PolygonPointsWithin(m, polys, i);
    ProgressWiden(m, g, distance, pi, PolygonPoints(m, polys[i]), may, d1, d2, items1, items2, via1, via2);
    ProgressTrans(m, g, distance, pi, may, d0, d1, d2, items0, items1, items2, via0, via1, via2);
  }

  /** Polygons relaxed before a step stay relaxed, and with polygon `polys[i]` the first i + 1 are relaxed. */
  lemma RelaxAroundKept(m: Polygons, g: Measures, distance: real, pi: nat, polys: seq<nat>, i: nat, may: set<nat>,
                        d1: seq<real>, d2: seq<real>, items1: seq<Item>, items2: seq<Item>,
                        via1: seq<Occurrence>, via2: seq<Occurrence>)
    requires m.Valid() && forall k :: 0 <= k < |polys| ==> polys[k] < |m.endIndices|
    requires i < |polys| && pi < |m.points|
    requires |d1| == |m.points| && |d2| == |m.points|
    requires forall i', p' :: 0 <= i' < i && 0 <= p' < m.Size(polys[i']) ==> RelaxedAt(m, g, d1, pi, polys[i'], p', distance)
    requires Progress(m, g, distance, pi, may, d1, d2, items1, items2, via1, via2)
    requires forall p :: 0 <= p < m.Size(polys[i]) ==> RelaxedAt(m, g, d2, pi, polys[i], p, distance)
    ensures forall i', p' :: 0 <= i' < i + 1 && 0 <= p' < m.Size(polys[i']) ==> RelaxedAt(m, g, d2, pi, polys[i'], p', distance)
  {
    forall i', p' | 0 <= i' < i && 0 <= p' < m.Size(polys[i'])
      ensures RelaxedAt(m, g, d2, pi, polys[i'], p', distance)
    {
      RelaxedAtKept(m, g, distance, pi, may, d1, d2, items1, items2, via1, via2, polys[i'], p');
    }
  }

  /**
   * The body of the propagation loop (lines 105-137): relax every vertex of every polygon
   * around the popped occurrence `occ`.
   */
  method RelaxAround(m: Polygons, g: Measures, distance: real, distances: array<real>, queue: Queue,
                     occ: Occurrence, ghost via: seq<Occurrence>)
    returns (ghost via': seq<Occurrence>)
    requires m.Valid() && g.DistanceValid() && m.ValidOcc(occ)
    requires distances.Length == |m.points| && |via| == |m.points|
    requires distances[m.PointOf(occ)] >= 0.0
    modifies distances, queue
    ensures Progress(m, g, distance, m.PointOf(occ), PolygonsPoints(m, m.around(occ.poly, occ.vertex)),
                     old(distances[..]), distances[..], old(queue.items), queue.items, via, via')
    ensures RelaxedAround(m, g, distances[..], occ, distance)
  {
    ghost var d0, items0 := distances[..], queue.items;
    var pointIndex := m.PointOf(occ);
    var polys := m.around(occ.poly, occ.vertex);
    ghost var may := PolygonsPoints(m, polys);
    via' := via;
    ProgressNone(m, g, distance, pointIndex, may, d0, items0, via);
    for i := 0 to |polys|
      invariant Progress(m, g, distance, pointIndex, may, d0, distances[..], items0, queue.items, via, via')
      invariant forall i', p' :: 0 <= i' < i && 0 <= p' < m.Size(polys[i']) ==>
        RelaxedAt(m, g, distances[..], pointIndex, polys[i'], p', distance)
    {
      ghost var d1, items1, via1 := distances[..], queue.items, via';
      via' := RelaxPolygon(m, g, distance, distances, queue, pointIndex, polys[i], via');
      RelaxAroundProgress(m, g, distance, pointIndex, polys, i, d0, d1, distances[..], items0, items1, queue.items, via, via1, via');
      RelaxAroundKept(m, g, distance, pointIndex, polys, i, PolygonPoints(m, polys[i]), d1, distances[..], items1, queue.items, via1, via');
    }
  }

  /**
   * The propagation loop's invariant over entries `d`, queue `items` and last-setting
   * occurrences `via`: every queued occurrence is valid and its point reached; every reached
   * point has a valid occurrence of itself in `via`, and that occurrence is either still
   * queued or has every vertex around it relaxed.
   */
  ghost predicate Frontier(m: Polygons, g: Measures, distance: real, d: seq<real>, items: seq<Item>, via: seq<Occurrence>)
    requires m.Valid() && |d| == |m.points|
  {
    |via| == |m.points|
    && (forall k :: 0 <= k < |items| ==> m.ValidOcc(items[k].occ) && d[m.PointOf(items[k].occ)] >= 0.0)
    && (forall j :: 0 <= j < |d| && d[j] >= 0.0 ==>
          m.ValidOcc(via[j]) && m.PointOf(via[j]) == j
          && (Pending(items, via[j]) || RelaxedAround(m, g, d, via[j], distance)))
  }

  /** After a turn of the loop, every reached point's last-setting occurrence is still queued or relaxed. */
  lemma FrontierStepReached(m: Polygons, g: Measures, distance: real, may: set<nat>,
                            d0: seq<real>, d: seq<real>, before: seq<Item>, at: nat, items: seq<Item>,
                            via0: seq<Occurrence>, via: seq<Occurrence>)
    requires m.Valid() && |d0| == |m.points| && |d| == |m.points|
    requires Frontier(m, g, distance, d0, before, via0)
    requires at < |before|
    requires Progress(m, g, distance, m.PointOf(before[at].occ), may, d0, d,
                      before[..at] + before[at + 1..], items, via0, via)
    requires RelaxedAround(m, g, d, before[at].occ, distance)
    ensures forall j :: 0 <= j < |d| && d[j] >= 0.0 ==>
              m.ValidOcc(via[j]) && m.PointOf(via[j]) == j
              && (Pending(items, via[j]) || RelaxedAround(m, g, d, via[j], distance))
  {
    var entry := before[at].occ;
    var afterRemove := before[..at] + before[at + 1..];
    forall j | 0 <= j < |d| && d[j] != d0[j]
      ensures Pending(items, via[j])
    {
      var k :| |afterRemove| <= k < |items| && items[k] == Item(via[j], -d[j]);
    }
    forall j | 0 <= j < |d| && d[j] >= 0.0 && d[j] == d0[j]
      ensures Pending(items, via[j]) || RelaxedAround(m, g, d, via[j], distance)
    {
      if RelaxedAround(m, g, d0, via0[j], distance) {
        RelaxedAroundLowered(m, g, d0, d, via0[j], distance);
      } else if via0[j] != entry {
        PendingAfterRemove(before, at, via0[j]);
        assert items == afterRemove + items[|afterRemove|..];
        PendingAfterPush(afterRemove, items[|afterRemove|..], via0[j]);
      }
    }
  }

  /** After a turn of the loop, every queued occurrence is still valid and its point reached. */
  lemma FrontierStepQueued(m: Polygons, distance: real, d0: seq<real>, d: seq<real>,
                           before: seq<Item>, at: nat, items: seq<Item>)
    requires m.Valid() && |d0| == |m.points| && |d| == |m.points|
    requires forall k :: 0 <= k < |before| ==> m.ValidOcc(before[k].occ) && d0[m.PointOf(before[k].occ)] >= 0.0
    requires at < |before|
    requires var afterRemove := before[..at] + before[at + 1..];
             |afterRemove| <= |items| && items[..|afterRemove|] == afterRemove
             && forall k :: |afterRemove| <= k < |items| ==> PushedFor(m, d0, d, items[k])
    requires forall j :: 0 <= j < |d| ==> Lowered(d0[j], d[j], distance)
    ensures forall k :: 0 <= k < |items| ==> m.ValidOcc(items[k].occ) && d[m.PointOf(items[k].occ)] >= 0.0
  {
    var afterRemove := before[..at] + before[at + 1..];
    forall k | 0 <= k < |items|
      ensures m.ValidOcc(items[k].occ) && d[m.PointOf(items[k].occ)] >= 0.0
    {
      if k < |afterRemove| {
        assert items[k] == afterRemove[k];
        if k < at { assert afterRemove[k] == before[k]; } else { assert afterRemove[k] == before[k + 1]; }
      } else {
        assert PushedFor(m, d0, d, items[k]);
      }
    }
  }

  /**
   * One turn of the propagation loop keeps the Frontier: the item at `at` was popped, and
   * relaxing around its occurrence took (`d0`, the rest of the queue, `via0`) to (`d`,
   * `items`, `via`).
   */
  lemma FrontierStep(m: Polygons, g: Measures, distance: real, may: set<nat>,
                     d0: seq<real>, d: seq<real>, before: seq<Item>, at: nat, items: seq<Item>,
                     via0: seq<Occurrence>, via: seq<Occurrence>)
    requires m.Valid() && |d0| == |m.points| && |d| == |m.points|
    requires Frontier(m, g, distance, d0, before, via0)
    requires at < |before|
    requires Progress(m, g, distance, m.PointOf(before[at].occ), may, d0, d,
                      before[..at] + before[at + 1..], items, via0, via)
    requires RelaxedAround(m, g, d, before[at].occ, distance)
    ensures Frontier(m, g, distance, d, items, via)
  {
    FrontierStepReached(m, g, distance, may, d0, d, before, at, items, via0, via);
    FrontierStepQueued(m, distance, d0, d, before, at, items);
  }

  /** With nothing left in the queue, the Frontier is a fixpoint: every reached point's occurrence is relaxed. */
  lemma FrontierEmpty(m: Polygons, g: Measures, distance: real, d: seq<real>, via: seq<Occurrence>)
    requires m.Valid() && |d| == |m.points|
    requires Frontier(m, g, distance, d, [], via)
    ensures forall j :: 0 <= j < |d| && d[j] >= 0.0 ==> RelaxedAround(m, g, d, via[j], distance)
  {
  }

  /**
   * Every reached point other than `source` has a parent occurrence `par[j]`: a reached point
   * `pp`, distinct from `j`, whose surrounding polygons contain `j`, with `j`'s entry at least `pp`'s entry plus the
   * edge between them. So no entry is smaller than the path through its parent allows.
   */
  ghost predicate Rooted(m: Polygons, g: Measures, d: seq<real>, source: nat, par: seq<Occurrence>)
    requires m.Valid() && |d| == |m.points|
  {
    |par| == |m.points|
    && forall j :: 0 <= j < |d| && j != source && d[j] >= 0.0 ==>
         m.ValidOcc(par[j])
         && var pp := m.PointOf(par[j]);
            pp != j && d[pp] >= 0.0 && j in PolygonsPoints(m, m.around(par[j].poly, par[j].vertex))
            && d[pp] + m.Edge(g, pp, j) <= d[j]
  }

  /** The parents after a step from occurrence `o`: every point whose entry changed now has `o` as parent. */
  ghost function Reparent(par: seq<Occurrence>, d0: seq<real>, d: seq<real>, o: Occurrence): (r: seq<Occurrence>)
    requires |d0| == |par| && |d| == |par|
    ensures |r| == |par|
  {
    seq(|par|, j requires 0 <= j < |par| => if d[j] != d0[j] then o else par[j])
  }

  /**
   * A step relaxing around the popped occurrence `o` keeps every reached point rooted: a
   * changed point holds `o`'s point's entry plus one edge, and an unchanged one keeps its
   * parent, whose entry can only have dropped.
   */
  lemma RootedStep(m: Polygons, g: Measures, distance: real, source: nat, o: Occurrence,
                   d0: seq<real>, d: seq<real>, items0: seq<Item>, items: seq<Item>,
                   via0: seq<Occurrence>, via: seq<Occurrence>, par: seq<Occurrence>)
    requires m.Valid() && m.ValidOcc(o) && |d0| == |m.points| && |d| == |m.points|
    requires d0[m.PointOf(o)] >= 0.0
    requires Rooted(m, g, d0, source, par)
    requires Progress(m, g, distance, m.PointOf(o), PolygonsPoints(m, m.around(o.poly, o.vertex)),
                      d0, d, items0, items, via0, via)
    ensures Rooted(m, g, d, source, Reparent(par, d0, d, o))
  {
    var par' := Reparent(par, d0, d, o);
    forall j | 0 <= j < |d| && j != source && d[j] >= 0.0
      ensures m.ValidOcc(par'[j])
      ensures var pp := m.PointOf(par'[j]);
              pp != j && d[pp] >= 0.0 && j in PolygonsPoints(m, m.around(par'[j].poly, par'[j].vertex))
              && d[pp] + m.Edge(g, pp, j) <= d[j]
    {
      if d[j] == d0[j] {
        var pp := m.PointOf(par[j]);
        assert Lowered(d0[pp], d[pp], distance);
      }
    }
  }

  /** The source's entry is 0; every other entry is unreached or reached below the radius. */
  ghost predicate Bounded(d: seq<real>, source: nat, distance: real) {
    source < |d| && d[source] == 0.0
    && forall j :: 0 <= j < |d| && j != source ==> d[j] == GREATER_THAN_DISTANCE || 0.0 <= d[j] < distance
  }

  /**
   * One turn of the propagation loop (lines 96-137): the item at `at` was popped, its point
   * was within the radius, and relaxing around its occurrence took the state from (`d0`, the
   * rest of the queue, `via0`) to (`d`, `items`, `via`). The bounds, the Frontier and the
   * parents are kept.
   */
  lemma PropagationStep(m: Polygons, g: Measures, distance: real, source: nat,
                        d0: seq<real>, d: seq<real>, before: seq<Item>, at: nat, items: seq<Item>,
                        via0: seq<Occurrence>, via: seq<Occurrence>, par: seq<Occurrence>)
    requires m.Valid() && |d0| == |m.points| && |d| == |m.points|
    requires Bounded(d0, source, distance) && Frontier(m, g, distance, d0, before, via0) && Rooted(m, g, d0, source, par)
    requires at < |before|
    requires Progress(m, g, distance, m.PointOf(before[at].occ), PolygonsPoints(m, m.around(before[at].occ.poly, before[at].occ.vertex)),
                      d0, d, before[..at] + before[at + 1..], items, via0, via)
    requires RelaxedAround(m, g, d, before[at].occ, distance)
    ensures Bounded(d, source, distance) && Frontier(m, g, distance, d, items, via)
    ensures Rooted(m, g, d, source, Reparent(par, d0, d, before[at].occ))
  {
    var o := before[at].occ;
    FrontierStep(m, g, distance, PolygonsPoints(m, m.around(o.poly, o.vertex)), d0, d, before, at, items, via0, via);
    RootedStep(m, g, distance, source, o, d0, d, before[..at] + before[at + 1..], items, via0, via, par);
    forall j | 0 <= j < |d| && j != source
      ensures d[j] == GREATER_THAN_DISTANCE || 0.0 <= d[j] < distance
    {
      assert Lowered(d0[j], d[j], distance);
    }
  }

  /** Lines 78-79: every entry becomes GREATER_THAN_DISTANCE. */
  method ResetDistances(distances: array<real>)
    modifies distances
    ensures forall k :: 0 <= k < distances.Length ==> distances[k] == GREATER_THAN_DISTANCE
  {
    for i := 0 to distances.Length
      invariant forall k :: 0 <= k < i ==> distances[k] == GREATER_THAN_DISTANCE
    {
      distances[i] := GREATER_THAN_DISTANCE;
    }
  }

  /**
   * get_vertex_distances (lines 65-142). Every entry is reset to GREATER_THAN_DISTANCE, the
   * source point's to 0, and the source occurrence is queued with key 0. Then occurrences
   * are popped, an occurrence of maximal key (nearest) first, and the polygons around each
   * are relaxed, until the queue is empty or the popped point lies beyond the radius.
   * The popped key is ignored, so stale items are simply relaxed again.
   *
   * Termination of the source loop is not proved here; `fuel` caps the number of pops and
   * `exhausted` says that the cap, not the queue, ended the loop. `rest` holds the items
   * not relaxed when the loop ended (at the break at line 103, the popped item included),
   * and `via` records per reached point the occurrence through which its entry was last set,
   * `par` the occurrence popped when it was (see Rooted).
   */
  method GetVertexDistances(m: Polygons, g: Measures, poly: nat, vertex: nat, distance: real,
                            distances: array<real>, fuel: nat)
    returns (exhausted: bool, ghost rest: seq<Item>, ghost via: seq<Occurrence>, ghost par: seq<Occurrence>)
    requires m.Valid() && g.DistanceValid()
    requires m.ValidOcc(Occurrence(poly, vertex))
    requires distances.Length == |m.points|
    modifies distances
    ensures distances[m.PointOf(Occurrence(poly, vertex))] == 0.0
    ensures forall j :: 0 <= j < distances.Length && j != m.PointOf(Occurrence(poly, vertex)) ==>
      distances[j] == GREATER_THAN_DISTANCE || 0.0 <= distances[j] < distance
    ensures Frontier(m, g, distance, distances[..], rest, via)
    ensures Rooted(m, g, distances[..], m.PointOf(Occurrence(poly, vertex)), par)
    ensures exhausted ==> |rest| > 0
    ensures !exhausted && distance >= 0.0 ==> rest == []
    ensures !exhausted && distance >= 0.0 ==>
      forall j :: 0 <= j < distances.Length && distances[j] >= 0.0 ==>
        RelaxedAround(m, g, distances[..], via[j], distance)
  {
    ResetDistances(distances);
    var start := Occurrence(poly, vertex);
    var source := m.PointOf(start);
    distances[source] := 0.0;
    var queue := new Queue();
    queue.Insert(start, 0.0);
    assert queue.items[0].occ == start;
    via := seq(|m.points|, _ => start);
    par := via;
    exhausted := false;
    var budget := fuel;
    while !queue.IsEmpty()
      invariant Bounded(distances[..], source, distance)
      invariant Frontier(m, g, distance, distances[..], queue.items, via)
      invariant Rooted(m, g, distances[..], source, par)
      invariant !exhausted
      decreases budget
    {
      if budget == 0 {
        exhausted := true;
        rest := queue.items;
        return;
      }
      budget := budget - 1;
      ghost var before := queue.items;
      var entry, key, at := queue.RemoveMax();
      var pointIndex := m.PointOf(entry);
      if distances[pointIndex] > distance {
        rest := before;
        return;
      }
      ghost var d0, via0 := distances[..], via;
      via := RelaxAround(m, g, distance, distances, queue, entry, via);
      PropagationStep(m, g, distance, source, d0, distances[..], before, at, queue.items, via0, via, par);
      par := Reparent(par, d0, distances[..], entry);
    }
    rest := queue.items;
    FrontierEmpty(m, g, distance, distances[..], via);
  }
}
