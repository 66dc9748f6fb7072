/**
 * The polygon mesh the estimator reads (bicpl's polygons_struct): its points,
 * the point indices of all polygons laid end to end, and for each polygon the
 * end of its run of indices. The mesh is never changed by the estimator.
 */
module Mesh {
  import opened Geometry

  /** One occurrence of a point in a polygon: the polygon and the vertex position inside it. */
  datatype Occurrence = Occurrence(poly: nat, vertex: nat)

  /**
   * `around` stands for get_polygons_around_vertex: given an occurrence it lists the
   * polygons that surround that vertex. Its body is not part of this model; all the
   * estimator relies on is that it lists polygon indices of this mesh.
   */
  datatype Polygons = Polygons(
    points: seq<Point>,
    indices: seq<nat>,
    endIndices: seq<nat>,
    around: (nat, nat) -> seq<nat>)
  {
    /** n_items: the number of polygons. */
    function NItems(): nat {
      |endIndices|
    }

    /** START_INDEX: where polygon `poly`'s run of indices begins. */
    function Start(poly: nat): nat
      requires poly < |endIndices|
    {
      if poly == 0 then 0 else endIndices[poly - 1]
    }

    /** Every polygon's run lies inside `indices`, every index names a point, `around` names polygons. */
    ghost predicate Valid() {
      (forall q :: 0 <= q < |endIndices| ==> Start(q) <= endIndices[q] <= |indices|)
      && (forall k :: 0 <= k < |indices| ==> indices[k] < |points|)
      && (forall q, v, k :: 0 <= k < |around(q, v)| ==> around(q, v)[k] < |endIndices|)
    }

    /** GET_OBJECT_SIZE: the number of vertices of polygon `poly`. */
    function Size(poly: nat): (n: nat)
      requires Valid() && poly < |endIndices|
      ensures Start(poly) + n <= |indices|
    {
      endIndices[poly] - Start(poly)
    }

    /** POINT_INDEX: the position of vertex `vertex` of `poly` in `indices`; as in C, `vertex` is not checked against the polygon's size. */
    function FlatIndex(poly: nat, vertex: nat): nat
      requires poly < |endIndices|
    {
      Start(poly) + vertex
    }

    predicate ValidOcc(o: Occurrence)
      requires Valid()
    {
      o.poly < |endIndices| && o.vertex < Size(o.poly)
    }

    /** The point at an occurrence. */
    function PointOf(o: Occurrence): (r: nat)
      requires Valid() && ValidOcc(o)
      ensures r < |points|
    {
      indices[FlatIndex(o.poly, o.vertex)]
    }

    /** distance_between_points applied to two points of the mesh, by index. */
    function Edge(g: Measures, a: nat, b: nat): real
      requires a < |points| && b < |points|
    {
      g.distance(points[a], points[b])
    }
  }
}
