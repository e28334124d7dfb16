/**
 * The planar geometry the engine takes from its "cheap ruler" and from Turf: distances,
 * bearings, projection of a point onto a polyline, slicing a polyline by distance
 * along it and measuring its length. Their floating-point formulas are not modelled;
 * a `Ruler` is any collection of such functions, and every property proved about the
 * engine holds whichever functions it holds.
 */
module Ruler {
  import opened Geo

  /**
   * The projection of a point onto a polyline: the nearest point, the index of the
   * segment it lies on and its position `t` along that segment.
   */
  datatype PointOnLine = PointOnLine(point: LngLat, index: int, t: real)

  datatype Ruler = Ruler(
    distance: (LngLat, LngLat) -> real,
    bearing: (LngLat, LngLat) -> real,
    pointOnLine: (seq<LngLat>, LngLat) -> PointOnLine,
    distanceAlong: (seq<LngLat>, PointOnLine) -> real,
    lineSliceAlong: (real, real, seq<LngLat>) -> seq<LngLat>,
    lineDistance: seq<LngLat> -> real)
}
