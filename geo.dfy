/**
 * Geographic coordinates and the bounding-box helpers of the engine's geo package.
 * Coordinates are real numbers; GeoJSON's null references are `Option`s.
 */
module Geo {
  import opened Util

  /** A GeoJSON point: longitude first, then latitude. */
  datatype LngLat = LngLat(lon: real, lat: real)

  /**
   * A GeoJSON `Point` object. It never changes, but the tracker compares positions by
   * reference, so it is an object and not a value.
   */
  class Point {
    const coordinates: LngLat

    constructor (coordinates: LngLat)
      ensures this.coordinates == coordinates
    {
      this.coordinates := coordinates;
    }
  }

  /** A GeoJSON bounding box given by its south-west and north-east corners. */
  datatype BoundingBox = BoundingBox(southwest: LngLat, northeast: LngLat)
  {
    function West(): real { southwest.lon }
    function South(): real { southwest.lat }
    function East(): real { northeast.lon }
    function North(): real { northeast.lat }
  }

  /** The largest latitude the Web-Mercator tiles reach. */
  const LATITUDE_MAX: real := 85.0511

  /** Inclusive containment on all four sides. */
  predicate Inside(box: BoundingBox, p: LngLat)
  {
    p.lat <= box.North() && p.lat >= box.South() && p.lon <= box.East() && p.lon >= box.West()
  }

  /** `BoundingBoxUtils.contains`: false when the box or the point is null. */
  function Contains(box: Option<BoundingBox>, p: Option<LngLat>): (b: bool)
    ensures b ==> box.Some? && p.Some?
    ensures box.Some? && !IsEmpty(box.value) && (p == Some(box.value.southwest) || p == Some(box.value.northeast)) ==> b
  {
    box.Some? && p.Some? && Inside(box.value, p.value)
  }

  /** `BoundingBoxUtils.isEmpty`: the south-west corner lies north or east of the north-east one. */
  function IsEmpty(box: BoundingBox): (b: bool)
    ensures !b ==> Inside(box, box.southwest) && Inside(box, box.northeast)
  {
    box.southwest.lat > box.northeast.lat || box.southwest.lon > box.northeast.lon
  }

  /** A box is empty exactly when no point lies inside it. */
  lemma EmptyIffNoPoint(box: BoundingBox)
    ensures IsEmpty(box) <==> forall p :: !Inside(box, p)
  {
    if !IsEmpty(box) {
      assert Inside(box, box.southwest);
    }
  }

  /**
   * `BoundingBoxUtils.extend`: the smallest box that holds the point and both
   * corners of the given box.
   */
  function Extend(box: BoundingBox, p: LngLat): (r: BoundingBox)
    ensures Inside(r, p)
    ensures forall q :: Inside(box, q) ==> Inside(r, q)
    ensures !IsEmpty(box) ==> !IsEmpty(r)
    ensures forall c :: Inside(c, p) && Inside(c, box.southwest) && Inside(c, box.northeast) ==>
              Inside(c, r.southwest) && Inside(c, r.northeast)
  {
    var south := if p.lat < box.South() then p.lat else box.South();
    var north := if p.lat > box.North() then p.lat else box.North();
    var west := if p.lon < box.West() then p.lon else box.West();
    var east := if p.lon > box.East() then p.lon else box.East();
    BoundingBox(LngLat(west, south), LngLat(east, north))
  }

  /** `BoundingBoxUtils.fromCoordinates`: the hull of two arbitrary points, never empty. */
  function FromCoordinates(a: LngLat, b: LngLat): (r: BoundingBox)
    ensures Inside(r, a) && Inside(r, b)
    ensures !IsEmpty(r)
    ensures forall c :: Inside(c, a) && Inside(c, b) ==> Inside(c, r.southwest) && Inside(c, r.northeast)
  {
    Extend(BoundingBox(a, a), b)
  }

  /**
   * `BoundingBoxUtils.toPolygon`: one closed ring NE, SE, SW, NW, NE running along the
   * box's sides.
   */
  function ToPolygon(box: BoundingBox): (rings: seq<seq<LngLat>>)
    ensures |rings| == 1 && |rings[0]| == 5
    ensures rings[0][0] == rings[0][4] == box.northeast
    ensures rings[0][2] == box.southwest
    ensures rings[0][1] == LngLat(box.East(), box.South()) && rings[0][3] == LngLat(box.West(), box.North())
    ensures forall i :: 0 <= i < 4 ==>
              rings[0][i].lon == rings[0][i + 1].lon || rings[0][i].lat == rings[0][i + 1].lat
    ensures !IsEmpty(box) ==> forall i :: 0 <= i < 5 ==> Inside(box, rings[0][i])
  {
    [[box.northeast, LngLat(box.East(), box.South()), box.southwest,
      LngLat(box.West(), box.North()), box.northeast]]
  }
}
