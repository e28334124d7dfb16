/**
 * A directed road edge of the horizon graph. Its identity (id, end nodes, length,
 * counterpart, direction, OSM way) is fixed at construction; its centre line, bounds
 * and the OSM attributes copied from a drivable path are updated in place.
 */
module Edges {
  import opened Util
  import opened Geo
  import opened Osm

  /** The node id a tile uses for an end that has no node. */
  const NULL_NODE: int := -1

  /**
   * A drivable path of a vector tile: a polyline with its OSM attributes and the ids
   * of the edges that run along it.
   */
  datatype DrivablePath = DrivablePath(
    id: Int64,
    edgeIds: set<Int64>,
    points: seq<LngLat>,
    name: Option<string>,
    wayType: Option<WayType>,
    osmWayId: Int64,
    osmMaxSpeed: Int32)

  /** Every field of an edge, as `Edge.Builder` holds them before `build`. */
  datatype EdgeFields = EdgeFields(
    id: Int64,
    length: real,
    nodeIdIn: Int64,
    nodeIdOut: Int64,
    counterpartId: Int64,
    inverse: bool,
    osmWayId: Int64,
    osmMaxSpeed: Int32,
    osmWayType: Option<WayType>,
    centerLine: Option<seq<LngLat>>,
    bounds: Option<BoundingBox>)

  /** The sequence in the opposite order. */
  function Reversed<T>(s: seq<T>): (r: seq<T>)
    ensures |r| == |s|
    ensures forall i :: 0 <= i < |s| ==> r[i] == s[|s| - 1 - i]
  {
    if s == [] then [] else Reversed(s[1..]) + [s[0]]
  }

  /** Reversing twice gives the sequence back. */
  lemma ReversedTwice<T>(s: seq<T>)
    ensures Reversed(Reversed(s)) == s
  {
    assert forall i :: 0 <= i < |s| ==> Reversed(Reversed(s))[i] == s[i];
  }

  /** `Long.hashCode`: the low 32 bits of the value xor-ed with its high 32 bits. */
  function LongHash(v: Int64): (h: Int32)
    ensures 0 <= v <= INT32_MAX ==> h == v
  {
    var u: nat := if v < 0 then v + 0x1_0000_0000_0000_0000 else v;
    Wrap32(Xor(u % TWO_32, u / TWO_32))
  }

  /** Bitwise exclusive or of two naturals, one binary digit at a time. */
  function Xor(a: nat, b: nat): (r: nat)
    ensures b == 0 ==> r == a
  {
    if a == 0 && b == 0 then 0
    else 2 * Xor(a / 2, b / 2) + (if a % 2 == b % 2 then 0 else 1)
  }

  class Edge {
    const id: Int64
    const length: real
    const nodeIdIn: Int64
    const nodeIdOut: Int64
    const counterpartId: Int64
    const inverse: bool
    const osmWayId: Int64
    var osmMaxSpeed: Int32
    var osmWayType: Option<WayType>
    var centerLine: Option<seq<LngLat>>
    var bounds: Option<BoundingBox>

    /**
     * The public constructor. The shorter Java overloads pass counterpart -1, not
     * inverse, way -1 and no bounds. The length is not checked: the Java assertion
     * on it is disabled at run time.
     */
    constructor (id: Int64, length: real, nodeIdIn: Int64, nodeIdOut: Int64, counterpartId: Int64,
                 inverse: bool, osmWayId: Int64, bounds: Option<BoundingBox>)
      ensures Fields() == EdgeFields(id, length, nodeIdIn, nodeIdOut, counterpartId, inverse,
                                     osmWayId, 0, None, None, bounds)
    {
      this.id := id;
      this.length := length;
      this.nodeIdIn := nodeIdIn;
      this.nodeIdOut := nodeIdOut;
      this.counterpartId := counterpartId;
      this.inverse := inverse;
      this.osmWayId := osmWayId;
      this.osmMaxSpeed := 0;
      this.osmWayType := None;
      this.centerLine := None;
      this.bounds := bounds;
    }

    /** `Edge.Builder.build`: an edge holding exactly the builder's fields. */
    constructor Build(f: EdgeFields)
      ensures Fields() == f
    {
      id := f.id;
      length := f.length;
      nodeIdIn := f.nodeIdIn;
      nodeIdOut := f.nodeIdOut;
      counterpartId := f.counterpartId;
      inverse := f.inverse;
      osmWayId := f.osmWayId;
      osmMaxSpeed := f.osmMaxSpeed;
      osmWayType := f.osmWayType;
      centerLine := f.centerLine;
      bounds := f.bounds;
    }

    function Fields(): EdgeFields
      reads this
    {
      EdgeFields(id, length, nodeIdIn, nodeIdOut, counterpartId, inverse, osmWayId,
                 osmMaxSpeed, osmWayType, centerLine, bounds)
    }

    /**
     * `Edge.newBuilder(copy)`: a builder holding every field of the edge; it
     * dereferences the centre line and the bounds, so either being null raises.
     */
    function NewBuilder(): (r: Outcome<EdgeFields>)
      reads this
      ensures r.Raised? <==> centerLine.None? || bounds.None?
      ensures r.Raised? ==> r.fault == NullPointer
      ensures r.Ok? ==> (r.value.id == id && r.value.length == length
                && r.value.nodeIdIn == nodeIdIn && r.value.nodeIdOut == nodeIdOut
                && r.value.counterpartId == counterpartId && r.value.inverse == inverse
                && r.value.osmWayId == osmWayId && r.value.osmMaxSpeed == osmMaxSpeed
                && r.value.osmWayType == osmWayType && r.value.centerLine == centerLine
                && r.value.bounds == bounds)
    {
      if centerLine.None? || bounds.None? then Raised(NullPointer)
      else Ok(Fields())
    }

    method SetBounds(b: Option<BoundingBox>)
      modifies this
      ensures bounds == b
      ensures centerLine == old(centerLine) && osmMaxSpeed == old(osmMaxSpeed) && osmWayType == old(osmWayType)
    {
      bounds := b;
    }

    /** `Edge.contains`: false without bounds, otherwise inclusive containment. */
    function Contains(p: Option<LngLat>): (b: bool)
      reads this
      ensures b ==> bounds.Some? && p.Some?
      ensures bounds.Some? && !IsEmpty(bounds.value) && p == Some(bounds.value.southwest) ==> b
    {
      Geo.Contains(bounds, p)
    }

    /** `Edge.equals`: two edges are equal exactly when their ids are. */
    function Equals(that: Edge?): (b: bool)
      ensures that == this ==> b
      ensures b ==> that != null && that.HashCode() == HashCode()
    {
      that != null && that.id == id
    }

    /** `Edge.hashCode`: `Objects.hash(id)`, which depends on the id alone. */
    function HashCode(): (h: Int32)
      ensures (h - (31 + LongHash(id))) % TWO_32 == 0
    {
      Wrap32(31 + LongHash(id))
    }

    /** `Edge.hasCenterLine`: whether a centre line is present. */
    function HasCenterLine(): (b: bool)
      reads this
      ensures b <==> centerLine.Some?
    {
      centerLine.Some?
    }

    /** `Edge.getOsmWayType`: the copied way type, UNKNOWN when none was copied. */
    function GetOsmWayType(): (w: WayType)
      reads this
      ensures osmWayType.None? ==> w == Unknown
      ensures osmWayType.Some? ==> w == osmWayType.value
    {
      if osmWayType.Some? then osmWayType.value else Unknown
    }

    /**
     * `Edge.setDrivablePath`: the path's points become the centre line, reversed for
     * an inverse edge, and its speed and way type are copied; a null path clears them,
     * with speed -1.
     */
    method SetDrivablePath(path: Option<DrivablePath>)
      modifies this
      ensures path.Some? ==> (centerLine == Some(Oriented(path.value.points, inverse))
                && osmMaxSpeed == path.value.osmMaxSpeed && osmWayType == path.value.wayType)
      ensures path.None? ==> centerLine == None && osmMaxSpeed == -1 && osmWayType == None
      ensures bounds == old(bounds)
    {
      if path.Some? {
        var points := path.value.points;
        if inverse {
          points := Reversed(points);
        }
        centerLine := Some(points);
        osmMaxSpeed := path.value.osmMaxSpeed;
        osmWayType := path.value.wayType;
      } else {
        centerLine := None;
        osmMaxSpeed := -1;
        osmWayType := None;
      }
    }
  }

  /** A drivable path's points in the direction of travel of an edge. */
  function Oriented(points: seq<LngLat>, inverse: bool): (r: seq<LngLat>)
    ensures |r| == |points|
    ensures !inverse ==> r == points
    ensures inverse ==> forall i :: 0 <= i < |points| ==> r[i] == points[|points| - 1 - i]
  {
    if inverse then Reversed(points) else points
  }

  /** Edge equality is an equivalence on which the hash code agrees. */
  lemma EqualsConsistent(a: Edge, b: Edge, c: Edge)
    ensures a.Equals(a)
    ensures a.Equals(b) <==> b.Equals(a)
    ensures a.Equals(b) && b.Equals(c) ==> a.Equals(c)
    ensures a.Equals(b) ==> a.HashCode() == b.HashCode()
  {}

  /** Copying an edge through its builder and building it gives back every field. */
  method Copy(e: Edge) returns (r: Outcome<Edge>)
    ensures r.Raised? <==> e.centerLine.None? || e.bounds.None?
    ensures r.Ok? ==> fresh(r.value) && r.value.Fields() == e.Fields()
  {
    var b := e.NewBuilder();
    if b.Raised? {
      return Raised(b.fault);
    }
    var copy := new Edge.Build(b.value);
    return Ok(copy);
  }
}
