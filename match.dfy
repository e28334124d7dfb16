/**
 * Candidate matches of a position against an edge. A match projects the position
 * onto the edge's centre line, measures the distance to the projection and the
 * bearing offset against a reference direction, and combines them into a cost.
 */
module Matching {
  import opened Util
  import opened Geo
  import opened Bearing
  import opened Ruler
  import opened Edges
  import opened Cost

  const THRESHOLD_MATCH_DISTANCE_M: real := 10.0
  const THRESHOLD_MATCH_BEARING_OFFSET: real := 30.0
  const WEIGHT_SAME_EDGE: real := 10.0
  const WEIGHT_BEARING: real := 0.5
  const WEIGHT_DISTANCE: real := 1.0

  /**
   * A computed match: the edge, the centre line it was projected onto, the
   * projection, the distance to it, the bearing offset and the cost.
   */
  datatype Match = Match(
    edge: Edge,
    line: seq<LngLat>,
    pointOnLine: PointOnLine,
    distance: real,
    bearingOffset: real,
    cost: real)

  /** `BaseMatch.matches(distance, offset)`: both strictly under their thresholds. */
  function WithinThresholds(distance: real, bearingOffset: real): (b: bool)
    ensures b <==> distance < 10.0 && bearingOffset < 30.0
  {
    distance < THRESHOLD_MATCH_DISTANCE_M && bearingOffset < THRESHOLD_MATCH_BEARING_OFFSET
  }

  /** `BaseMatch.isPassed`: the projection sits at the very end of the last segment. */
  function IsPassed(pol: PointOnLine, lineSize: int): (b: bool)
    ensures b ==> pol.t == 1.0 && pol.index == lineSize - 2
  {
    pol.t == 1.0 && pol.index == lineSize - 2
  }

  /** `matches()` of both match kinds. */
  function Matches(m: Match): (b: bool)
    ensures b <==> m.distance < 10.0 && m.bearingOffset < 30.0 && !IsPassed(m.pointOnLine, |m.line|)
  {
    WithinThresholds(m.distance, m.bearingOffset) && !IsPassed(m.pointOnLine, |m.line|)
  }

  /** The thresholds are strict: exactly 10 m or exactly 30 degrees does not match. */
  lemma ThresholdsAreStrict(d: real, off: real)
    ensures !WithinThresholds(THRESHOLD_MATCH_DISTANCE_M, off)
    ensures !WithinThresholds(d, THRESHOLD_MATCH_BEARING_OFFSET)
    ensures WithinThresholds(d, off) <==> d < 10.0 && off < 30.0
  {}

  /**
   * The bearing of the segment a projection lies on. Java's `List.get` raises when the
   * segment index does not name a segment of the line.
   */
  function SegmentBearing(ruler: Ruler, line: seq<LngLat>, pol: PointOnLine): (r: Outcome<real>)
    ensures r.Ok? <==> 0 <= pol.index && pol.index + 1 < |line|
    ensures r.Raised? ==> r.fault == IndexOutOfBounds
    ensures r.Ok? ==> r.value == ruler.bearing(line[pol.index], line[pol.index + 1])
  {
    if 0 <= pol.index && pol.index + 1 < |line| then Ok(ruler.bearing(line[pol.index], line[pol.index + 1]))
    else Raised(IndexOutOfBounds)
  }

  /**
   * `EdgeAndLocationMatch`: a candidate for continuing from `previousEdge`. The
   * offset is taken against the direction of travel from the previous position, and
   * staying on the previous edge is favoured by the same-edge weight.
   */
  function ForEdgeAndLocation(ruler: Ruler, previousEdge: Edge, edge: Edge,
                              previousPosition: Option<LngLat>, newPosition: LngLat): (r: Outcome<Match>)
    reads edge
    ensures r.Raised? <==> (edge.centerLine.None? || previousPosition.None?
                           || SegmentBearing(ruler, edge.centerLine.value,
                                             ruler.pointOnLine(edge.centerLine.value, newPosition)).Raised?)
    ensures r.Ok? ==> r.value.edge == edge && Some(r.value.line) == edge.centerLine
    ensures r.Ok? ==> r.value.pointOnLine == ruler.pointOnLine(r.value.line, newPosition)
    ensures r.Ok? ==> r.value.distance == ruler.distance(newPosition, r.value.pointOnLine.point)
    ensures r.Ok? ==> r.value.bearingOffset == Abs(Diff(ruler.bearing(previousPosition.value, newPosition),
                        SegmentBearing(ruler, r.value.line, r.value.pointOnLine).value))
    ensures r.Ok? ==> 0.0 <= r.value.bearingOffset <= HALF_ROTATION
    ensures r.Ok? ==> r.value.cost == (if previousEdge.id == edge.id then 0.0 else WEIGHT_SAME_EDGE)
                                      + WEIGHT_BEARING * r.value.bearingOffset
                                      + WEIGHT_DISTANCE * r.value.distance
  {
    if edge.centerLine.None? then Raised(NullPointer)
    else
      var line := edge.centerLine.value;
      var pol := ruler.pointOnLine(line, newPosition);
      var distance := ruler.distance(newPosition, pol.point);
      var bearing := SegmentBearing(ruler, line, pol);
      if bearing.Raised? then Raised(bearing.fault)
      else if previousPosition.None? then Raised(NullPointer)
      else
        var offset := DiffAbs(ruler.bearing(previousPosition.value, newPosition), bearing.value, true);
        var sameEdge := Term(WEIGHT_SAME_EDGE, if previousEdge.id == edge.id then 0.0 else 1.0);
        var terms := [sameEdge, Term(WEIGHT_BEARING, offset), Term(WEIGHT_DISTANCE, distance)];
        WeightedSumOfThree(terms[0], terms[1], terms[2]);
        Ok(Match(edge, line, pol, distance, offset, WeightedSum(terms)))
  }

  /**
   * `LocationHistoryMatch`: a candidate for relocating onto an edge. The offset is
   * taken against a reference bearing, but the cost weights the segment's own
   * bearing, not the offset.
   */
  function ForLocation(ruler: Ruler, edge: Edge, rawPosition: LngLat, referenceBearing: real): (r: Outcome<Match>)
    reads edge
    ensures r.Raised? <==> (edge.centerLine.None?
                           || SegmentBearing(ruler, edge.centerLine.value,
                                             ruler.pointOnLine(edge.centerLine.value, rawPosition)).Raised?)
    ensures r.Ok? ==> r.value.edge == edge && Some(r.value.line) == edge.centerLine
    ensures r.Ok? ==> r.value.pointOnLine == ruler.pointOnLine(r.value.line, rawPosition)
    ensures r.Ok? ==> r.value.distance == ruler.distance(rawPosition, r.value.pointOnLine.point)
    ensures r.Ok? ==> r.value.bearingOffset == Abs(Diff(referenceBearing,
                        SegmentBearing(ruler, r.value.line, r.value.pointOnLine).value))
    ensures r.Ok? ==> r.value.cost == WEIGHT_BEARING * SegmentBearing(ruler, r.value.line, r.value.pointOnLine).value
                                      + WEIGHT_DISTANCE * r.value.distance
  {
    if edge.centerLine.None? then Raised(NullPointer)
    else
      var line := edge.centerLine.value;
      var pol := ruler.pointOnLine(line, rawPosition);
      var distance := ruler.distance(rawPosition, pol.point);
      var bearing := SegmentBearing(ruler, line, pol);
      if bearing.Raised? then Raised(bearing.fault)
      else
        var offset := DiffAbs(referenceBearing, bearing.value, true);
        var terms := [Term(WEIGHT_BEARING, bearing.value), Term(WEIGHT_DISTANCE, distance)];
        WeightedSumOfTwo(terms[0], terms[1]);
        Ok(Match(edge, line, pol, distance, offset, WeightedSum(terms)))
  }

  /**
   * With the same projection, distance and offset, staying on the previous edge costs
   * exactly the same-edge weight less than moving to another edge.
   */
  lemma StayingIsCheaper(ruler: Ruler, previousEdge: Edge, other: Edge,
                         previousPosition: Option<LngLat>, newPosition: LngLat)
    requires other.id != previousEdge.id
    requires ForEdgeAndLocation(ruler, previousEdge, previousEdge, previousPosition, newPosition).Ok?
    requires ForEdgeAndLocation(ruler, previousEdge, other, previousPosition, newPosition).Ok?
    requires var stay := ForEdgeAndLocation(ruler, previousEdge, previousEdge, previousPosition, newPosition).value;
             var move := ForEdgeAndLocation(ruler, previousEdge, other, previousPosition, newPosition).value;
             stay.distance == move.distance && stay.bearingOffset == move.bearingOffset
    ensures ForEdgeAndLocation(ruler, previousEdge, previousEdge, previousPosition, newPosition).value.cost
            + WEIGHT_SAME_EDGE
            == ForEdgeAndLocation(ruler, previousEdge, other, previousPosition, newPosition).value.cost
  {}

  /**
   * `filter(Match::matches).min(comparingDouble(Match::cost))`: the position of the
   * matching candidate of least cost, the first of them on ties; None when no
   * candidate matches.
   */
  function Cheapest(ms: seq<Match>): (k: Option<nat>)
    ensures k.None? <==> forall i :: 0 <= i < |ms| ==> !Matches(ms[i])
    ensures k.Some? ==> k.value < |ms| && Matches(ms[k.value])
    ensures k.Some? ==> forall i :: 0 <= i < |ms| && Matches(ms[i]) ==> ms[k.value].cost <= ms[i].cost
    ensures k.Some? ==> forall i :: 0 <= i < k.value && Matches(ms[i]) ==> ms[k.value].cost < ms[i].cost
  {
    if ms == [] then None
    else
      var k := Cheapest(ms[..|ms| - 1]);
      var last := ms[|ms| - 1];
      if !Matches(last) then k
      else if k.None? || last.cost < ms[k.value].cost then Some(|ms| - 1)
      else k
  }
}
