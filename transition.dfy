/**
 * The transition model of the horizon tracker: the cost of moving from one edge onto
 * a successor, the shift of a list of costs into a positive range and the turning of
 * costs into probabilities that are inversely proportional to them.
 */
module Transition {
  import opened Util
  import opened Bearing
  import opened Ruler
  import opened Osm
  import opened Edges
  import opened Cost

  /** The bearing change above which a sharp turn costs extra. */
  const HIGH_BEARING_START: real := 120.0

  function MinOf(xs: seq<real>): (m: real)
    requires |xs| > 0
    ensures forall i :: 0 <= i < |xs| ==> m <= xs[i]
  {
    xs[FirstMinIndex(xs)]
  }

  function MaxOf(xs: seq<real>): (m: real)
    requires |xs| > 0
    ensures forall i :: 0 <= i < |xs| ==> xs[i] <= m
  {
    xs[FirstMaxIndex(xs)]
  }

  /**
   * `shiftToPositiveRange`: fewer than two costs are kept; otherwise every cost is
   * raised by max(1, 1 - min), which makes each at least 1; all move by the same amount.
   */
  function ShiftToPositiveRange(costs: seq<real>): (r: seq<real>)
    ensures |r| == |costs|
    ensures |costs| < 2 ==> r == costs
    ensures |costs| >= 2 ==> forall i :: 0 <= i < |r| ==> r[i] >= 1.0
    ensures forall i :: 0 <= i < |r| ==> r[i] - costs[i] == r[0] - costs[0]
    ensures |costs| >= 2 ==> r[0] - costs[0] == Max(1.0, 1.0 - MinOf(costs))
  {
    if |costs| < 2 then costs
    else
      var lower := Max(1.0, 1.0 - MinOf(costs));
      seq(|costs|, i requires 0 <= i < |costs| => lower + costs[i])
  }

  predicate AllEqual(xs: seq<real>)
  {
    forall i, j :: 0 <= i < |xs| && 0 <= j < |xs| ==> xs[i] == xs[j]
  }

  /** The inverse of a cost, with a zero cost counted as 1. */
  function Inverse(c: real): (r: real)
    requires c >= 0.0
    ensures r > 0.0
  {
    if c == 0.0 then 1.0 else 1.0 / c
  }

  /**
   * `normalizedProbabilities`: nothing for no costs, certainty for one, a uniform
   * distribution when all costs are equal, and otherwise each inverse cost divided by
   * the sum of the inverse costs.
   */
  function NormalizedProbabilities(costs: seq<real>): (r: seq<real>)
    requires |costs| >= 2 ==> forall i :: 0 <= i < |costs| ==> costs[i] >= 0.0
    ensures |r| == |costs|
    ensures |costs| == 1 ==> r == [1.0]
    ensures |costs| > 0 ==> IsDistribution(r)
    ensures |costs| > 0 && AllEqual(costs) ==> forall i :: 0 <= i < |r| ==> r[i] == 1.0 / (|costs| as real)
    ensures InverselyProportional(costs, r)
  {
    if |costs| == 0 then []
    else if |costs| == 1 then
      assert [1.0][..0] == [];
      [1.0]
    else if MinOf(costs) == MaxOf(costs) then
      AllEqualIffMinIsMax(costs);
      Uniform(|costs|)
    else
      AllEqualIffMinIsMax(costs);
      InverseShares(costs)
  }

  lemma AllEqualIffMinIsMax(xs: seq<real>)
    requires |xs| > 0
    ensures AllEqual(xs) <==> MinOf(xs) == MaxOf(xs)
  {}

  /** `n` equal probabilities. */
  function Uniform(n: nat): (r: seq<real>)
    requires n > 0
    ensures |r| == n && IsDistribution(r)
    ensures forall i :: 0 <= i < n ==> r[i] == 1.0 / (n as real)
  {
    var r := seq(n, i requires 0 <= i < n => 1.0 / (n as real));
    SumConstant(n, 1.0 / (n as real));
    r
  }

  /** Each inverse cost as a share of the sum of all inverse costs. */
  function InverseShares(costs: seq<real>): (r: seq<real>)
    requires |costs| > 0
    requires forall i :: 0 <= i < |costs| ==> costs[i] >= 0.0
    ensures |r| == |costs| && IsDistribution(r) && InverselyProportional(costs, r)
  {
    var inverses := seq(|costs|, i requires 0 <= i < |costs| => Inverse(costs[i]));
    var total := Sum(inverses);
    SumPositive(inverses);
    var r := seq(|costs|, i requires 0 <= i < |costs| => inverses[i] / total);
    SharesFacts(costs, inverses, total, r);
    r
  }

  /** Probabilities: each in (0, 1], together summing to 1. */
  predicate IsDistribution(r: seq<real>)
  {
    Sum(r) == 1.0 && forall i :: 0 <= i < |r| ==> 0.0 < r[i] <= 1.0
  }

  /** Each probability times its positive cost is the same for all costs. */
  predicate InverselyProportional(costs: seq<real>, r: seq<real>)
    requires |r| == |costs|
  {
    forall i, j :: 0 <= i < |r| && 0 <= j < |r| ==> SameWeight(costs, r, i, j)
  }

  /** The probabilities at `i` and `j` times their costs agree when both costs are positive. */
  predicate SameWeight(costs: seq<real>, r: seq<real>, i: int, j: int)
    requires |r| == |costs| && 0 <= i < |r| && 0 <= j < |r|
  {
    costs[i] > 0.0 && costs[j] > 0.0 ==> r[i] * costs[i] == r[j] * costs[j]
  }

  lemma SharesFacts(costs: seq<real>, inverses: seq<real>, total: real, r: seq<real>)
    requires |costs| > 0 && |inverses| == |costs| && |r| == |costs|
    requires forall i :: 0 <= i < |costs| ==> costs[i] >= 0.0 && inverses[i] == Inverse(costs[i])
    requires total == Sum(inverses) && total > 0.0
    requires forall i :: 0 <= i < |costs| ==> r[i] == inverses[i] / total
    ensures IsDistribution(r) && InverselyProportional(costs, r)
  {
    SumPositive(inverses);
    SharesSumToOne(inverses, total, r);
    SharesInUnit(inverses, total, r);
    InverseProportional(costs, inverses, total, r);
  }

  lemma SharesSumToOne(inverses: seq<real>, total: real, r: seq<real>)
    requires total == Sum(inverses) && total > 0.0 && |r| == |inverses|
    requires forall i :: 0 <= i < |r| ==> r[i] == inverses[i] / total
    ensures Sum(r) == 1.0
  {
    SumScaled(inverses, total, r);
    SelfQuotient(total);
  }

  lemma SelfQuotient(t: real)
    requires t > 0.0
    ensures t / t == 1.0
  {}

  lemma SharesInUnit(inverses: seq<real>, total: real, r: seq<real>)
    requires total > 0.0 && |r| == |inverses|
    requires forall i :: 0 <= i < |r| ==> 0.0 < inverses[i] <= total && r[i] == inverses[i] / total
    ensures forall i :: 0 <= i < |r| ==> 0.0 < r[i] <= 1.0
  {
    forall i | 0 <= i < |r|
      ensures 0.0 < r[i] <= 1.0
    {
      ShareBounds(inverses[i], total);
    }
  }

  lemma ShareBounds(x: real, total: real)
    requires 0.0 < x <= total
    ensures 0.0 < x / total <= 1.0
  {}

  lemma InverseProportional(costs: seq<real>, inverses: seq<real>, total: real, r: seq<real>)
    requires |inverses| == |costs| == |r| && total > 0.0
    requires forall i :: 0 <= i < |costs| ==> costs[i] >= 0.0 && inverses[i] == Inverse(costs[i])
    requires forall i :: 0 <= i < |r| ==> r[i] == inverses[i] / total
    ensures forall i, j :: 0 <= i < |r| && 0 <= j < |r| && costs[i] > 0.0 && costs[j] > 0.0 ==>
              r[i] * costs[i] == r[j] * costs[j]
  {
    forall i | 0 <= i < |costs| && costs[i] > 0.0
      ensures r[i] * costs[i] == 1.0 / total
    {
      InverseShare(costs[i], total);
    }
  }

  lemma InverseShare(c: real, total: real)
    requires c > 0.0 && total > 0.0
    ensures ((1.0 / c) / total) * c == 1.0 / total
  {}

  /** A sum of `n` copies of one value. */
  lemma {:induction false} SumConstant(n: nat, c: real)
    ensures Sum(seq(n, i requires 0 <= i < n => c)) == (n as real) * c
  {
    var s := seq(n, i requires 0 <= i < n => c);
    if n > 0 {
      assert s[..n - 1] == seq(n - 1, i requires 0 <= i < n - 1 => c);
      SumConstant(n - 1, c);
    }
  }

  /** A sum of positive values is positive and bounds each of them. */
  lemma {:induction false} SumPositive(xs: seq<real>)
    requires |xs| > 0
    requires forall i :: 0 <= i < |xs| ==> xs[i] > 0.0
    ensures Sum(xs) > 0.0
    ensures forall i :: 0 <= i < |xs| ==> xs[i] <= Sum(xs)
  {
    if |xs| > 1 {
      SumPositive(xs[..|xs| - 1]);
    }
  }

  /** Dividing every element by the same value divides the sum by it. */
  lemma {:induction false} SumScaled(xs: seq<real>, d: real, ys: seq<real>)
    requires d > 0.0 && |ys| == |xs|
    requires forall i :: 0 <= i < |xs| ==> ys[i] == xs[i] / d
    ensures Sum(ys) == Sum(xs) / d
  {
    if |xs| > 0 {
      SumScaled(xs[..|xs| - 1], d, ys[..|ys| - 1]);
      AddQuotients(Sum(xs[..|xs| - 1]), xs[|xs| - 1], d);
    }
  }

  lemma AddQuotients(a: real, b: real, d: real)
    requires d > 0.0
    ensures a / d + b / d == (a + b) / d
  {}

  /**
   * The bearing change from the end of `from`'s centre line to the start of `to`'s:
   * null centre lines and lines with fewer than two points raise.
   */
  function BearingDiff(ruler: Ruler, from: Edge, to: Edge, abs: bool): (r: Outcome<real>)
    reads from, to
    ensures r.Raised? <==> (from.centerLine.None? || to.centerLine.None?
                           || |from.centerLine.value| < 2 || |to.centerLine.value| < 2)
    ensures r.Ok? && abs ==> 0.0 <= r.value <= HALF_ROTATION
    ensures r.Ok? ==> var lineIn := from.centerLine.value; var lineOut := to.centerLine.value;
              r.value == DiffAbs(ruler.bearing(lineIn[|lineIn| - 2], lineIn[|lineIn| - 1]),
                                 ruler.bearing(lineOut[0], lineOut[1]), abs)
  {
    if from.centerLine.None? || to.centerLine.None? then Raised(NullPointer)
    else
      var lineIn := from.centerLine.value;
      var lineOut := to.centerLine.value;
      if |lineIn| < 2 || |lineOut| < 2 then Raised(IndexOutOfBounds)
      else
        Ok(DiffAbs(ruler.bearing(lineIn[|lineIn| - 2], lineIn[|lineIn| - 1]),
                   ruler.bearing(lineOut[0], lineOut[1]), abs))
  }

  /** 0 when `to` continues `from`'s OSM way without turning back onto its counterpart, 1 otherwise. */
  function WayContinuationCost(from: Edge, to: Edge): (r: real)
    ensures r == 0.0 <==> from.osmWayId == to.osmWayId && from.counterpartId != to.id
    ensures r == 0.0 || r == 1.0
  {
    if !(from.osmWayId == to.osmWayId && from.counterpartId != to.id) then 1.0 else 0.0
  }

  function BearingCost(bearingDiff: real): real
  {
    bearingDiff / HALF_ROTATION
  }

  /** Above the start angle the whole bearing change counts, in right angles. */
  function HighBearingChangeCost(bearingDiff: real, startAngle: real): real
  {
    if bearingDiff > startAngle then bearingDiff / RIGHT_ANGLE else 0.0
  }

  /** How many road classes lower `to` is than `from` (negative when it is higher). */
  function WayClassCost(from: Edge, to: Edge): (r: real)
    reads from, to
    ensures r == (to.GetOsmWayType().Order() - from.GetOsmWayType().Order()) as real
  {
    -((from.GetOsmWayType().Order() - to.GetOsmWayType().Order()) as real)
  }

  /** 1 when leaving a non-service road for a service road, 0 otherwise. */
  function ServiceRoadsCost(from: Edge, to: Edge): (r: real)
    reads from, to
    ensures r == 1.0 <==> from.GetOsmWayType() != Service && to.GetOsmWayType() == Service
    ensures r == 0.0 || r == 1.0
  {
    if from.GetOsmWayType() != Service && to.GetOsmWayType() == Service then 1.0 else 0.0
  }

  /** The weighted terms `cost(from, to)` adds up, which depend on `from`'s road class. */
  function CostTerms(from: Edge, to: Edge, bearingDiff: real): seq<Term>
    reads from, to
  {
    BaseTerms(from, to) + TurnTerms(from, to, bearingDiff)
  }

  /** The terms every transition pays: the unit cost, leaving the way, entering a service road. */
  function BaseTerms(from: Edge, to: Edge): seq<Term>
    reads from, to
  {
    [Term(1.0, 1.0), Term(1.0, WayContinuationCost(from, to)), Term(4.0, ServiceRoadsCost(from, to))]
  }

  /** The bearing, sharp-turn and road-class terms, weighted by `from`'s road class. */
  function TurnTerms(from: Edge, to: Edge, bearingDiff: real): seq<Term>
    reads from, to
  {
    match from.GetOsmWayType()
    case Motorway | Trunk =>
      [Term(4.0, BearingCost(bearingDiff)), Term(10.0, WayClassCost(from, to))]
    case Primary | Secondary =>
      [Term(3.0, BearingCost(bearingDiff)), Term(40.0, HighBearingChangeCost(bearingDiff, HIGH_BEARING_START)),
       Term(4.0, WayClassCost(from, to))]
    case _ =>
      [Term(3.0, BearingCost(bearingDiff)), Term(15.0, HighBearingChangeCost(bearingDiff, HIGH_BEARING_START)),
       Term(4.0, WayClassCost(from, to))]
  }

  /**
   * `cost(from, to)`: 1, plus 1 for leaving the way, plus 4 for entering a service road,
   * plus bearing, sharp-turn and road-class terms weighted by `from`'s road class. The
   * sharp-turn term is the whole bearing change over 90 degrees once it exceeds 120.
   */
  function TransitionCost(ruler: Ruler, from: Edge, to: Edge): (r: Outcome<real>)
    reads from, to
    ensures r.Raised? <==> BearingDiff(ruler, from, to, true).Raised?
  {
    var diff := BearingDiff(ruler, from, to, true);
    if diff.Raised? then Raised(diff.fault)
    else Ok(WeightedSum(CostTerms(from, to, diff.value)))
  }

  /** The cost written out term by term, for each class of `from`'s road. */
  lemma TransitionCostFormula(ruler: Ruler, from: Edge, to: Edge)
    requires TransitionCost(ruler, from, to).Ok?
    ensures var b := BearingDiff(ruler, from, to, true).value;
      var way := if from.osmWayId == to.osmWayId && from.counterpartId != to.id then 0.0 else 1.0;
      var service := if from.GetOsmWayType() != Service && to.GetOsmWayType() == Service then 1.0 else 0.0;
      var cls := (to.GetOsmWayType().Order() - from.GetOsmWayType().Order()) as real;
      var high := if b > 120.0 then b / 90.0 else 0.0;
      var wayType := from.GetOsmWayType();
      TransitionCost(ruler, from, to).value == 1.0 + way + 4.0 * service +
        (if wayType == Motorway || wayType == Trunk then 4.0 * (b / 180.0) + 10.0 * cls
         else if wayType == Primary || wayType == Secondary then 3.0 * (b / 180.0) + 40.0 * high + 4.0 * cls
         else 3.0 * (b / 180.0) + 15.0 * high + 4.0 * cls)
  {
    CostTermsSum(from, to, BearingDiff(ruler, from, to, true).value);
  }

  lemma CostTermsSum(from: Edge, to: Edge, b: real)
    ensures var way := WayContinuationCost(from, to);
            var service := ServiceRoadsCost(from, to);
            var cls := WayClassCost(from, to);
            var high := HighBearingChangeCost(b, HIGH_BEARING_START);
            var wayType := from.GetOsmWayType();
            WeightedSum(CostTerms(from, to, b)) == 1.0 + way + 4.0 * service +
              (if wayType == Motorway || wayType == Trunk then 4.0 * (b / 180.0) + 10.0 * cls
               else if wayType == Primary || wayType == Secondary then 3.0 * (b / 180.0) + 40.0 * high + 4.0 * cls
               else 3.0 * (b / 180.0) + 15.0 * high + 4.0 * cls)
  {
    WeightedSumAppend(BaseTerms(from, to), TurnTerms(from, to, b));
    BaseSum(from, to);
    TurnSum(from, to, b);
  }

  /** The terms every transition pays, added up. */
  lemma BaseSum(from: Edge, to: Edge)
    ensures WeightedSum(BaseTerms(from, to)) == 1.0 + WayContinuationCost(from, to) + 4.0 * ServiceRoadsCost(from, to)
  {
    var base := BaseTerms(from, to);
    WeightedSumOfThree(base[0], base[1], base[2]);
  }

  /** The road-class dependent terms, added up for each class of `from`'s road. */
  lemma TurnSum(from: Edge, to: Edge, b: real)
    ensures var cls := WayClassCost(from, to);
            var high := HighBearingChangeCost(b, HIGH_BEARING_START);
            var wayType := from.GetOsmWayType();
            WeightedSum(TurnTerms(from, to, b)) ==
              (if wayType == Motorway || wayType == Trunk then 4.0 * (b / 180.0) + 10.0 * cls
               else if wayType == Primary || wayType == Secondary then 3.0 * (b / 180.0) + 40.0 * high + 4.0 * cls
               else 3.0 * (b / 180.0) + 15.0 * high + 4.0 * cls)
  {
    var turn := TurnTerms(from, to, b);
    if |turn| == 2 {
      WeightedSumOfTwo(turn[0], turn[1]);
    } else {
      WeightedSumOfThree(turn[0], turn[1], turn[2]);
    }
  }

  /**
   * Going straight on along the same way, onto a road of the same class that is not
   * a service road, costs exactly 1, the least any transition onto such a road costs.
   */
  lemma StraightOnCostsOne(ruler: Ruler, from: Edge, to: Edge)
    requires TransitionCost(ruler, from, to).Ok?
    requires BearingDiff(ruler, from, to, true).value == 0.0
    requires from.osmWayId == to.osmWayId && from.counterpartId != to.id
    requires from.GetOsmWayType() == to.GetOsmWayType() && to.GetOsmWayType() != Service
    ensures TransitionCost(ruler, from, to).value == 1.0
  {
    TransitionCostFormula(ruler, from, to);
  }
}
