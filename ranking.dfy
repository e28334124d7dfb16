/**
 * Ranking of candidate edges by their distance from a point, as `weightedMatch` sorts
 * them: a stable insertion sort on the distance, proved to give an ascending
 * permutation of its input.
 */
module Ranking {
  import opened Util
  import opened Edges
  import opened Geo

  /** `MatchResult`: an edge with its distance in metres from the matched point. */
  datatype MatchResult = MatchResult(distance: real, edge: Edge)

  predicate Ascending(xs: seq<MatchResult>)
  {
    forall i, j :: 0 <= i < j < |xs| ==> xs[i].distance <= xs[j].distance
  }

  /** The edges of a list of results. */
  function MatchedEdges(xs: seq<MatchResult>): (es: set<Edge>)
    ensures forall i :: 0 <= i < |xs| ==> xs[i].edge in es
    ensures forall x :: x in es ==> exists i :: 0 <= i < |xs| && xs[i].edge == x
  {
    set i | 0 <= i < |xs| :: xs[i].edge
  }

  /** Every result is at least `d` away. */
  predicate AtLeast(d: real, xs: seq<MatchResult>)
  {
    forall k :: 0 <= k < |xs| ==> d <= xs[k].distance
  }

  /** A bound on every element survives rearranging them. */
  lemma AtLeastPermutation(d: real, a: seq<MatchResult>, b: seq<MatchResult>)
    requires multiset(a) == multiset(b) && AtLeast(d, a)
    ensures AtLeast(d, b)
  {
    forall k | 0 <= k < |b|
      ensures d <= b[k].distance
    {
      assert b[k] in multiset(a);
    }
  }

  /** Puts `m` in front of the first result farther away than it. */
  function Insert(m: MatchResult, xs: seq<MatchResult>): (r: seq<MatchResult>)
    requires Ascending(xs)
    ensures Ascending(r)
    ensures multiset(r) == multiset(xs) + multiset{m} && |r| == |xs| + 1
  {
    if xs == [] then [m]
    else if m.distance <= xs[0].distance then
      [m] + xs
    else
      var rest := Insert(m, xs[1..]);
      InsertBehindHead(m, xs, rest);
      [xs[0]] + rest
  }

  /** The head of `xs` may stay in front of what inserting behind it gives. */
  lemma InsertBehindHead(m: MatchResult, xs: seq<MatchResult>, rest: seq<MatchResult>)
    requires Ascending(xs) && xs != [] && xs[0].distance < m.distance
    requires Ascending(rest) && multiset(rest) == multiset(xs[1..]) + multiset{m}
    ensures Ascending([xs[0]] + rest)
    ensures multiset([xs[0]] + rest) == multiset(xs) + multiset{m}
  {
    assert xs == [xs[0]] + xs[1..];
    assert multiset(rest) == multiset(xs[1..] + [m]);
    AtLeastPermutation(xs[0].distance, xs[1..] + [m], rest);
  }

  /** The results in ascending order of distance. */
  function SortByDistance(xs: seq<MatchResult>): (r: seq<MatchResult>)
    ensures Ascending(r)
    ensures multiset(r) == multiset(xs) && |r| == |xs|
  {
    if xs == [] then []
    else
      assert xs == xs[..|xs| - 1] + [xs[|xs| - 1]];
      Insert(xs[|xs| - 1], SortByDistance(xs[..|xs| - 1]))
  }

  /**
   * In an ascending list, a result that is not among the first `n` is at least as
   * far as each of them.
   */
  lemma BeyondPrefix(sorted: seq<MatchResult>, n: nat, m: MatchResult)
    requires Ascending(sorted) && n <= |sorted|
    requires m in sorted && m !in sorted[..n]
    ensures forall i :: 0 <= i < n ==> sorted[i].distance <= m.distance
  {
    var j :| 0 <= j < |sorted| && sorted[j] == m;
  }

  /**
   * The edges of `centred`, each paired with the distance from the point to its centre
   * line, nearest first and cut to the first `limit`; a negative limit raises, as
   * `Stream.limit` does. The edges are listed in the order a set yields them, so
   * ties come in no particular order.
   */
  method Rank(p: LngLat, limit: Int32, pointToLine: (LngLat, seq<LngLat>) -> real, centred: set<Edge>)
    returns (r: Outcome<seq<MatchResult>>)
    requires forall x :: x in centred ==> x.centerLine.Some?
    ensures r.Raised? <==> limit < 0
    ensures r.Raised? ==> r.fault == IllegalArgument
    ensures r.Ok? ==> |r.value| == (if limit < |centred| then limit else |centred|)
    ensures r.Ok? ==> Ascending(r.value)
    ensures r.Ok? ==> forall i :: 0 <= i < |r.value| ==>
              r.value[i].edge in centred
              && r.value[i].distance == pointToLine(p, r.value[i].edge.centerLine.value)
    ensures r.Ok? ==> forall i, j :: 0 <= i < j < |r.value| ==> r.value[i].edge != r.value[j].edge
    ensures r.Ok? ==> forall x :: x in centred && x !in MatchedEdges(r.value) ==>
              forall i :: 0 <= i < |r.value| ==> r.value[i].distance <= pointToLine(p, x.centerLine.value)
  {
    if limit < 0 {
      return Raised(IllegalArgument);
    }
    var listed := ListOf(centred);
    var results := Measure(p, pointToLine, listed);
    var sorted := SortByDistance(results);
    var n := if limit < |sorted| then limit else |sorted|;
    Measured(p, pointToLine, centred, listed, results, sorted);
    MeasuredDistinct(p, pointToLine, listed, results, sorted);
    NothingNearerLeftOut(p, pointToLine, centred, listed, results, sorted, n);
    r := Ok(sorted[..n]);
  }

  /** Pairs each listed edge with the distance from the point to its centre line. */
  method Measure(p: LngLat, pointToLine: (LngLat, seq<LngLat>) -> real, listed: seq<Edge>)
    returns (results: seq<MatchResult>)
    requires forall k :: 0 <= k < |listed| ==> listed[k].centerLine.Some?
    ensures |results| == |listed|
    ensures forall k :: 0 <= k < |listed| ==>
              results[k] == MatchResult(pointToLine(p, listed[k].centerLine.value), listed[k])
  {
    results := [];
    var i := 0;
    while i < |listed|
      invariant 0 <= i <= |listed| && |results| == i
      invariant forall k :: 0 <= k < i ==>
                  results[k] == MatchResult(pointToLine(p, listed[k].centerLine.value), listed[k])
    {
      results := results + [MatchResult(pointToLine(p, listed[i].centerLine.value), listed[i])];
      i := i + 1;
    }
  }

  /**
   * In the sorted results, an edge of `centred` left out of the first `n` is at
   * least as far from the point as each of them.
   */
  lemma NothingNearerLeftOut(p: LngLat, pointToLine: (LngLat, seq<LngLat>) -> real, centred: set<Edge>,
                             listed: seq<Edge>, results: seq<MatchResult>, sorted: seq<MatchResult>, n: nat)
    requires forall x :: x in centred ==> x in listed
    requires |results| == |listed|
    requires forall k :: 0 <= k < |results| ==> results[k].edge == listed[k]
    requires forall k :: 0 <= k < |results| ==>
               listed[k].centerLine.Some? && results[k].distance == pointToLine(p, listed[k].centerLine.value)
    requires Ascending(sorted) && multiset(sorted) == multiset(results) && n <= |sorted|
    ensures forall x :: x in centred && x !in MatchedEdges(sorted[..n]) ==>
              forall i :: 0 <= i < n ==> sorted[i].distance <= pointToLine(p, x.centerLine.value)
  {
    forall x | x in centred && x !in MatchedEdges(sorted[..n])
      ensures forall i :: 0 <= i < n ==> sorted[i].distance <= pointToLine(p, x.centerLine.value)
    {
      var k :| 0 <= k < |listed| && listed[k] == x;
      assert results[k] in multiset(sorted);
      BeyondPrefix(sorted, n, results[k]);
    }
  }

  /** Each sorted result pairs an edge with a centre line with that line's distance. */
  lemma Measured(p: LngLat, pointToLine: (LngLat, seq<LngLat>) -> real, centred: set<Edge>,
                 listed: seq<Edge>, results: seq<MatchResult>, sorted: seq<MatchResult>)
    requires forall x :: x in centred <==> x in listed
    requires forall x :: x in centred ==> x.centerLine.Some?
    requires |results| == |listed|
    requires forall k :: 0 <= k < |results| ==>
               results[k] == MatchResult(pointToLine(p, listed[k].centerLine.value), listed[k])
    requires multiset(sorted) == multiset(results)
    ensures forall i :: 0 <= i < |sorted| ==>
              sorted[i].edge in centred && sorted[i].distance == pointToLine(p, sorted[i].edge.centerLine.value)
  {
    forall i | 0 <= i < |sorted|
      ensures sorted[i].edge in centred && sorted[i].distance == pointToLine(p, sorted[i].edge.centerLine.value)
    {
      assert sorted[i] in multiset(results);
      var k :| 0 <= k < |results| && results[k] == sorted[i];
    }
  }

  /** Sorting the results of distinct edges lists no edge twice. */
  lemma MeasuredDistinct(p: LngLat, pointToLine: (LngLat, seq<LngLat>) -> real,
                         listed: seq<Edge>, results: seq<MatchResult>, sorted: seq<MatchResult>)
    requires forall k :: 0 <= k < |listed| ==> listed[k].centerLine.Some?
    requires Distinct(listed) && |results| == |listed|
    requires forall k :: 0 <= k < |results| ==>
               results[k] == MatchResult(pointToLine(p, listed[k].centerLine.value), listed[k])
    requires multiset(sorted) == multiset(results)
    requires forall i :: 0 <= i < |sorted| ==>
               sorted[i].edge.centerLine.Some? && sorted[i].distance == pointToLine(p, sorted[i].edge.centerLine.value)
    ensures forall i, j :: 0 <= i < j < |sorted| ==> sorted[i].edge != sorted[j].edge
  {
    assert Distinct(results) by {
      forall a, b | 0 <= a < b < |results|
        ensures results[a] != results[b]
      {
        assert results[a].edge == listed[a] && results[b].edge == listed[b];
      }
    }
    DistinctPermutation(results, sorted);
  }
}
