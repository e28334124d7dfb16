/**
 * The candidate matches the tracker weighs for a new position: when it still has a
 * matched edge, that edge's out edges (without the U-turn onto its counterpart) and
 * the edge itself, each matched against the move from the previous position; when
 * it relocates, the nearest edges of the graph, each matched against the bearing of
 * that move.
 */
module Candidates {
  import opened Util
  import opened Geo
  import opened Ruler
  import opened Edges
  import opened Matching
  import opened Ranking

  /** The out edges of `current` that do not turn back onto it, in their order. */
  function Unturned(current: Edge, es: seq<Edge>): (r: seq<Edge>)
    ensures forall x :: x in r ==> x in es && x.id != current.counterpartId
    ensures forall x :: x in es && x.id != current.counterpartId ==> x in r
  {
    if es == [] then []
    else
      var rest := Unturned(current, es[1..]);
      assert forall x :: x in es[1..] ==> x in es;
      if es[0].id != current.counterpartId then [es[0]] + rest else rest
  }

  /**
   * `Matcher.forEdgeAndLocation` over the listed edges, in order, as `collect`
   * evaluates the stream: the first candidate that cannot be computed raises.
   */
  function EdgeMatches(ruler: Ruler, current: Edge, es: seq<Edge>, previous: Option<LngLat>, position: LngLat)
    : (r: Outcome<seq<Match>>)
    reads es
    ensures r.Raised? <==> exists i :: 0 <= i < |es| && ForEdgeAndLocation(ruler, current, es[i], previous, position).Raised?
    ensures r.Ok? ==> |r.value| == |es|
    ensures r.Ok? ==> forall i :: 0 <= i < |es| ==> r.value[i] == ForEdgeAndLocation(ruler, current, es[i], previous, position).value
  {
    if es == [] then Ok([])
    else
      var first := ForEdgeAndLocation(ruler, current, es[0], previous, position);
      if first.Raised? then Raised(first.fault)
      else
        var rest := EdgeMatches(ruler, current, es[1..], previous, position);
        if rest.Raised? then
          var i :| 0 <= i < |es[1..]| && ForEdgeAndLocation(ruler, current, es[1..][i], previous, position).Raised?;
          assert es[1..][i] == es[i + 1];
          rest
        else Ok([first.value] + rest.value)
  }

  /**
   * `Matcher.forLocation` over the edges of the ranked results, in order, against the
   * reference bearing: the first candidate that cannot be computed raises.
   */
  function LocationMatches(ruler: Ruler, ranked: seq<MatchResult>, position: LngLat, bearing: real)
    : (r: Outcome<seq<Match>>)
    reads set i | 0 <= i < |ranked| :: ranked[i].edge
    ensures r.Raised? <==> exists i :: 0 <= i < |ranked| && ForLocation(ruler, ranked[i].edge, position, bearing).Raised?
    ensures r.Ok? ==> |r.value| == |ranked|
    ensures r.Ok? ==> forall i :: 0 <= i < |ranked| ==>
                        r.value[i] == ForLocation(ruler, ranked[i].edge, position, bearing).value
  {
    if ranked == [] then Ok([])
    else
      var first := ForLocation(ruler, ranked[0].edge, position, bearing);
      if first.Raised? then Raised(first.fault)
      else
        assert forall i :: 0 <= i < |ranked[1..]| ==> ranked[1..][i] == ranked[i + 1];
        var rest := LocationMatches(ruler, ranked[1..], position, bearing);
        if rest.Raised? then
          var i :| 0 <= i < |ranked[1..]| && ForLocation(ruler, ranked[1..][i].edge, position, bearing).Raised?;
          rest
        else Ok([first.value] + rest.value)
  }

  /**
   * What `match` weighs when it continues from `current`: one candidate for every out
   * edge that is not the U-turn, then the candidate for staying on `current`.
   */
  function Continuations(ruler: Ruler, current: Edge, listed: seq<Edge>, previous: Option<LngLat>, position: LngLat)
    : (r: Outcome<seq<Match>>)
    reads listed, current
    ensures r.Raised? <==>
              (exists x :: x in listed && x.id != current.counterpartId
                           && ForEdgeAndLocation(ruler, current, x, previous, position).Raised?)
              || ForEdgeAndLocation(ruler, current, current, previous, position).Raised?
    ensures r.Ok? ==> |r.value| >= 1
    ensures r.Ok? ==> r.value[|r.value| - 1] == ForEdgeAndLocation(ruler, current, current, previous, position).value
    ensures r.Ok? ==> forall j :: 0 <= j < |r.value| - 1 ==>
              r.value[j].edge in listed && r.value[j].edge.id != current.counterpartId
              && r.value[j] == ForEdgeAndLocation(ruler, current, r.value[j].edge, previous, position).value
    ensures r.Ok? ==> |r.value| - 1 == |Unturned(current, listed)|
    ensures r.Ok? ==> forall j :: 0 <= j < |r.value| - 1 ==> r.value[j].edge == Unturned(current, listed)[j]
  {
    var unturned := Unturned(current, listed);
    assert forall j :: 0 <= j < |unturned| ==> unturned[j] in listed;
    var moves := EdgeMatches(ruler, current, unturned, previous, position);
    var stay := ForEdgeAndLocation(ruler, current, current, previous, position);
    if moves.Raised? then
      UnturnedRaised(ruler, current, listed, unturned, previous, position);
      Raised(moves.fault)
    else if stay.Raised? then Raised(stay.fault)
    else
      UnturnedMatched(ruler, current, listed, unturned, moves.value, previous, position);
      var ms := moves.value + [stay.value];
      assert ms[..|ms| - 1] == moves.value;
      Ok(ms)
  }

  /** A candidate of an unturned edge that cannot be computed is one of a listed edge. */
  lemma UnturnedRaised(ruler: Ruler, current: Edge, listed: seq<Edge>, unturned: seq<Edge>,
                       previous: Option<LngLat>, position: LngLat)
    requires unturned == Unturned(current, listed)
    requires exists i :: 0 <= i < |unturned| && ForEdgeAndLocation(ruler, current, unturned[i], previous, position).Raised?
    ensures exists x :: x in listed && x.id != current.counterpartId
                        && ForEdgeAndLocation(ruler, current, x, previous, position).Raised?
  {
    var i :| 0 <= i < |unturned| && ForEdgeAndLocation(ruler, current, unturned[i], previous, position).Raised?;
    assert unturned[i] in unturned;
  }

  /** The candidates of the unturned edges are one for each of them, in their order. */
  lemma UnturnedMatched(ruler: Ruler, current: Edge, listed: seq<Edge>, unturned: seq<Edge>, moves: seq<Match>,
                        previous: Option<LngLat>, position: LngLat)
    requires unturned == Unturned(current, listed)
    requires |moves| == |unturned|
    requires forall i :: 0 <= i < |unturned| ==> ForEdgeAndLocation(ruler, current, unturned[i], previous, position).Ok?
    requires forall i :: 0 <= i < |unturned| ==> moves[i] == ForEdgeAndLocation(ruler, current, unturned[i], previous, position).value
    ensures forall x :: x in listed && x.id != current.counterpartId ==>
              ForEdgeAndLocation(ruler, current, x, previous, position).Ok?
    ensures forall j :: 0 <= j < |moves| ==>
              moves[j].edge in listed && moves[j].edge.id != current.counterpartId
              && moves[j] == ForEdgeAndLocation(ruler, current, moves[j].edge, previous, position).value
    ensures forall j :: 0 <= j < |moves| ==> moves[j].edge == unturned[j]
  {
    forall x | x in listed && x.id != current.counterpartId
      ensures ForEdgeAndLocation(ruler, current, x, previous, position).Ok?
    {
      var j :| 0 <= j < |unturned| && unturned[j] == x;
    }
    forall j | 0 <= j < |moves|
      ensures moves[j].edge == unturned[j] && unturned[j] in unturned
    {
    }
  }
}
