/**
 * The road graph: a directed multigraph whose edges are keyed by edge id, as the
 * network library keys them by `Edge.equals`, with a map from id to edge beside it.
 * Ends without a node get synthetic node ids derived from the other end.
 */
module Graphs {
  import opened Util
  import opened Geo
  import opened Edges
  import opened Networks
  import opened Search
  import opened Ranking

  /** Which branch `addEdge` took; the Java method returns nothing. */
  datatype AddStatus = Discarded | Added | Duplicate

  class Graph {
    var network: map<Int64, Arc>
    var nodes: set<int>
    var edgeMap: map<Int64, Edge>

    /**
     * The id map holds exactly the network's edges under their own ids, and the
     * nodes are exactly the ends of the network's arcs.
     */
    ghost predicate Valid()
      reads this
    {
      edgeMap.Keys == network.Keys
      && (forall id :: id in network ==> network[id].edge == edgeMap[id] && network[id].edge.id == id)
      && nodes == Endpoints(network)
    }

    constructor ()
      ensures Valid() && network == map[] && nodes == {} && edgeMap == map[]
    {
      network := map[];
      nodes := {};
      edgeMap := map[];
    }

    /** The edges of the network. */
    function Edges(): (es: set<Edge>)
      reads this
    {
      set id | id in network :: network[id].edge
    }

    /**
     * `addEdge`: an edge whose two raw ends are equal is discarded before any
     * remapping; a new id is added between the remapped ends; an id already present
     * between the same ends changes nothing; one present between other ends makes
     * the network raise IllegalArgumentException.
     */
    method AddEdge(e: Edge) returns (r: Outcome<AddStatus>)
      requires Valid()
      modifies this
      ensures Valid()
      ensures e.nodeIdIn == e.nodeIdOut ==> r == Ok(Discarded)
      ensures e.nodeIdIn != e.nodeIdOut && e.id !in old(network) ==>
                var ends := Remap(e.nodeIdIn, e.nodeIdOut);
                r == Ok(Added) && network == old(network)[e.id := Arc(e, ends.0, ends.1)]
                && edgeMap == old(edgeMap)[e.id := e] && nodes == old(nodes) + {ends.0, ends.1}
      ensures e.nodeIdIn != e.nodeIdOut && e.id in old(network) ==>
                var ends := Remap(e.nodeIdIn, e.nodeIdOut);
                var arc := old(network)[e.id];
                r == (if arc.source == ends.0 && arc.target == ends.1 then Ok(Duplicate) else Raised(IllegalArgument))
      ensures r != Ok(Added) ==> network == old(network) && nodes == old(nodes) && edgeMap == old(edgeMap)
    {
      if e.nodeIdIn == e.nodeIdOut {
        return Ok(Discarded);
      }
      var ends := Remap(e.nodeIdIn, e.nodeIdOut);
      RemapKeepsEndsApart(e.nodeIdIn, e.nodeIdOut);
      if e.id in network {
        if network[e.id].source == ends.0 && network[e.id].target == ends.1 {
          return Ok(Duplicate);
        }
        return Raised(IllegalArgument);
      }
      network := network[e.id := Arc(e, ends.0, ends.1)];
      nodes := nodes + {ends.0, ends.1};
      edgeMap := edgeMap[e.id := e];
      EndpointsAdd(old(network), e.id, Arc(e, ends.0, ends.1));
      return Ok(Added);
    }

    /**
     * `removeEdge`: the network raises IllegalArgumentException for an absent edge.
     * Otherwise the edge and its id entry go, and each of its two end nodes goes
     * exactly when no remaining arc touches it.
     */
    method RemoveEdge(e: Edge) returns (r: Outcome<()>)
      requires Valid()
      modifies this
      ensures Valid()
      ensures r.Raised? <==> e.id !in old(network)
      ensures r.Raised? ==> r.fault == IllegalArgument && network == old(network)
                            && nodes == old(nodes) && edgeMap == old(edgeMap)
      ensures r.Ok? ==> network == old(network) - {e.id} && edgeMap == old(edgeMap) - {e.id}
      ensures r.Ok? ==> var arc := old(network)[e.id];
                nodes == old(nodes) - (set n | n in {arc.source, arc.target} && !Incident(network, n))
    {
      if e.id !in network {
        return Raised(IllegalArgument);
      }
      var arc := network[e.id];
      network := network - {e.id};
      if !HasArcAt(arc.target) {
        nodes := nodes - {arc.target};
      }
      if !HasArcAt(arc.source) {
        nodes := nodes - {arc.source};
      }
      edgeMap := edgeMap - {e.id};
      RemovalEndpoints(old(network), e.id, old(nodes), nodes);
      return Ok(());
    }

    /** Whether some arc starts or ends at the node: its in- or out-degree is positive. */
    predicate HasArcAt(n: int)
      reads this
      ensures HasArcAt(n) <==> Incident(network, n)
    {
      exists id :: id in network && (network[id].source == n || network[id].target == n)
    }

    /** `getEdge`: the edge with the id, if any. */
    function GetEdge(id: Int64): (r: Option<Edge>)
      reads this
      requires Valid()
      ensures r.Some? <==> id in network
      ensures r.Some? ==> r.value.id == id && r.value in Edges()
    {
      if id in edgeMap then Some(edgeMap[id]) else None
    }

    /**
     * `getOutEdges`: the edges leaving the target node of `e`; the empty set when the
     * network does not know `e` and raises, which the method catches.
     */
    function GetOutEdges(e: Edge): (r: set<Edge>)
      reads this
      requires Valid()
      ensures e.id !in network ==> r == {}
      ensures forall x :: x in r ==> Successor(network, e, x)
      ensures forall id :: id in network && e.id in network && network[id].source == network[e.id].target
                ==> network[id].edge in r
    {
      if e.id !in network then {}
      else set id | id in network && network[id].source == network[e.id].target :: network[id].edge
    }

    /**
     * `getOutEdgesAtMaxDistanceFromEdge`: a breadth-first search from `e`, which the
     * vehicle is `t` along, over the edges whose start lies within `maxDistance` of the
     * vehicle. Nothing is explored for a non-positive distance; the network raises when
     * `e` does not end beyond the limit and is not in the network. Otherwise the result
     * is the set of edges in `order`: `e` first, then edges reached from earlier ones,
     * never two with one id, never doubling back onto a positive counterpart, and
     * leaving out no edge that leaves an explored edge ending short of the limit
     * unless its id is excluded.
     */
    method GetOutEdgesAtMaxDistanceFromEdge(e: Edge, t: real, maxDistance: real)
      returns (r: Outcome<set<Edge>>, ghost order: seq<Edge>, ghost dist: seq<real>, ghost parent: seq<int>)
      requires Valid()
      ensures maxDistance <= 0.0 ==> r == Ok({})
      ensures r.Raised? <==> maxDistance > 0.0 && e.id !in network && e.length < maxDistance + t
      ensures r.Raised? ==> r.fault == IllegalArgument
      ensures r.Ok? && maxDistance > 0.0 ==>
                ExploredInOrder(network, order, dist, parent, maxDistance + t)
                && |order| >= 1 && order[0] == e && dist[0] == 0.0
                && r.value == EdgesIn(order)
      ensures r.Ok? && maxDistance > 0.0 ==>
                forall k, id :: 0 <= k < |order| && dist[k] + order[k].length < maxDistance + t
                                && order[k].id in network && id in network
                                && network[id].source == network[order[k].id].target
                                ==> id in ExcludedIds(order)
    {
      order, dist, parent := [], [], [];
      if maxDistance <= 0.0 {
        return Ok({}), order, dist, parent;
      }
      var total := maxDistance + t;
      var explored: set<Edge> := {};
      var exclude: set<Int64> := {};
      var frontier := [e];
      var distance := [0.0];
      ghost var from: seq<int> := [-1];
      ghost var universe := network.Keys + {e.id};
      while frontier != []
        invariant explored == EdgesIn(order)
        invariant SearchState(network, e, total, exclude, frontier, distance, from, order, dist, parent)
        decreases |universe| - |order|, |frontier|
      {
        HeadKnown(network, e, total, exclude, frontier, distance, from, order, dist, parent);
        OrderBounded(network, e, total, exclude, frontier, distance, from, order, dist, parent);
        var current := frontier[0];
        var currentDistance := distance[0];
        ghost var waiting, waitingFrom, waitingDistance := frontier, from, distance;
        ghost var orderBefore := order;
        frontier, distance, from := frontier[1..], distance[1..], from[1..];
        if current.id in exclude {
          SkipPreserves(network, e, total, exclude, waiting, waitingDistance, waitingFrom, order, dist, parent);
          continue;
        }
        var next;
        next, exclude := Explore(e, total, current, currentDistance, exclude,
                                 waiting, waitingDistance, waitingFrom, order, dist, parent);
        explored := explored + {current};
        EdgesInAppend(order, current);
        order, dist, parent := order + [current], dist + [currentDistance], parent + [waitingFrom[0]];
        if next.Raised? {
          return Raised(next.fault), order, dist, parent;
        }
        var queued := next.value;
        frontier := frontier + queued;
        distance := distance + Repeat(currentDistance + current.length, |queued|);
        from := from + Repeat(|orderBefore|, |queued|);
        OrderBounded(network, e, total, exclude, frontier, distance, from, order, dist, parent);
      }
      SearchDone(network, e, total, exclude, distance, from, order, dist, parent);
      return Ok(explored), order, dist, parent;
    }

    /**
     * The edges leaving the end of `current` whose ids are not excluded, listed in
     * the order the network's set yields them.
     */
    method Unexcluded(current: Edge, exclude: set<Int64>) returns (queued: seq<Edge>)
      requires Valid() && current.id in network
      ensures forall j :: 0 <= j < |queued| ==> Successor(network, current, queued[j]) && queued[j].id !in exclude
      ensures forall id :: id in network && network[id].source == network[current.id].target && id !in exclude
                ==> id in IdsOf(queued)
    {
      var outs := set x | x in GetOutEdges(current) && x.id !in exclude;
      queued := ListOf(outs);
      QueuedAreSuccessors(current, exclude, outs, queued);
      assert forall j :: 0 <= j < |queued| ==> queued[j] in outs;
    }

    /**
     * What the search queues after exploring `current`, which ends at `tValue`:
     * nothing once that reaches `total`, otherwise the unexcluded edges leaving its
     * end, for which the network raises if it does not know `current`.
     */
    method Queue(current: Edge, tValue: real, total: real, exclude: set<Int64>) returns (r: Outcome<seq<Edge>>)
      requires Valid()
      ensures r.Raised? <==> tValue < total && current.id !in network
      ensures r.Raised? ==> r.fault == IllegalArgument
      ensures r.Ok? && tValue >= total ==> r.value == []
      ensures r.Ok? && tValue < total ==>
                (forall j :: 0 <= j < |r.value| ==> Successor(network, current, r.value[j]) && r.value[j].id !in exclude)
                && forall id :: id in network && network[id].source == network[current.id].target && id !in exclude
                     ==> id in IdsOf(r.value)
    {
      if tValue >= total {
        return Ok([]);
      }
      if current.id !in network {
        return Raised(IllegalArgument);
      }
      var queued := Unexcluded(current, exclude);
      return Ok(queued);
    }

    /**
     * Explores the head `current` of the frontier, whose id is not excluded: excludes
     * its id and positive counterpart, then computes what to queue after it.
     */
    method Explore(ghost e: Edge, total: real, current: Edge, currentDistance: real, exclude: set<Int64>,
                   ghost frontier: seq<Edge>, ghost distance: seq<real>, ghost from: seq<int>,
                   ghost order: seq<Edge>, ghost dist: seq<real>, ghost parent: seq<int>)
      returns (next: Outcome<seq<Edge>>, exclude': set<Int64>)
      requires Valid()
      requires SearchState(network, e, total, exclude, frontier, distance, from, order, dist, parent)
      requires frontier != [] && frontier[0] == current && distance[0] == currentDistance && current.id !in exclude
      ensures exclude' == exclude + {current.id} + (if current.counterpartId > 0 then {current.counterpartId} else {})
      ensures next.Raised? <==> currentDistance + current.length < total && current.id !in network
      ensures next.Raised? ==> next.fault == IllegalArgument && order == [] && current == e
      ensures next.Ok? ==>
                SearchState(network, e, total, exclude', frontier[1..] + next.value,
                            distance[1..] + Repeat(currentDistance + current.length, |next.value|),
                            from[1..] + Repeat(|order|, |next.value|), order + [current], dist + [currentDistance],
                            parent + [from[0]])
    {
      exclude' := exclude + {current.id};
      if current.counterpartId > 0 {
        exclude' := exclude' + {current.counterpartId};
      }
      var tValue := currentDistance + current.length;
      next := Queue(current, tValue, total, exclude');
      HeadKnown(network, e, total, exclude, frontier, distance, from, order, dist, parent);
      if next.Ok? {
        VisitOrder(network, e, total, exclude, frontier, distance, from, order, dist, parent, exclude', tValue, next.value);
        VisitFrontier(network, e, total, exclude, frontier, distance, from, order, dist, parent, exclude', tValue, next.value);
      }
    }

    /** The edges queued from `current` are its unexcluded successors, each listed. */
    lemma QueuedAreSuccessors(current: Edge, exclude: set<Int64>, outs: set<Edge>, queued: seq<Edge>)
      requires Valid() && current.id in network
      requires outs == set x | x in GetOutEdges(current) && x.id !in exclude
      requires forall x :: x in outs <==> x in queued
      ensures forall j :: 0 <= j < |queued| ==> Successor(network, current, queued[j])
      ensures forall id :: id in network && network[id].source == network[current.id].target && id !in exclude
                ==> id in IdsOf(queued)
    {
      forall j | 0 <= j < |queued|
        ensures Successor(network, current, queued[j])
      {
        assert queued[j] in outs;
      }
      forall id | id in network && network[id].source == network[current.id].target && id !in exclude
        ensures id in IdsOf(queued)
      {
        var x := network[id].edge;
        assert x in GetOutEdges(current);
        assert x in outs;
        var j :| 0 <= j < |queued| && queued[j] == x;
        IdsOfMember(queued, j);
      }
    }

    /** `match`: the edges whose bounds contain the point. */
    function Match(p: LngLat): (r: set<Edge>)
      reads this, Edges()
      ensures forall x :: x in r ==> x in Edges() && x.Contains(Some(p))
      ensures forall x :: x in Edges() && x.Contains(Some(p)) ==> x in r
    {
      set x | x in Edges() && x.Contains(Some(p))
    }

    /**
     * `getOutEdgesAtMaxDistanceFromEdgeID`: the search from the edge with the id, or
     * the empty set when the graph has no edge with that id.
     */
    method GetOutEdgesAtMaxDistanceFromEdgeId(id: Int64, t: real, maxDistance: real)
      returns (r: Outcome<set<Edge>>)
      requires Valid()
      ensures id !in network ==> r == Ok({})
      ensures maxDistance <= 0.0 ==> r == Ok({})
      ensures r.Ok?
      ensures id in network && maxDistance > 0.0 ==>
                network[id].edge in r.value
                && forall x :: x in r.value ==> x == network[id].edge || x in Edges()
    {
      var e := GetEdge(id);
      if e.None? {
        return Ok({});
      }
      ghost var order, dist, parent;
      r, order, dist, parent := GetOutEdgesAtMaxDistanceFromEdge(e.value, t, maxDistance);
      if maxDistance > 0.0 {
        Reached(order, dist, parent, maxDistance + t);
        assert order[0] in EdgesIn(order);
      }
    }

    /** Every edge the search lists after the first is an edge of the network. */
    lemma Reached(order: seq<Edge>, dist: seq<real>, parent: seq<int>, total: real)
      requires ExploredInOrder(network, order, dist, parent, total)
      ensures forall x :: x in EdgesIn(order) ==> x == order[0] || x in Edges()
    {
      forall x | x in EdgesIn(order)
        ensures x == order[0] || x in Edges()
      {
        EdgesInMember(order, x);
        var k :| 0 <= k < |order| && order[k] == x;
        if k > 0 {
          assert Successor(network, order[parent[k]], x);
          assert network[x.id].edge == x;
        }
      }
    }

    /**
     * `getConnectedEdges`: the edges starting or ending at the node; the network
     * raises IllegalArgumentException for a node it does not hold.
     */
    function GetConnectedEdges(n: int): (r: Outcome<set<Edge>>)
      reads this
      requires Valid()
      ensures r.Raised? <==> n !in nodes
      ensures r.Raised? ==> r.fault == IllegalArgument
      ensures r.Ok? ==> forall x :: x in r.value ==> x in Edges()
      ensures r.Ok? ==> forall id :: id in network ==>
                (network[id].edge in r.value <==> network[id].source == n || network[id].target == n)
    {
      if n !in nodes then Raised(IllegalArgument)
      else Ok(set id | id in network && (network[id].source == n || network[id].target == n) :: network[id].edge)
    }

    /** The edges that have a centre line. */
    function Centred(): (es: set<Edge>)
      reads this, Edges()
      ensures forall x :: x in es ==> x in Edges() && x.HasCenterLine()
      ensures forall x :: x in Edges() && x.HasCenterLine() ==> x in es
    {
      set x | x in Edges() && x.HasCenterLine()
    }

    /**
     * `weightedMatch`: each edge with a centre line paired with the distance from the
     * point to that line, nearest first, cut to the first `limit`; `Stream.limit`
     * raises for a negative limit. Ties come in no particular order, since the edges
     * are streamed from a set. The distance is the caller's point-to-line measure.
     */
    method WeightedMatch(p: LngLat, limit: Int32, pointToLine: (LngLat, seq<LngLat>) -> real)
      returns (r: Outcome<seq<MatchResult>>)
      requires Valid()
      ensures r.Raised? <==> limit < 0
      ensures r.Raised? ==> r.fault == IllegalArgument
      ensures r.Ok? ==> |r.value| == (if limit < |Centred()| then limit else |Centred()|)
      ensures r.Ok? ==> Ascending(r.value)
      ensures r.Ok? ==> forall i :: 0 <= i < |r.value| ==>
                r.value[i].edge in Centred()
                && r.value[i].distance == pointToLine(p, r.value[i].edge.centerLine.value)
      ensures r.Ok? ==> forall i, j :: 0 <= i < j < |r.value| ==> r.value[i].edge != r.value[j].edge
      ensures r.Ok? ==> forall x :: x in Centred() && x !in MatchedEdges(r.value) ==>
                forall i :: 0 <= i < |r.value| ==> r.value[i].distance <= pointToLine(p, x.centerLine.value)
    {
      r := Rank(p, limit, pointToLine, Centred());
    }

    /**
     * `addDrivablePaths`: every edge of the graph that some path lists ends up
     * carrying the last path listing it; edges no path lists, and ids no edge has,
     * are left alone.
     */
    method AddDrivablePaths(paths: seq<DrivablePath>)
      requires Valid()
      modifies Edges()
      ensures forall id :: id in edgeMap && LastPathWith(paths, id).Some? ==>
                Carries(edgeMap[id], paths[LastPathWith(paths, id).value])
      ensures forall id :: id in edgeMap && LastPathWith(paths, id).None? ==>
                edgeMap[id].Fields() == old(edgeMap[id].Fields())
      ensures forall id :: id in edgeMap ==> edgeMap[id].bounds == old(edgeMap[id].bounds)
    {
      var i := 0;
      while i < |paths|
        invariant 0 <= i <= |paths|
        invariant forall id :: id in edgeMap && LastPathWith(paths[..i], id).Some? ==>
                    Carries(edgeMap[id], paths[LastPathWith(paths[..i], id).value])
        invariant forall id :: id in edgeMap && LastPathWith(paths[..i], id).None? ==>
                    edgeMap[id].Fields() == old(edgeMap[id].Fields())
        invariant forall id :: id in edgeMap ==> edgeMap[id].bounds == old(edgeMap[id].bounds)
      {
        ApplyPath(paths[i]);
        assert paths[..i + 1][..i] == paths[..i];
        i := i + 1;
      }
      assert paths[..i] == paths;
    }

    /** One path of `addDrivablePaths`: set on each edge of the graph it lists. */
    method ApplyPath(path: DrivablePath)
      requires Valid()
      modifies Edges()
      ensures forall id :: id in edgeMap && id in path.edgeIds ==> Carries(edgeMap[id], path)
      ensures forall id :: id in edgeMap && id !in path.edgeIds ==> edgeMap[id].Fields() == old(edgeMap[id].Fields())
      ensures forall id :: id in edgeMap ==> edgeMap[id].bounds == old(edgeMap[id].bounds)
    {
      var rest := path.edgeIds;
      while rest != {}
        invariant rest <= path.edgeIds
        invariant forall id :: id in edgeMap && id in path.edgeIds - rest ==> Carries(edgeMap[id], path)
        invariant forall id :: id in edgeMap && id !in path.edgeIds - rest ==> edgeMap[id].Fields() == old(edgeMap[id].Fields())
        invariant forall id :: id in edgeMap ==> edgeMap[id].bounds == old(edgeMap[id].bounds)
        decreases |rest|
      {
        var id :| id in rest;
        var e := GetEdge(id);
        if e.Some? {
          e.value.SetDrivablePath(Some(path));
        }
        rest := rest - {id};
      }
    }
  }
  /** The index of the last path that lists the edge id, if any lists it. */
  function LastPathWith(paths: seq<DrivablePath>, id: Int64): (k: Option<nat>)
    ensures k.Some? ==> k.value < |paths| && id in paths[k.value].edgeIds
                        && forall j :: k.value < j < |paths| ==> id !in paths[j].edgeIds
    ensures k.None? ==> forall j :: 0 <= j < |paths| ==> id !in paths[j].edgeIds
  {
    if paths == [] then None
    else if id in paths[|paths| - 1].edgeIds then Some(|paths| - 1)
    else LastPathWith(paths[..|paths| - 1], id)
  }

  /** The edge holds what `setDrivablePath` stores for the path. */
  ghost predicate Carries(e: Edge, path: DrivablePath)
    reads e
  {
    e.centerLine == Some(Oriented(path.points, e.inverse))
    && e.osmMaxSpeed == path.osmMaxSpeed && e.osmWayType == path.wayType
  }
}
