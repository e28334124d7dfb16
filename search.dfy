/**
 * What the breadth-first search of the graph keeps between two steps, and why each
 * step keeps it: the order edges were explored in, the frontier waiting to be
 * explored, and the ids excluded from exploring.
 */
module Search {
  import opened Util
  import opened Edges
  import opened Networks

  /** The ids a search that explored `order` excludes: theirs and their positive counterparts. */
  function ExcludedIds(order: seq<Edge>): (ids: set<Int64>)
    ensures forall i :: 0 <= i < |order| ==> order[i].id in ids
    ensures forall i :: 0 <= i < |order| && order[i].counterpartId > 0 ==> order[i].counterpartId in ids
  {
    if order == [] then {}
    else
      var last := order[|order| - 1];
      ExcludedIds(order[..|order| - 1]) + {last.id} + (if last.counterpartId > 0 then {last.counterpartId} else {})
  }

  /**
   * `x` was queued at distance `d` by the explored edge `order[p]`: it leaves the
   * node that edge arrives at, and that edge ends at `d`, short of `total`.
   */
  ghost predicate QueuedBy(network: map<Int64, Arc>, order: seq<Edge>, dist: seq<real>, p: int, x: Edge, d: real, total: real)
  {
    |dist| == |order| && 0 <= p < |order| && Successor(network, order[p], x)
    && d == dist[p] + order[p].length && d < total
  }

  /** Every edge waiting in the frontier was queued by an explored edge, once one is. */
  ghost predicate AllQueued(network: map<Int64, Arc>, order: seq<Edge>, dist: seq<real>, frontier: seq<Edge>, from: seq<int>,
                            distance: seq<real>, total: real)
  {
    |frontier| == |from| == |distance|
    && (|order| > 0 ==> forall i {:trigger from[i]} :: 0 <= i < |frontier| ==>
          QueuedBy(network, order, dist, from[i], frontier[i], distance[i], total))
  }

  /**
   * The order a search explored edges in: ids never repeat, no edge is the positive
   * counterpart of one explored before it, and every edge after the first was queued
   * by an earlier one.
   */
  ghost predicate ExploredInOrder(network: map<Int64, Arc>, order: seq<Edge>, dist: seq<real>, parent: seq<int>, total: real)
  {
    |dist| == |order| && |parent| == |order|
    && (forall i, j :: 0 <= i < j < |order| ==> order[i].id != order[j].id)
    && (forall i, j :: 0 <= i < j < |order| && order[i].counterpartId > 0 ==> order[j].id != order[i].counterpartId)
    && (forall k {:trigger parent[k]} :: 1 <= k < |order| ==>
          parent[k] < k && QueuedBy(network, order, dist, parent[k], order[k], dist[k], total))
  }

  /**
   * Every edge leaving the end of an explored edge that ends short of `total` is
   * excluded or still waiting in the frontier.
   */
  ghost predicate SuccessorsCovered(network: map<Int64, Arc>, order: seq<Edge>, dist: seq<real>, total: real,
                                    exclude: set<Int64>, frontier: seq<Edge>)
  {
    |dist| == |order|
    && forall k, id :: 0 <= k < |order| && dist[k] + order[k].length < total && order[k].id in network
                       && id in network && network[id].source == network[order[k].id].target
                       ==> id in exclude || id in IdsOf(frontier)
  }

  /** A search whose frontier is empty has explored what its contract promises. */
  lemma SearchDone(network: map<Int64, Arc>, e: Edge, total: real, exclude: set<Int64>, distance: seq<real>, from: seq<int>,
                   order: seq<Edge>, dist: seq<real>, parent: seq<int>)
    requires SearchState(network, e, total, exclude, [], distance, from, order, dist, parent)
    ensures ExploredInOrder(network, order, dist, parent, total) && |order| >= 1 && order[0] == e && dist[0] == 0.0
    ensures !(e.id !in network && e.length < total)
    ensures forall k, id :: 0 <= k < |order| && dist[k] + order[k].length < total
                            && order[k].id in network && id in network
                            && network[id].source == network[order[k].id].target
                            ==> id in ExcludedIds(order)
  {
    assert |order| > 0;
    assert IdsOf([]) == {};
    assert exclude == ExcludedIds(order);
  }

  /** The state the search keeps between two steps. */
  ghost predicate SearchState(network: map<Int64, Arc>, e: Edge, total: real, exclude: set<Int64>, frontier: seq<Edge>, distance: seq<real>,
                              from: seq<int>, order: seq<Edge>, dist: seq<real>, parent: seq<int>)
  {
    ExploredInOrder(network, order, dist, parent, total)
    && AllQueued(network, order, dist, frontier, from, distance, total)
    && exclude == ExcludedIds(order)
    && (|order| == 0 ==> frontier == [e] && distance == [0.0] && from == [-1])
    && (|order| > 0 ==> order[0] == e && dist[0] == 0.0)
    && (e.id !in network && e.length < total ==> order == [])
    && SuccessorsCovered(network, order, dist, total, exclude, frontier)
  }

  /** The head of the frontier is the start edge or an edge of the network. */
  lemma HeadKnown(network: map<Int64, Arc>, e: Edge, total: real, exclude: set<Int64>, frontier: seq<Edge>, distance: seq<real>,
                  from: seq<int>, order: seq<Edge>, dist: seq<real>, parent: seq<int>)
    requires SearchState(network, e, total, exclude, frontier, distance, from, order, dist, parent) && frontier != []
    ensures |frontier| == |distance| == |from| && |order| == |dist| == |parent|
    ensures order == [] ==> frontier[0] == e && distance[0] == 0.0 && exclude == {}
    ensures order != [] ==> frontier[0].id in network
  {
    if order != [] {
      assert QueuedBy(network, order, dist, from[0], frontier[0], distance[0], total);
    }
  }

  /** The ids explored are distinct ids of the network or the start edge, so there are no more of them. */
  lemma OrderBounded(network: map<Int64, Arc>, e: Edge, total: real, exclude: set<Int64>, frontier: seq<Edge>, distance: seq<real>,
                     from: seq<int>, order: seq<Edge>, dist: seq<real>, parent: seq<int>)
    requires SearchState(network, e, total, exclude, frontier, distance, from, order, dist, parent)
    ensures |order| <= |network.Keys + {e.id}|
  {
    forall k | 0 <= k < |order|
      ensures order[k].id in network.Keys + {e.id}
    {
      if k > 0 {
        assert QueuedBy(network, order, dist, parent[k], order[k], dist[k], total);
      }
    }
    DistinctIds(order);
    IdsOfWithin(order, network.Keys + {e.id});
    SubsetCardinality(IdsOf(order), network.Keys + {e.id});
  }

  /** Dropping an excluded head of the frontier keeps the search state. */
  lemma SkipPreserves(network: map<Int64, Arc>, e: Edge, total: real, exclude: set<Int64>, frontier: seq<Edge>, distance: seq<real>,
                      from: seq<int>, order: seq<Edge>, dist: seq<real>, parent: seq<int>)
    requires SearchState(network, e, total, exclude, frontier, distance, from, order, dist, parent)
    requires frontier != [] && frontier[0].id in exclude
    ensures SearchState(network, e, total, exclude, frontier[1..], distance[1..], from[1..], order, dist, parent)
  {
    DequeueCovered(network, order, dist, total, exclude, frontier);
    FrontierDropped(network, order, dist, total, frontier, from, distance);
  }

  /** Exploring the head of the frontier extends the exploration order and what it excludes. */
  lemma VisitOrder(network: map<Int64, Arc>, e: Edge, total: real, exclude: set<Int64>, frontier: seq<Edge>, distance: seq<real>,
                       from: seq<int>, order: seq<Edge>, dist: seq<real>, parent: seq<int>,
                       exclude': set<Int64>, next: real, queued: seq<Edge>)
    requires SearchState(network, e, total, exclude, frontier, distance, from, order, dist, parent)
    requires frontier != [] && frontier[0].id !in exclude
    requires exclude' == exclude + {frontier[0].id}
                         + (if frontier[0].counterpartId > 0 then {frontier[0].counterpartId} else {})
    requires next == distance[0] + frontier[0].length
    requires next >= total ==> queued == []
    requires next < total ==> frontier[0].id in network
    requires next < total ==> forall j :: 0 <= j < |queued| ==> Successor(network, frontier[0], queued[j])
    requires next < total ==>
               forall id :: id in network && network[id].source == network[frontier[0].id].target && id !in exclude'
                 ==> id in IdsOf(queued)
    ensures ExploredInOrder(network, order + [frontier[0]], dist + [distance[0]], parent + [from[0]], total)
    ensures exclude' == ExcludedIds(order + [frontier[0]])
    ensures |order + [frontier[0]]| > 0 && (order + [frontier[0]])[0] == e && (dist + [distance[0]])[0] == 0.0
    ensures !(e.id !in network && e.length < total)
  {
    var current := frontier[0];
    HeadKnown(network, e, total, exclude, frontier, distance, from, order, dist, parent);
    ExcludedIdsAppend(order, current);
    if order != [] {
      assert QueuedBy(network, order, dist, from[0], current, distance[0], total);
    }
    ExploredAppend(network, order, dist, parent, total, exclude, current, distance[0], from[0]);
  }

  /** Exploring the head of the frontier leaves every waiting edge queued and every successor covered. */
  lemma VisitFrontier(network: map<Int64, Arc>, e: Edge, total: real, exclude: set<Int64>, frontier: seq<Edge>, distance: seq<real>,
                       from: seq<int>, order: seq<Edge>, dist: seq<real>, parent: seq<int>,
                       exclude': set<Int64>, next: real, queued: seq<Edge>)
    requires SearchState(network, e, total, exclude, frontier, distance, from, order, dist, parent)
    requires frontier != [] && frontier[0].id !in exclude
    requires exclude' == exclude + {frontier[0].id}
                         + (if frontier[0].counterpartId > 0 then {frontier[0].counterpartId} else {})
    requires next == distance[0] + frontier[0].length
    requires next >= total ==> queued == []
    requires next < total ==> frontier[0].id in network
    requires next < total ==> forall j :: 0 <= j < |queued| ==> Successor(network, frontier[0], queued[j])
    requires next < total ==>
               forall id :: id in network && network[id].source == network[frontier[0].id].target && id !in exclude'
                 ==> id in IdsOf(queued)
    ensures AllQueued(network, order + [frontier[0]], dist + [distance[0]], frontier[1..] + queued,
                      from[1..] + Repeat(|order|, |queued|), distance[1..] + Repeat(next, |queued|), total)
    ensures SuccessorsCovered(network, order + [frontier[0]], dist + [distance[0]], total, exclude', frontier[1..] + queued)
  {
    var current := frontier[0];
    HeadKnown(network, e, total, exclude, frontier, distance, from, order, dist, parent);
    FrontierQueued(network, order, dist, total, frontier, from, distance, current, distance[0], next, queued);
    ProcessedCovered(network, order, dist, current, distance[0], total, exclude, exclude', frontier, queued);
  }

  /** Exploring an edge whose id is not excluded keeps the exploration order well formed. */
  lemma ExploredAppend(network: map<Int64, Arc>, order: seq<Edge>, dist: seq<real>, parent: seq<int>, total: real,
                       exclude: set<Int64>, current: Edge, d: real, p: int)
    requires ExploredInOrder(network, order, dist, parent, total)
    requires exclude == ExcludedIds(order) && current.id !in exclude
    requires |order| > 0 ==> p < |order| && QueuedBy(network, order, dist, p, current, d, total)
    ensures ExploredInOrder(network, order + [current], dist + [d], parent + [p], total)
  {
    var order', dist', parent' := order + [current], dist + [d], parent + [p];
    forall k | 1 <= k < |order'|
      ensures parent'[k] < k && QueuedBy(network, order', dist', parent'[k], order'[k], dist'[k], total)
    {
      if k < |order| {
        assert QueuedBy(network, order, dist, parent[k], order[k], dist[k], total);
      }
    }
  }

  /**
   * After the head of the frontier is explored, the rest of the frontier and the
   * edges queued from it were all queued by explored edges.
   */
  lemma FrontierQueued(network: map<Int64, Arc>, order: seq<Edge>, dist: seq<real>, total: real, waiting: seq<Edge>,
                       waitingFrom: seq<int>, waitingDistance: seq<real>,
                       current: Edge, d: real, next: real, queued: seq<Edge>)
    requires next == d + current.length
    requires |dist| == |order| && waiting != [] && waiting[0] == current
    requires |order| == 0 ==> |waiting| == 1
    requires AllQueued(network, order, dist, waiting, waitingFrom, waitingDistance, total)
    requires queued != [] ==> d + current.length < total && current.id in network
    requires forall j :: 0 <= j < |queued| ==> Successor(network, current, queued[j])
    ensures AllQueued(network, order + [current], dist + [d], waiting[1..] + queued,
                      waitingFrom[1..] + Repeat(|order|, |queued|),
                      waitingDistance[1..] + Repeat(next, |queued|), total)
  {
    var order', dist' := order + [current], dist + [d];
    var frontier' := waiting[1..] + queued;
    var from' := waitingFrom[1..] + Repeat(|order|, |queued|);
    var distance' := waitingDistance[1..] + Repeat(next, |queued|);
    forall i | 0 <= i < |frontier'|
      ensures QueuedBy(network, order', dist', from'[i], frontier'[i], distance'[i], total)
    {
      if i < |waiting| - 1 {
        assert QueuedBy(network, order, dist, waitingFrom[i + 1], waiting[i + 1], waitingDistance[i + 1], total);
        assert frontier'[i] == waiting[i + 1] && from'[i] == waitingFrom[i + 1];
      } else {
        assert frontier'[i] == queued[i - (|waiting| - 1)];
        assert order'[|order|] == current;
      }
    }
  }

  /** Dropping the head of the frontier keeps the rest of it queued by explored edges. */
  lemma FrontierDropped(network: map<Int64, Arc>, order: seq<Edge>, dist: seq<real>, total: real, waiting: seq<Edge>,
                        waitingFrom: seq<int>, waitingDistance: seq<real>)
    requires waiting != [] && AllQueued(network, order, dist, waiting, waitingFrom, waitingDistance, total)
    ensures AllQueued(network, order, dist, waiting[1..], waitingFrom[1..], waitingDistance[1..], total)
  {
    if |order| > 0 {
      forall i | 0 <= i < |waiting| - 1
        ensures QueuedBy(network, order, dist, waitingFrom[1..][i], waiting[1..][i], waitingDistance[1..][i], total)
      {
        assert QueuedBy(network, order, dist, waitingFrom[i + 1], waiting[i + 1], waitingDistance[i + 1], total);
      }
    }
  }

  /** Dropping the head of the frontier keeps successors covered when its id is excluded. */
  lemma DequeueCovered(network: map<Int64, Arc>, order: seq<Edge>, dist: seq<real>, total: real, exclude: set<Int64>, waiting: seq<Edge>)
    requires waiting != [] && waiting[0].id in exclude
    requires SuccessorsCovered(network, order, dist, total, exclude, waiting)
    ensures SuccessorsCovered(network, order, dist, total, exclude, waiting[1..])
  {
    assert IdsOf(waiting) == {waiting[0].id} + IdsOf(waiting[1..]);
  }

  /**
   * Exploring the head of the frontier and queueing the unexcluded edges leaving it,
   * or nothing when it reaches the limit, keeps successors covered.
   */
  lemma ProcessedCovered(network: map<Int64, Arc>, order: seq<Edge>, dist: seq<real>, current: Edge, d: real, total: real,
                         excludeBefore: set<Int64>, exclude: set<Int64>, waiting: seq<Edge>, queued: seq<Edge>)
    requires waiting != [] && waiting[0] == current
    requires SuccessorsCovered(network, order, dist, total, excludeBefore, waiting)
    requires excludeBefore + {current.id} <= exclude
    requires d + current.length >= total ==> queued == []
    requires d + current.length < total ==>
               forall id :: id in network && current.id in network
                 && network[id].source == network[current.id].target && id !in exclude
                 ==> id in IdsOf(queued)
    ensures SuccessorsCovered(network, order + [current], dist + [d], total, exclude, waiting[1..] + queued)
  {
    assert IdsOf(waiting) == {waiting[0].id} + IdsOf(waiting[1..]);
    IdsOfAppend(waiting[1..], queued);
    var order', dist' := order + [current], dist + [d];
    forall k | 0 <= k < |order|
      ensures order'[k] == order[k] && dist'[k] == dist[k]
    {}
  }

  /** Exploring one more edge excludes its id and its positive counterpart. */
  lemma ExcludedIdsAppend(order: seq<Edge>, current: Edge)
    ensures ExcludedIds(order + [current])
            == ExcludedIds(order) + {current.id} + (if current.counterpartId > 0 then {current.counterpartId} else {})
  {
    assert (order + [current])[..|order|] == order;
  }
}
