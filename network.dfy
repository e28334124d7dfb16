/**
 * The road network as the graph keeps it: arcs keyed by edge id, each recording the
 * nodes its edge was added between, and the sequence helpers the searches over it use.
 */
module Networks {
  import opened Util
  import opened Edges

  /** An edge of the network with the source and target nodes it was added between. */
  datatype Arc = Arc(edge: Edge, source: int, target: int)

  /**
   * The node ids `addEdge` connects: a missing inbound end becomes -out-1, then a
   * missing outbound end becomes -in-1 of the (possibly new) inbound id.
   */
  function Remap(nodeIn: int, nodeOut: int): (ends: (int, int))
    ensures nodeIn != NULL_NODE ==> ends.0 == nodeIn
    ensures nodeIn == NULL_NODE ==> ends.0 == -nodeOut - 1
    ensures nodeOut != NULL_NODE ==> ends.1 == nodeOut
    ensures nodeOut == NULL_NODE ==> ends.1 == -ends.0 - 1
  {
    var source := if nodeIn == NULL_NODE then -nodeOut - 1 else nodeIn;
    var target := if nodeOut == NULL_NODE then -source - 1 else nodeOut;
    (source, target)
  }

  /** Remapping never turns an edge between two different ids into a self-loop. */
  lemma RemapKeepsEndsApart(nodeIn: int, nodeOut: int)
    requires nodeIn != nodeOut
    ensures Remap(nodeIn, nodeOut).0 != Remap(nodeIn, nodeOut).1
  {}

  /** Every node some arc of the network starts or ends at. */
  function Endpoints(network: map<Int64, Arc>): set<int>
  {
    (set id | id in network :: network[id].source) + (set id | id in network :: network[id].target)
  }

  /** A node is incident to some arc of the network. */
  predicate Incident(network: map<Int64, Arc>, n: int)
  {
    exists id :: id in network && (network[id].source == n || network[id].target == n)
  }

  lemma EndpointsAreIncident(network: map<Int64, Arc>, n: int)
    ensures n in Endpoints(network) <==> Incident(network, n)
  {
    if Incident(network, n) {
      var id :| id in network && (network[id].source == n || network[id].target == n);
      if network[id].source == n {
        assert n in (set id | id in network :: network[id].source);
      } else {
        assert n in (set id | id in network :: network[id].target);
      }
    }
  }

  /** `b` leaves the node `a` arrives at. */
  predicate Successor(network: map<Int64, Arc>, a: Edge, b: Edge)
  {
    a.id in network && b.id in network && network[b.id].edge == b
    && network[b.id].source == network[a.id].target
  }
  /** What removing one arc does to the node set kept equal to the arcs' ends. */
  lemma RemovalEndpoints(before: map<Int64, Arc>, id: Int64, nodesBefore: set<int>, nodesAfter: set<int>)
    requires id in before && nodesBefore == Endpoints(before)
    requires var arc := before[id]; var after := before - {id};
             nodesAfter == nodesBefore - (set n | n in {arc.source, arc.target} && !Incident(after, n))
    ensures nodesAfter == Endpoints(before - {id})
  {
    var after := before - {id};
    var arc := before[id];
    forall n
      ensures n in nodesAfter <==> n in Endpoints(after)
    {
      EndpointsAreIncident(before, n);
      EndpointsAreIncident(after, n);
      if n in {arc.source, arc.target} {
        assert Incident(before, n);
      } else if Incident(before, n) {
        var other :| other in before && (before[other].source == n || before[other].target == n);
        assert other in after;
      }
    }
  }

  /** Adding an arc under a new id adds its two ends to the node set. */
  lemma EndpointsAdd(before: map<Int64, Arc>, id: Int64, arc: Arc)
    requires id !in before
    ensures Endpoints(before[id := arc]) == Endpoints(before) + {arc.source, arc.target}
  {
    var after := before[id := arc];
    forall n
      ensures n in Endpoints(after) <==> n in Endpoints(before) + {arc.source, arc.target}
    {
      EndpointsAreIncident(before, n);
      EndpointsAreIncident(after, n);
      if Incident(after, n) && n !in {arc.source, arc.target} {
        var other :| other in after && (after[other].source == n || after[other].target == n);
        assert other in before;
      }
      if Incident(before, n) {
        var other :| other in before && (before[other].source == n || before[other].target == n);
        assert other in after;
      }
      if n in {arc.source, arc.target} {
        assert id in after && (after[id].source == n || after[id].target == n);
      }
    }
  }

  /** The edges in a sequence, as a set. */
  function EdgesIn(s: seq<Edge>): (es: set<Edge>)
    ensures forall i :: 0 <= i < |s| ==> s[i] in es
  {
    if s == [] then {} else EdgesIn(s[..|s| - 1]) + {s[|s| - 1]}
  }

  /** Every edge of `EdgesIn(s)` is an element of `s`. */
  lemma {:induction false} EdgesInMember(s: seq<Edge>, x: Edge)
    requires x in EdgesIn(s)
    ensures exists i :: 0 <= i < |s| && s[i] == x
  {
    if x != s[|s| - 1] {
      EdgesInMember(s[..|s| - 1], x);
      var i :| 0 <= i < |s| - 1 && s[..|s| - 1][i] == x;
      assert s[i] == x;
    }
  }

  lemma EdgesInAppend(s: seq<Edge>, x: Edge)
    ensures EdgesIn(s + [x]) == EdgesIn(s) + {x}
  {
    assert (s + [x])[..|s|] == s;
  }

  /** The ids of the edges in a sequence. */
  function IdsOf(s: seq<Edge>): set<Int64>
  {
    if s == [] then {} else {s[0].id} + IdsOf(s[1..])
  }

  lemma {:induction false} IdsOfMember(s: seq<Edge>, j: int)
    requires 0 <= j < |s|
    ensures s[j].id in IdsOf(s)
  {
    if j > 0 {
      IdsOfMember(s[1..], j - 1);
    }
  }

  lemma {:induction false} IdsOfAppend(a: seq<Edge>, b: seq<Edge>)
    ensures IdsOf(a + b) == IdsOf(a) + IdsOf(b)
  {
    if a != [] {
      assert (a + b)[1..] == a[1..] + b;
      IdsOfAppend(a[1..], b);
    } else {
      assert a + b == b;
    }
  }

  /** The ids of a sequence all of whose ids lie in `u` lie in `u`. */
  lemma {:induction false} IdsOfWithin(s: seq<Edge>, u: set<Int64>)
    requires forall j :: 0 <= j < |s| ==> s[j].id in u
    ensures IdsOf(s) <= u
  {
    if s != [] {
      assert forall j :: 0 <= j < |s[1..]| ==> s[1..][j] == s[j + 1];
      IdsOfWithin(s[1..], u);
    }
  }

  /** A sequence of edges with distinct ids has as many ids as edges. */
  lemma {:induction false} DistinctIds(s: seq<Edge>)
    requires forall i, j :: 0 <= i < j < |s| ==> s[i].id != s[j].id
    ensures |IdsOf(s)| == |s|
  {
    if s != [] {
      assert forall j :: 0 <= j < |s[1..]| ==> s[1..][j] == s[j + 1];
      DistinctIds(s[1..]);
      forall j | 0 <= j < |s[1..]|
        ensures s[1..][j].id in IdsOf(s[1..])
      {
        IdsOfMember(s[1..], j);
      }
      IdsOfWithin(s[1..], IdsOf(s[1..]) - {s[0].id});
    }
  }

  lemma {:induction false} SubsetCardinality<T>(a: set<T>, b: set<T>)
    requires a <= b
    ensures |a| <= |b|
  {
    assert b == a + (b - a) && a * (b - a) == {};
  }

  /** `n` copies of `x`. */
  function Repeat<T>(x: T, n: nat): (r: seq<T>)
    ensures |r| == n && forall i :: 0 <= i < n ==> r[i] == x
  {
    seq(n, _ => x)
  }
}
