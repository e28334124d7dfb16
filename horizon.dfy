/**
 * The electronic horizon: a tree of segments rooted at the edge the vehicle is on.
 * Each segment lists the nodes it continues into, every node carrying the probability
 * of taking that branch and the bearing change onto it.
 */
module Horizon {
  import opened Util
  import opened Edges

  datatype Segment = Segment(edge: Edge, out: seq<Node>)
  datatype Node = Node(segment: Segment, probability: real, bearingDiff: real)

  datatype EHorizon = EHorizon(start: Segment)
  {
    /** `EHorizon.current`: the edge of the start segment. */
    function Current(): (e: Edge)
      ensures e == start.edge
    {
      start.edge
    }
  }

  function Probabilities(nodes: seq<Node>): (ps: seq<real>)
    ensures |ps| == |nodes|
    ensures forall i :: 0 <= i < |nodes| ==> ps[i] == nodes[i].probability
  {
    seq(|nodes|, i requires 0 <= i < |nodes| => nodes[i].probability)
  }

  /**
   * The child `Stream.max` picks by probability: one of maximal probability, the
   * first of them on ties.
   */
  function MaxChild(s: Segment): (c: Segment)
    requires s.out != []
    ensures exists i :: 0 <= i < |s.out| && c == s.out[i].segment
                        && (forall j :: 0 <= j < |s.out| ==> s.out[j].probability <= s.out[i].probability)
                        && forall j :: 0 <= j < i ==> s.out[j].probability < s.out[i].probability
  {
    var i := FirstMaxIndex(Probabilities(s.out));
    s.out[i].segment
  }

  /** The number of segments on the longest chain below and including `s`. */
  function Height(s: Segment): (h: nat)
    ensures h >= 1
    ensures forall i :: 0 <= i < |s.out| ==> Height(s.out[i].segment) < h
    decreases s, |s.out| + 1
  {
    1 + ChildrenHeight(s, 0)
  }

  /** The greatest height among the children of `s` from index `from` on. */
  function ChildrenHeight(s: Segment, from: nat): (h: nat)
    requires from <= |s.out|
    ensures forall i :: from <= i < |s.out| ==> Height(s.out[i].segment) <= h
    decreases s, |s.out| - from
  {
    if from == |s.out| then 0
    else
      assert s.out[from] in s.out;
      var first := Height(s.out[from].segment);
      var rest := ChildrenHeight(s, from + 1);
      if first > rest then first else rest
  }

  /**
   * The chain of segments the most probable path runs through: from `s`, always into
   * the most probable child, until a segment without children.
   */
  function Chain(s: Segment): (c: seq<Segment>)
    ensures |c| >= 1 && c[0] == s
    decreases Height(s)
  {
    if s.out == [] then [s]
    else
      MaxChildIsLower(s);
      [s] + Chain(MaxChild(s))
  }

  /**
   * The chain ends at the first segment without children, and each later segment is
   * the most probable child of the one before.
   */
  lemma {:induction false} ChainShape(s: Segment)
    ensures var c := Chain(s);
            c[|c| - 1].out == [] &&
            forall i :: 0 <= i < |c| - 1 ==> c[i].out != [] && c[i + 1] == MaxChild(c[i])
    decreases Height(s)
  {
    if s.out != [] {
      var child := MaxChild(s);
      MaxChildIsLower(s);
      ChainShape(child);
      var rest := Chain(child);
      var c := Chain(s);
      assert c == [s] + rest;
      forall i | 0 <= i < |c| - 1
        ensures c[i].out != [] && c[i + 1] == MaxChild(c[i])
      {
        if i > 0 {
          assert c[i] == rest[i - 1] && c[i + 1] == rest[i];
        }
      }
    }
  }

  lemma MaxChildIsLower(s: Segment)
    requires s.out != []
    ensures Height(MaxChild(s)) < Height(s)
  {
    var i :| 0 <= i < |s.out| && MaxChild(s) == s.out[i].segment;
  }

  /** One step of the walk: the segment's edge, then the walk from its most probable child. */
  lemma ChainStep(s: Segment)
    ensures EdgesOf(Chain(s)) == [s.edge] + (if s.out == [] then [] else EdgesOf(Chain(MaxChild(s))))
    ensures s.out != [] ==> Height(MaxChild(s)) < Height(s)
  {
    if s.out != [] {
      MaxChildIsLower(s);
      var rest := Chain(MaxChild(s));
      assert Chain(s) == [s] + rest;
      EdgesOfCons(s, rest);
    }
  }

  lemma EdgesOfCons(s: Segment, rest: seq<Segment>)
    ensures EdgesOf([s] + rest) == [s.edge] + EdgesOf(rest)
  {
    var l, r := EdgesOf([s] + rest), [s.edge] + EdgesOf(rest);
    assert |l| == |r|;
    forall i | 0 <= i < |l|
      ensures l[i] == r[i]
    {
      if i > 0 {
        assert ([s] + rest)[i] == rest[i - 1];
      }
    }
  }

  /** The edges of the segments, in order. */
  function EdgesOf(chain: seq<Segment>): (es: seq<Edge>)
    ensures |es| == |chain|
    ensures forall i :: 0 <= i < |chain| ==> es[i] == chain[i].edge
  {
    seq(|chain|, i requires 0 <= i < |chain| => chain[i].edge)
  }

  /**
   * `EHorizon.mostProbablePath`: the edges met walking down from the start segment,
   * each step into the child of highest probability.
   */
  method MostProbablePath(h: EHorizon) returns (mpp: seq<Edge>)
    ensures |mpp| == |Chain(h.start)|
    ensures forall i :: 0 <= i < |mpp| ==> mpp[i] == Chain(h.start)[i].edge
  {
    mpp := [];
    var current := Some(h.start);
    ghost var target := EdgesOf(Chain(h.start));
    while current.Some?
      invariant current.Some? ==> mpp + EdgesOf(Chain(current.value)) == target
      invariant current.None? ==> mpp == target
      decreases if current.Some? then Height(current.value) else 0
    {
      var s := current.value;
      ChainStep(s);
      ghost var before := mpp;
      mpp := mpp + [s.edge];
      if s.out == [] {
        assert EdgesOf(Chain(s)) == [s.edge];
        current := None;
      } else {
        var next := MaxChild(s);
        assert before + EdgesOf(Chain(s)) == before + ([s.edge] + EdgesOf(Chain(next)));
        assert mpp + EdgesOf(Chain(next)) == before + ([s.edge] + EdgesOf(Chain(next)));
        current := Some(next);
      }
    }
  }

  /** The ids of the edges of all segments below `s`, each counted as often as it occurs. */
  function IdsBelow(s: Segment): multiset<Int64>
    decreases s, |s.out| + 1
  {
    IdsBelowFirst(s, |s.out|)
  }

  /** The ids below the first `n` children of `s`, those children included. */
  function IdsBelowFirst(s: Segment, n: nat): multiset<Int64>
    requires n <= |s.out|
    decreases s, n
  {
    if n == 0 then multiset{}
    else
      assert s.out[n - 1] in s.out;
      IdsBelowFirst(s, n - 1) + multiset{s.out[n - 1].segment.edge.id} + IdsBelow(s.out[n - 1].segment)
  }

  /** The ids of the edges of the children of `s`, in order. */
  function ChildIds(s: Segment): (ids: seq<Int64>)
    ensures |ids| == |s.out|
    ensures forall i :: 0 <= i < |s.out| ==> ids[i] == s.out[i].segment.edge.id
  {
    seq(|s.out|, i requires 0 <= i < |s.out| => s.out[i].segment.edge.id)
  }

  /** The set of the ids of the children of `s`. */
  function ChildIdSet(s: Segment): (ids: set<Int64>)
    ensures forall i :: 0 <= i < |s.out| ==> s.out[i].segment.edge.id in ids
    ensures forall id :: id in ids ==> exists i :: 0 <= i < |s.out| && s.out[i].segment.edge.id == id
  {
    set i | 0 <= i < |s.out| :: s.out[i].segment.edge.id
  }

  /** The set of the ids below `s`. */
  function IdSetBelow(s: Segment): (ids: set<Int64>)
    ensures forall id :: id in ids <==> id in IdsBelow(s)
  {
    set id | id in IdsBelow(s)
  }

  /** Below children without children of their own lie just the children's ids. */
  lemma {:induction false} IdsOfLeaves(s: Segment, n: nat)
    requires n <= |s.out|
    requires forall i :: 0 <= i < n ==> s.out[i].segment.out == []
    ensures IdsBelowFirst(s, n) == multiset(ChildIds(s)[..n])
  {
    if n > 0 {
      IdsOfLeaves(s, n - 1);
      var leaf := s.out[n - 1].segment;
      assert IdsBelow(leaf) == IdsBelowFirst(leaf, 0) == multiset{};
      var ids := ChildIds(s);
      var prefix := ids[..n - 1];
      assert ids[..n] == prefix + [leaf.edge.id];
      assert multiset(ids[..n]) == multiset(prefix) + multiset{leaf.edge.id};
      assert IdsBelowFirst(s, n) == multiset(prefix) + multiset{leaf.edge.id} + multiset{};
      Rearranged(multiset(prefix), multiset{leaf.edge.id}, multiset{}, multiset{});
    }
  }

  /**
   * Putting an expanded segment in the place of a child without children, under the
   * same id, adds exactly the ids below the expansion.
   */
  lemma IdsAfterExpanding(s: Segment, k: nat, node: Node, n: nat)
    requires k < |s.out| && n <= |s.out|
    requires s.out[k].segment.out == [] && node.segment.edge.id == s.out[k].segment.edge.id
    ensures IdsBelowFirst(s.(out := s.out[k := node]), n)
            == IdsBelowFirst(s, n) + (if k < n then IdsBelow(node.segment) else multiset{})
  {
    var t := s.(out := s.out[k := node]);
    if n <= k {
      SamePrefix(s, t, n);
    } else {
      GrownAfter(s, t, k, n);
    }
  }

  /** Below children after `k`, the ids gained at `k` stay gained. */
  lemma {:induction false} GrownAfter(s: Segment, t: Segment, k: nat, n: nat)
    requires k < n <= |s.out| == |t.out|
    requires forall j :: 0 <= j < |s.out| && j != k ==> t.out[j] == s.out[j]
    requires s.out[k].segment.out == [] && t.out[k].segment.edge.id == s.out[k].segment.edge.id
    ensures IdsBelowFirst(t, n) == IdsBelowFirst(s, n) + IdsBelow(t.out[k].segment)
  {
    var grown := IdsBelow(t.out[k].segment);
    var last := s.out[n - 1];
    var before := IdsBelowFirst(s, n - 1);
    if n == k + 1 {
      SamePrefix(s, t, k);
      assert IdsBelow(last.segment) == IdsBelowFirst(last.segment, 0) == multiset{};
      Rearranged(before, multiset{last.segment.edge.id}, multiset{}, grown);
    } else {
      GrownAfter(s, t, k, n - 1);
      assert t.out[n - 1] == last;
      Rearranged(before, multiset{last.segment.edge.id}, IdsBelow(last.segment), grown);
    }
  }

  /** Below distinct childless children lie their ids, once each. */
  lemma LeafIds(s: Segment)
    requires forall j :: 0 <= j < |s.out| ==> s.out[j].segment.out == []
    requires forall j, k :: 0 <= j < k < |s.out| ==> s.out[j].segment.edge.id != s.out[k].segment.edge.id
    ensures IdSetBelow(s) == ChildIdSet(s)
    ensures forall id :: IdsBelow(s)[id] <= 1
  {
    var ids := ChildIds(s);
    LeafMultiset(s);
    assert Distinct(ids);
    forall id
      ensures IdsBelow(s)[id] <= 1
    {
      DistinctOnce(ids, id);
    }
    forall id
      ensures id in IdSetBelow(s) <==> id in ChildIdSet(s)
    {
      assert id in IdsBelow(s) <==> id in ids;
    }
  }

  /** Below childless children lie exactly their ids. */
  lemma LeafMultiset(s: Segment)
    requires forall j :: 0 <= j < |s.out| ==> s.out[j].segment.out == []
    ensures IdsBelow(s) == multiset(ChildIds(s))
  {
    IdsOfLeaves(s, |s.out|);
    assert ChildIds(s)[..|s.out|] == ChildIds(s);
  }

  lemma {:induction false} SamePrefix(s: Segment, t: Segment, n: nat)
    requires n <= |s.out| && n <= |t.out|
    requires forall j :: 0 <= j < n ==> t.out[j] == s.out[j]
    ensures IdsBelowFirst(t, n) == IdsBelowFirst(s, n)
  {
    if n > 0 {
      SamePrefix(s, t, n - 1);
    }
  }

  lemma Rearranged(a: multiset<Int64>, x: multiset<Int64>, b: multiset<Int64>, g: multiset<Int64>)
    ensures (a + g) + x + b == (a + x + b) + g
    ensures a + x + g == (a + x + multiset{}) + g
    ensures a + x + multiset{} == a + x
  {
  }
}
