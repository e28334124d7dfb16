/**
 * The horizon tracker: it keeps the edge the vehicle was last matched to and the
 * previous raw position, matches each new position either by continuing from that
 * edge or by relocating from the location history, and grows the horizon tree from
 * the matched edge out to the configured distance.
 */
module Tracking {
  import opened Util
  import opened Geo
  import opened Ruler
  import opened Edges
  import opened Networks
  import opened Graphs
  import opened Ranking
  import opened Horizon
  import opened Matching
  import opened Transition
  import opened Candidates

  /** How many nearby edges relocation considers. */
  const MATCH_LIMIT: Int32 := 3
  /** The horizon distance, in metres, a new tracker grows the tree to. */
  const DEFAULT_HORIZON_DISTANCE: Int32 := 400
  /** A jump between two positions longer than this, in metres, forgets the history. */
  const IMPLICIT_RESET_THRESHOLD: real := 100.0

  /** The tracker's answer: a matched location with its horizon, or the raw position. */
  datatype TrackerResult =
    | Positive(location: LngLat, horizon: EHorizon)
    | Negative(location: LngLat)

  /**
   * The geometry the tracker borrows: the ruler `CheapRuler.forLatitude` gives for a
   * latitude, and the point-to-line distance the graph ranks edges by.
   */
  datatype Geometry = Geometry(rulerFor: real -> Ruler, pointToLine: (LngLat, seq<LngLat>) -> real)

  // ---------------------------------------------------------------------------
  // Clipping and re-measuring edges

  /** `clip` copies the edge unless the range covers all of it. */
  predicate ClipCopies(e: Edge, tStart: real, tEnd: real)
  {
    !(tStart <= 0.0 && tEnd >= e.length)
  }

  /**
   * The copy `clip` makes: the centre line cut between `tStart` and the nearer of
   * `tEnd` and the edge's end, its length measured along the cut line.
   */
  function ClippedFields(ruler: Ruler, e: Edge, tStart: real, tEnd: real): (f: EdgeFields)
    reads e
    requires e.centerLine.Some?
    ensures f.centerLine.Some? && f.length == ruler.lineDistance(f.centerLine.value)
    ensures f == e.Fields().(centerLine := f.centerLine, length := f.length)
  {
    var line := ruler.lineSliceAlong(tStart, Min(tEnd, e.length), e.centerLine.value);
    e.Fields().(centerLine := Some(line), length := ruler.lineDistance(line))
  }

  /**
   * What `expand` makes of an out edge with `left` metres of horizon still to fill:
   * clipped to them, then copied with its length re-measured along its centre line.
   * A null centre line or null bounds raise.
   */
  function ChildFields(ruler: Ruler, e: Edge, left: real): (r: Outcome<EdgeFields>)
    reads e
    ensures r.Raised? <==> e.centerLine.None? || e.bounds.None?
    ensures r.Ok? ==> r.value.centerLine.Some? && r.value.length == ruler.lineDistance(r.value.centerLine.value)
    ensures r.Ok? ==> r.value == e.Fields().(centerLine := r.value.centerLine, length := r.value.length)
    ensures r.Ok? && !ClipCopies(e, 0.0, left) ==> r.value.centerLine == e.centerLine
    ensures r.Ok? && ClipCopies(e, 0.0, left) ==> r.value.centerLine == ClippedFields(ruler, e, 0.0, left).centerLine
  {
    if e.centerLine.None? || e.bounds.None? then Raised(NullPointer)
    else
      var line := if ClipCopies(e, 0.0, left) then ClippedFields(ruler, e, 0.0, left).centerLine.value
                  else e.centerLine.value;
      Ok(e.Fields().(centerLine := Some(line), length := ruler.lineDistance(line)))
  }

  /** A child is kept when it is longer than a metre and its centre line a proper line. */
  predicate Kept(f: EdgeFields)
  {
    f.length > 1.0 && f.centerLine.Some? && |f.centerLine.value| >= 2
  }

  /** The out edges `expand` keeps before clipping: not visited yet and not the U-turn onto `parent`. */
  predicate Filtered(parent: Edge, visited: set<Int64>, x: Edge)
  {
    x.id !in visited && x.counterpartId != parent.id
  }

  /** What each out edge becomes with `left` metres of horizon still to fill. */
  function ChildFieldsOf(ruler: Ruler, outs: set<Edge>, left: real): (cf: map<Edge, Outcome<EdgeFields>>)
    reads outs
    ensures cf.Keys == outs
    ensures forall x :: x in outs ==> cf[x] == ChildFields(ruler, x, left)
    ensures Copies(cf)
  {
    map x | x in outs :: ChildFields(ruler, x, left)
  }

  /** Each copy keeps the id and the counterpart of the edge it was made from. */
  predicate Copies(cf: map<Edge, Outcome<EdgeFields>>)
  {
    forall x :: x in cf && cf[x].Ok? ==> cf[x].value.id == x.id && cf[x].value.counterpartId == x.counterpartId
  }

  /**
   * The out edges whose copies, as `cf` gives them, become children of `parent`:
   * filtered, then kept after clipping and re-measuring.
   */
  function OfferedBy(cf: map<Edge, Outcome<EdgeFields>>, parent: Edge, visited: set<Int64>): set<Edge>
  {
    set x | x in cf && Filtered(parent, visited, x) && cf[x].Ok? && Kept(cf[x].value)
  }

  /** The out edges `expand` turns into children of `parent`. */
  function Offered(ruler: Ruler, outs: set<Edge>, parent: Edge, visited: set<Int64>, left: real): set<Edge>
    reads outs
  {
    OfferedBy(ChildFieldsOf(ruler, outs, left), parent, visited)
  }

  function EdgeIds(es: set<Edge>): set<Int64>
  {
    set x | x in es :: x.id
  }

  /**
   * `clip`: the edge itself when the range covers it, otherwise a new edge holding
   * the cut centre line and its length.
   */
  method Clip(ruler: Ruler, e: Edge, tStart: real, tEnd: real) returns (r: Outcome<Edge>)
    ensures !ClipCopies(e, tStart, tEnd) ==> r == Ok(e)
    ensures ClipCopies(e, tStart, tEnd) ==> (r.Raised? <==> e.centerLine.None? || e.bounds.None?)
    ensures r.Raised? ==> r.fault == NullPointer
    ensures ClipCopies(e, tStart, tEnd) && r.Ok? ==>
              fresh(r.value) && r.value.Fields() == ClippedFields(ruler, e, tStart, tEnd)
  {
    if !ClipCopies(e, tStart, tEnd) {
      return Ok(e);
    }
    var end := Min(tEnd, e.length);
    if e.centerLine.None? {
      return Raised(NullPointer);
    }
    var clipped := ruler.lineSliceAlong(tStart, end, e.centerLine.value);
    var b := e.NewBuilder();
    if b.Raised? {
      return Raised(b.fault);
    }
    var copy := new Edge.Build(b.value.(centerLine := Some(clipped), length := ruler.lineDistance(clipped)));
    return Ok(copy);
  }

  /** One out edge through `expand`'s pipeline: clipped, re-measured, then kept or dropped. */
  method Child(ruler: Ruler, e: Edge, left: real) returns (r: Outcome<Option<Edge>>)
    ensures r.Raised? <==> ChildFields(ruler, e, left).Raised?
    ensures r.Raised? ==> r.fault == NullPointer
    ensures r.Ok? ==> (r.value.Some? <==> Kept(ChildFields(ruler, e, left).value))
    ensures r.Ok? && r.value.Some? ==> fresh(r.value.value) && r.value.value.Fields() == ChildFields(ruler, e, left).value
  {
    var c := Clip(ruler, e, 0.0, left);
    if c.Raised? {
      return Raised(c.fault);
    }
    var b := c.value.NewBuilder();
    if b.Raised? {
      return Raised(b.fault);
    }
    var copy := new Edge.Build(b.value.(length := ruler.lineDistance(b.value.centerLine.value)));
    if copy.length > 1.0 && |copy.centerLine.value| >= 2 {
      r := Ok(Some(copy));
    } else {
      r := Ok(None);
    }
  }

  // ---------------------------------------------------------------------------
  // Transition probabilities of the children

  /** `costs` are the costs of moving from `parent` onto each child, in order. */
  ghost predicate CostsAre(ruler: Ruler, parent: Edge, children: seq<Edge>, costs: seq<real>)
    reads parent, children
  {
    |costs| == |children|
    && forall i :: 0 <= i < |children| ==>
         TransitionCost(ruler, parent, children[i]).Ok? && costs[i] == TransitionCost(ruler, parent, children[i]).value
  }

  /**
   * `nodes` hold each child, childless and in order, with the signed bearing change
   * from `parent` onto it.
   */
  ghost predicate NodesFor(ruler: Ruler, parent: Edge, children: seq<Edge>, nodes: seq<Node>)
    reads parent, children
  {
    |nodes| == |children|
    && forall i :: 0 <= i < |children| ==>
         nodes[i].segment == Segment(children[i], []) && BearingDiff(ruler, parent, children[i], false).Ok?
         && nodes[i].bearingDiff == BearingDiff(ruler, parent, children[i], false).value
  }

  /** The costs `addNodes` computes, in order; the first that cannot be computed raises. */
  method CostsOf(ruler: Ruler, parent: Edge, children: seq<Edge>) returns (r: Outcome<seq<real>>)
    ensures r.Raised? <==> exists i :: 0 <= i < |children| && TransitionCost(ruler, parent, children[i]).Raised?
    ensures r.Ok? ==> CostsAre(ruler, parent, children, r.value)
  {
    var costs: seq<real> := [];
    var i := 0;
    while i < |children|
      invariant 0 <= i <= |children| && |costs| == i
      invariant forall j :: 0 <= j < i ==>
                  TransitionCost(ruler, parent, children[j]).Ok? && costs[j] == TransitionCost(ruler, parent, children[j]).value
    {
      var c := TransitionCost(ruler, parent, children[i]);
      if c.Raised? {
        return Raised(c.fault);
      }
      costs := costs + [c.value];
      i := i + 1;
    }
    return Ok(costs);
  }

  /**
   * `addNodes`: one childless node per child, in order, with the probability its
   * shifted cost earns among its siblings and the signed bearing change onto it.
   * A cost that cannot be computed raises.
   */
  method AddNodes(ruler: Ruler, parent: Edge, children: seq<Edge>)
    returns (r: Outcome<seq<Node>>, ghost costs: seq<real>)
    ensures r.Raised? <==> exists i :: 0 <= i < |children| && TransitionCost(ruler, parent, children[i]).Raised?
    ensures r.Ok? ==> NodesFor(ruler, parent, children, r.value) && CostsAre(ruler, parent, children, costs)
    ensures r.Ok? ==> Probabilities(r.value) == NormalizedProbabilities(ShiftToPositiveRange(costs))
  {
    var computed := CostsOf(ruler, parent, children);
    if computed.Raised? {
      return Raised(computed.fault), [];
    }
    costs := computed.value;
    var probabilities := NormalizedProbabilities(ShiftToPositiveRange(computed.value));
    CostedHaveBearings(ruler, parent, children, costs);
    var nodes := MakeNodes(ruler, parent, children, probabilities);
    r := Ok(nodes);
  }

  /** A child whose cost could be computed also has a signed bearing change. */
  lemma CostedHaveBearings(ruler: Ruler, parent: Edge, children: seq<Edge>, costs: seq<real>)
    requires CostsAre(ruler, parent, children, costs)
    ensures forall i :: 0 <= i < |children| ==> BearingDiff(ruler, parent, children[i], false).Ok?
  {
    forall i | 0 <= i < |children|
      ensures BearingDiff(ruler, parent, children[i], false).Ok?
    {
      assert TransitionCost(ruler, parent, children[i]).Ok?;
    }
  }

  /** Probabilities normalised from at least one shifted cost form a distribution. */
  lemma ShiftedNormalized(costs: seq<real>, nodes: seq<Node>)
    requires |costs| > 0 && Probabilities(nodes) == NormalizedProbabilities(ShiftToPositiveRange(costs))
    ensures IsDistribution(Probabilities(nodes))
  {}

  /** The nodes `addNodes` appends: each child, childless, with its probability and bearing change. */
  method MakeNodes(ruler: Ruler, parent: Edge, children: seq<Edge>, probabilities: seq<real>)
    returns (nodes: seq<Node>)
    requires |probabilities| == |children|
    requires forall j :: 0 <= j < |children| ==> BearingDiff(ruler, parent, children[j], false).Ok?
    ensures NodesFor(ruler, parent, children, nodes) && Probabilities(nodes) == probabilities
  {
    nodes := [];
    var i := 0;
    while i < |children|
      invariant 0 <= i <= |children| && |nodes| == i
      invariant forall j :: 0 <= j < i ==> nodes[j].segment == Segment(children[j], [])
      invariant forall j :: 0 <= j < i ==> nodes[j].probability == probabilities[j]
      invariant forall j :: 0 <= j < i ==>
                  BearingDiff(ruler, parent, children[j], false).Ok?
                  && nodes[j].bearingDiff == BearingDiff(ruler, parent, children[j], false).value
    {
      var d := BearingDiff(ruler, parent, children[i], false);
      nodes := nodes + [Node(Segment(children[i], []), probabilities[i], d.value)];
      i := i + 1;
    }
  }

  // ---------------------------------------------------------------------------
  // The shape of a horizon tree

  /** `child` leaves from the node `parent` arrives at. */
  ghost predicate Continues(network: map<Int64, Arc>, parent: Edge, child: Edge)
  {
    parent.id in network && child.id in network && network[child.id].source == network[parent.id].target
  }

  /** A child `expand` may hang below `parent`: a continuation, no U-turn, longer than a metre. */
  ghost predicate ChildStep(network: map<Int64, Arc>, parent: Edge, child: Edge)
  {
    Continues(network, parent, child) && child.counterpartId != parent.id && child.length > 1.0
  }

  /**
   * What `expand` builds: every child continues its parent, the children's
   * probabilities form a distribution, and without full expansion only the most
   * probable child (the first of them on ties) has children of its own.
   */
  ghost predicate Shaped(network: map<Int64, Arc>, s: Segment, full: bool)
    decreases s
  {
    (forall i :: 0 <= i < |s.out| ==> ChildStep(network, s.edge, s.out[i].segment.edge))
    && (|s.out| > 0 ==> IsDistribution(Probabilities(s.out)))
    && (!full && |s.out| > 0 ==>
          forall i :: 0 <= i < |s.out| && i != FirstMaxIndex(Probabilities(s.out)) ==> s.out[i].segment.out == [])
    && (forall i :: 0 <= i < |s.out| ==> Shaped(network, s.out[i].segment, full))
  }

  /** A horizon tree: shaped as `expand` builds it, with no edge id twice in it. */
  ghost predicate Tree(network: map<Int64, Arc>, s: Segment, full: bool)
  {
    Shaped(network, s, full) && s.edge.id !in IdsBelow(s) && forall id :: IdsBelow(s)[id] <= 1
  }

  /** The edges of the children, in order. */
  function ChildEdges(nodes: seq<Node>): (es: seq<Edge>)
    ensures |es| == |nodes| && forall j :: 0 <= j < |nodes| ==> es[j] == nodes[j].segment.edge
  {
    seq(|nodes|, j requires 0 <= j < |nodes| => nodes[j].segment.edge)
  }

  /**
   * The children carry what `addNodes` gives them: the signed bearing change onto
   * each, and the probabilities normalised from their shifted transition costs.
   */
  ghost predicate Weighed(ruler: Ruler, parent: Edge, nodes: seq<Node>)
    reads *
  {
    (forall j :: 0 <= j < |nodes| ==>
       BearingDiff(ruler, parent, nodes[j].segment.edge, false).Ok?
       && nodes[j].bearingDiff == BearingDiff(ruler, parent, nodes[j].segment.edge, false).value)
    && exists costs :: CostsAre(ruler, parent, ChildEdges(nodes), costs)
         && Probabilities(nodes) == NormalizedProbabilities(ShiftToPositiveRange(costs))
  }

  /** Every segment of a horizon tree weighs its children as `addNodes` does. */
  ghost predicate Weighted(ruler: Ruler, s: Segment)
    reads *
    decreases s
  {
    Weighed(ruler, s.edge, s.out) && forall i :: 0 <= i < |s.out| ==> Weighted(ruler, s.out[i].segment)
  }

  /** Every child hangs a weighted tree. */
  ghost predicate AllWeighted(ruler: Ruler, nodes: seq<Node>)
    reads *
  {
    forall j :: 0 <= j < |nodes| ==> Weighted(ruler, nodes[j].segment)
  }

  /** Once every child had its turn, the expanded segment is weighted as its sprouted children were weighed. */
  lemma WeightedExpanded(ruler: Ruler, network: map<Int64, Arc>, e: Edge, nodes: seq<Node>, out: seq<Node>,
                         m: nat, full: bool)
    requires Aligned(network, nodes, out, |out|, m, full)
    requires Weighed(ruler, e, nodes) && AllWeighted(ruler, out)
    ensures Weighted(ruler, Segment(e, out))
  {
    WeighedAligned(ruler, e, nodes, out);
    WeightedJoin(ruler, e, out);
  }

  /** A segment whose children are weighed and weighted is weighted. */
  lemma WeightedJoin(ruler: Ruler, e: Edge, out: seq<Node>)
    requires Weighed(ruler, e, out) && AllWeighted(ruler, out)
    ensures Weighted(ruler, Segment(e, out))
  {}

  /** Replacing one child by a weighted tree keeps every child weighted. */
  lemma WeightedPut(ruler: Ruler, out: seq<Node>, k: nat, n: Node)
    requires AllWeighted(ruler, out) && k < |out| && Weighted(ruler, n.segment)
    ensures AllWeighted(ruler, out[k := n])
  {}

  /** The id of every child is among the ids below its parent. */
  lemma {:induction false} ChildIdBelow(s: Segment, k: nat, n: nat)
    requires k < n <= |s.out|
    ensures s.out[k].segment.edge.id in IdsBelowFirst(s, n)
  {
    if k < n - 1 {
      ChildIdBelow(s, k, n - 1);
    }
  }

  /** The set of the ids of the listed edges. */
  function ListedIds(es: seq<Edge>): (ids: set<Int64>)
    ensures forall j :: 0 <= j < |es| ==> es[j].id in ids
    ensures forall id :: id in ids ==> exists j :: 0 <= j < |es| && es[j].id == id
  {
    set j | 0 <= j < |es| :: es[j].id
  }

  /** Visiting an id not visited before leaves fewer ids of `universe` to visit. */
  lemma FewerLeft(universe: set<Int64>, before: set<Int64>, after: set<Int64>, id: Int64)
    requires before <= after && id in universe && id in after && id !in before
    ensures |universe - after| < |universe - before|
  {
    var gone := (universe - before) - (universe - after);
    assert id in gone;
    assert universe - before == (universe - after) + gone;
  }

  /**
   * The id bookkeeping of `expand` below `e`: `v` is `visited` plus every id below
   * `e`, each of which occurs once and none of which was visited before.
   */
  ghost predicate Counted(e: Edge, out: seq<Node>, visited: set<Int64>, v: set<Int64>)
  {
    v == visited + IdSetBelow(Segment(e, out))
    && (forall id :: id in IdsBelow(Segment(e, out)) ==> id !in visited)
    && (forall id :: IdsBelow(Segment(e, out))[id] <= 1)
  }

  /** The id bookkeeping of `expand` after one childless child was expanded in place. */
  lemma ExpandedChild(e: Edge, out: seq<Node>, k: nat, sub: Segment,
                      visited: set<Int64>, v: set<Int64>, after: set<Int64>)
    requires k < |out| && out[k].segment.out == [] && sub.edge == out[k].segment.edge
    requires Counted(e, out, visited, v)
    requires forall id :: id in IdsBelow(sub) ==> id !in v
    requires forall id :: IdsBelow(sub)[id] <= 1
    requires after == v + IdSetBelow(sub)
    ensures Counted(e, out[k := Node(sub, out[k].probability, out[k].bearingDiff)], visited, after)
  {
    var s := Segment(e, out);
    var node := Node(sub, out[k].probability, out[k].bearingDiff);
    var out' := out[k := node];
    IdsAfterExpanding(s, k, node, |out|);
    assert s.(out := out[k := node]) == Segment(e, out');
    var ids' := IdsBelow(Segment(e, out'));
    assert ids' == IdsBelow(s) + IdsBelow(sub);
    forall id
      ensures ids'[id] <= 1
    {
      if id in IdsBelow(sub) {
        assert id !in IdsBelow(s);
      }
    }
  }

  /**
   * After the first `i` listed out edges: `sources` are, in order and once each, those
   * of them that are offered, and none of them raised.
   */
  ghost predicate Picked(cf: map<Edge, Outcome<EdgeFields>>, parent: Edge, visited: set<Int64>,
                         listed: seq<Edge>, i: nat, sources: seq<Edge>)
  {
    i <= |listed|
    && (forall j :: 0 <= j < |sources| ==> sources[j] in listed[..i] && sources[j] in OfferedBy(cf, parent, visited))
    && (forall j, k :: 0 <= j < k < |sources| ==> sources[j] != sources[k])
    && (forall j :: 0 <= j < i && listed[j] in OfferedBy(cf, parent, visited) ==> listed[j] in sources)
    && (forall j :: 0 <= j < i && listed[j] in cf && Filtered(parent, visited, listed[j]) ==> cf[listed[j]].Ok?)
  }

  /** Each child is the copy `cf` gives of the out edge beside it in `sources`. */
  ghost predicate CopiedFrom(cf: map<Edge, Outcome<EdgeFields>>, sources: seq<Edge>, children: seq<Edge>)
    reads children
  {
    |children| == |sources|
    && forall j :: 0 <= j < |children| ==> sources[j] in cf && cf[sources[j]].Ok? && children[j].Fields() == cf[sources[j]].value
  }

  /** Taking the next listed out edge when it is offered, and passing it over when it is not. */
  lemma PickNext(cf: map<Edge, Outcome<EdgeFields>>, parent: Edge, visited: set<Int64>,
                 listed: seq<Edge>, i: nat, sources: seq<Edge>)
    requires Picked(cf, parent, visited, listed, i, sources) && i < |listed| && Distinct(listed)
    requires listed[i] in cf && (Filtered(parent, visited, listed[i]) ==> cf[listed[i]].Ok?)
    ensures listed[i] in OfferedBy(cf, parent, visited) ==> Picked(cf, parent, visited, listed, i + 1, sources + [listed[i]])
    ensures listed[i] !in OfferedBy(cf, parent, visited) ==> Picked(cf, parent, visited, listed, i + 1, sources)
  {
    assert listed[..i + 1] == listed[..i] + [listed[i]];
    forall j | 0 <= j < |sources|
      ensures sources[j] != listed[i]
    {
      var k :| 0 <= k < i && listed[k] == sources[j];
    }
  }

  /** Once every out edge was listed, every offered one is among the sources. */
  lemma PickedAll(cf: map<Edge, Outcome<EdgeFields>>, parent: Edge, visited: set<Int64>,
                  listed: seq<Edge>, sources: seq<Edge>)
    requires Picked(cf, parent, visited, listed, |listed|, sources)
    requires forall x :: x in cf ==> x in listed
    ensures forall x :: x in OfferedBy(cf, parent, visited) ==> x in sources
  {
    forall x | x in OfferedBy(cf, parent, visited)
      ensures x in sources
    {
      var j :| 0 <= j < |listed| && listed[j] == x;
    }
  }

  /**
   * The `expand` stream up to `collect`: every out edge of `parent` that is
   * `Filtered`, clipped to the metres still to fill, re-measured and `Kept`. `cf`
   * is what each out edge becomes. Out edges are taken in the order the set yields
   * them; the first whose copy cannot be made raises. `sources` pairs each child
   * with the out edge it was copied from.
   */
  method CollectChildren(ruler: Ruler, parent: Edge, outs: set<Edge>, visited: set<Int64>, left: real,
                         ghost cf: map<Edge, Outcome<EdgeFields>>)
    returns (r: Outcome<seq<Edge>>, ghost sources: seq<Edge>)
    requires cf == ChildFieldsOf(ruler, outs, left)
    ensures r.Raised? <==> exists x :: x in outs && Filtered(parent, visited, x) && cf[x].Raised?
    ensures r.Ok? ==> forall j, k :: 0 <= j < k < |sources| ==> sources[j] != sources[k]
    ensures r.Ok? ==> forall j :: 0 <= j < |sources| ==> sources[j] in OfferedBy(cf, parent, visited)
    ensures r.Ok? ==> forall x :: x in OfferedBy(cf, parent, visited) ==> x in sources
    ensures r.Ok? ==> CopiedFrom(cf, sources, r.value)
  {
    var listed := ListOf(outs);
    var children: seq<Edge> := [];
    sources := [];
    var i := 0;
    while i < |listed|
      invariant Picked(cf, parent, visited, listed, i, sources)
      invariant CopiedFrom(cf, sources, children)
    {
      var step;
      step, sources := CollectOne(ruler, parent, visited, left, cf, listed, i, children, sources);
      if step.Raised? {
        return Raised(step.fault), sources;
      }
      children := step.value;
      i := i + 1;
    }
    PickedAll(cf, parent, visited, listed, sources);
    r := Ok(children);
  }

  /**
   * One element of the `expand` stream: the `i`th listed out edge is passed over
   * when it is not `Filtered`, raises when its copy cannot be made, and otherwise
   * joins the children when its copy is `Kept`.
   */
  method CollectOne(ruler: Ruler, parent: Edge, visited: set<Int64>, left: real,
                    ghost cf: map<Edge, Outcome<EdgeFields>>, listed: seq<Edge>, i: nat,
                    children: seq<Edge>, ghost sources: seq<Edge>)
    returns (r: Outcome<seq<Edge>>, ghost sources': seq<Edge>)
    requires Picked(cf, parent, visited, listed, i, sources) && i < |listed| && Distinct(listed)
    requires listed[i] in cf && cf[listed[i]] == ChildFields(ruler, listed[i], left)
    requires CopiedFrom(cf, sources, children)
    ensures r.Raised? <==> Filtered(parent, visited, listed[i]) && cf[listed[i]].Raised?
    ensures r.Ok? ==> Picked(cf, parent, visited, listed, i + 1, sources') && CopiedFrom(cf, sources', r.value)
  {
    var x := listed[i];
    sources' := sources;
    if !Filtered(parent, visited, x) {
      PickNext(cf, parent, visited, listed, i, sources);
      return Ok(children), sources';
    }
    var c := Child(ruler, x, left);
    if c.Raised? {
      return Raised(c.fault), sources';
    }
    PickNext(cf, parent, visited, listed, i, sources);
    if c.value.Some? {
      r, sources' := Ok(children + [c.value.value]), sources + [x];
    } else {
      r := Ok(children);
    }
  }

  /**
   * The children `expand` collects are copies of exactly the offered out edges, one
   * each, and each may hang below the parent.
   */
  lemma ChildrenOffered(network: map<Int64, Arc>, parent: Edge, outs: set<Edge>, visited: set<Int64>,
                        cf: map<Edge, Outcome<EdgeFields>>, sources: seq<Edge>, children: seq<Edge>)
    requires forall x :: x in outs ==> Successor(network, parent, x)
    requires cf.Keys == outs && Copies(cf)
    requires forall j, k :: 0 <= j < k < |sources| ==> sources[j] != sources[k]
    requires forall j :: 0 <= j < |sources| ==> sources[j] in OfferedBy(cf, parent, visited)
    requires forall x :: x in OfferedBy(cf, parent, visited) ==> x in sources
    requires CopiedFrom(cf, sources, children)
    ensures ListedIds(children) == EdgeIds(OfferedBy(cf, parent, visited))
    ensures forall j :: 0 <= j < |children| ==>
              ChildStep(network, parent, children[j]) && children[j].id !in visited
    ensures forall j, k :: 0 <= j < k < |children| ==> children[j].id != children[k].id
  {
    var offered := OfferedBy(cf, parent, visited);
    forall j | 0 <= j < |children|
      ensures children[j].id == sources[j].id && children[j].counterpartId == sources[j].counterpartId
      ensures children[j].length > 1.0
    {
      assert sources[j] in offered;
      assert children[j].Fields().id == cf[sources[j]].value.id;
    }
    forall j, k | 0 <= j < k < |children|
      ensures children[j].id != children[k].id
    {
      assert Successor(network, parent, sources[j]) && Successor(network, parent, sources[k]);
    }
    var ids := ListedIds(children);
    forall x | x in offered
      ensures x.id in ids
    {
      var k :| 0 <= k < |sources| && sources[k] == x;
      assert children[k].id in ids;
    }
  }

  /**
   * What `expand` hangs below `e` before expanding further: childless nodes of
   * children that may follow `e`, under distinct ids not visited before, whose
   * probabilities form a distribution (`Weighed` says which one).
   */
  ghost predicate Sprouted(network: map<Int64, Arc>, e: Edge, nodes: seq<Node>, visited: set<Int64>)
  {
    (forall j :: 0 <= j < |nodes| ==>
       nodes[j].segment.out == [] && ChildStep(network, e, nodes[j].segment.edge)
       && nodes[j].segment.edge.id !in visited)
    && (forall j, k :: 0 <= j < k < |nodes| ==> nodes[j].segment.edge.id != nodes[k].segment.edge.id)
    && (|nodes| > 0 ==> IsDistribution(Probabilities(nodes)))
  }

  /**
   * The nodes `addNodes` makes of the children `CollectChildren` gives are sprouted
   * below the parent, and their ids are those of the offered out edges.
   */
  lemma Sprouting(network: map<Int64, Arc>, parent: Edge, visited: set<Int64>, children: seq<Edge>, nodes: seq<Node>)
    requires forall j :: 0 <= j < |children| ==> ChildStep(network, parent, children[j]) && children[j].id !in visited
    requires forall j, k :: 0 <= j < k < |children| ==> children[j].id != children[k].id
    requires |nodes| == |children|
    requires forall j :: 0 <= j < |nodes| ==> nodes[j].segment == Segment(children[j], [])
    requires |nodes| > 0 ==> IsDistribution(Probabilities(nodes))
    ensures Sprouted(network, parent, nodes, visited)
    ensures ChildIdSet(Segment(parent, nodes)) == ListedIds(children)
  {
    assert forall j :: 0 <= j < |nodes| ==> nodes[j].segment.edge.id == children[j].id;
  }

  /** The childless nodes `addNodes` makes are weighed by the costs it computed, and each is a weighted tree. */
  lemma NodesWeighed(ruler: Ruler, parent: Edge, children: seq<Edge>, nodes: seq<Node>, costs: seq<real>)
    requires NodesFor(ruler, parent, children, nodes) && CostsAre(ruler, parent, children, costs)
    requires Probabilities(nodes) == NormalizedProbabilities(ShiftToPositiveRange(costs))
    ensures Weighed(ruler, parent, nodes)
    ensures AllWeighted(ruler, nodes)
  {
    assert ChildEdges(nodes) == children;
    forall j | 0 <= j < |nodes|
      ensures Weighted(ruler, nodes[j].segment)
    {
      LeafWeighted(ruler, nodes[j].segment.edge);
    }
  }

  /**
   * The second half of `expand`'s sprouting: `addNodes` over the collected children,
   * which hangs them below `parent` sprouted and weighed. It can only raise when the
   * parent's centre line has no direction, since every child's has one.
   */
  method HangChildren(ghost network: map<Int64, Arc>, ruler: Ruler, parent: Edge, visited: set<Int64>,
                      children: seq<Edge>)
    returns (r: Outcome<seq<Node>>)
    requires forall j :: 0 <= j < |children| ==>
               ChildStep(network, parent, children[j]) && children[j].id !in visited && Lined(children[j])
    requires forall j, k :: 0 <= j < k < |children| ==> children[j].id != children[k].id
    ensures r.Raised? ==> !Lined(parent)
    ensures r.Ok? ==> Sprouted(network, parent, r.value, visited)
    ensures r.Ok? ==> ChildIdSet(Segment(parent, r.value)) == ListedIds(children)
    ensures r.Ok? ==> Weighed(ruler, parent, r.value) && AllWeighted(ruler, r.value)
  {
    var added, costs := AddNodes(ruler, parent, children);
    if added.Raised? {
      if Lined(parent) {
        LinedCosts(ruler, parent, children);
      }
      return Raised(added.fault);
    }
    if |added.value| > 0 {
      ShiftedNormalized(costs, added.value);
    }
    Sprouting(network, parent, visited, children, added.value);
    NodesWeighed(ruler, parent, children, added.value, costs);
    r := added;
  }

  /** A childless segment is weighted. */
  lemma LeafWeighted(ruler: Ruler, e: Edge)
    ensures Weighted(ruler, Segment(e, []))
  {
    assert CostsAre(ruler, e, ChildEdges([]), []);
  }

  /** Expanding children in place keeps their edges, probabilities and bearing changes, so their weights. */
  lemma WeighedAligned(ruler: Ruler, parent: Edge, nodes: seq<Node>, out: seq<Node>)
    requires Weighed(ruler, parent, nodes) && |out| == |nodes|
    requires forall j :: 0 <= j < |out| ==>
               out[j].segment.edge == nodes[j].segment.edge && out[j].probability == nodes[j].probability
               && out[j].bearingDiff == nodes[j].bearingDiff
    ensures Weighed(ruler, parent, out)
  {
    assert ChildEdges(out) == ChildEdges(nodes);
    assert Probabilities(out) == Probabilities(nodes);
  }

  /**
   * The shape bookkeeping of `expand` once the children before `k` had their turn:
   * `out` is `nodes` with some of those children expanded (without full expansion,
   * only the most probable one, `m`) and every child is shaped.
   */
  ghost predicate Aligned(network: map<Int64, Arc>, nodes: seq<Node>, out: seq<Node>, k: nat, m: nat, full: bool)
  {
    k <= |out| == |nodes|
    && (forall j :: 0 <= j < |out| ==>
          out[j].segment.edge == nodes[j].segment.edge && out[j].probability == nodes[j].probability
          && out[j].bearingDiff == nodes[j].bearingDiff)
    && (forall j :: k <= j < |out| ==> out[j] == nodes[j])
    && (forall j :: 0 <= j < |out| ==> Shaped(network, out[j].segment, full))
    && (!full ==> forall j :: 0 <= j < |out| && j != m ==> out[j].segment.out == [])
  }

  /** Before any child is expanded, the shape holds: the children are leaves. */
  lemma StartAligned(network: map<Int64, Arc>, e: Edge, nodes: seq<Node>, visited: set<Int64>, m: nat, full: bool)
    requires Sprouted(network, e, nodes, visited)
    ensures Aligned(network, nodes, nodes, 0, m, full)
  {
    forall j | 0 <= j < |nodes|
      ensures Shaped(network, nodes[j].segment, full)
    {
      assert nodes[j].segment.out == [];
    }
  }

  /** Before any child is expanded, the ids below `e` are its children's ids. */
  lemma StartCounted(network: map<Int64, Arc>, e: Edge, nodes: seq<Node>, visited: set<Int64>, v: set<Int64>)
    requires Sprouted(network, e, nodes, visited)
    requires v == visited + ChildIdSet(Segment(e, nodes))
    ensures Counted(e, nodes, visited, v)
  {
    LeafIds(Segment(e, nodes));
  }

  /** The child at `k` is childless, visited, and its id leaves fewer ids to visit. */
  lemma NextChild(network: map<Int64, Arc>, e: Edge, nodes: seq<Node>, out: seq<Node>, k: nat,
                  visited: set<Int64>, v: set<Int64>, m: nat, full: bool)
    requires Sprouted(network, e, nodes, visited)
    requires Aligned(network, nodes, out, k, m, full) && k < |out|
    requires Counted(e, out, visited, v)
    ensures out[k].segment.out == [] && out[k].segment.edge.id in v
    ensures |network.Keys - v| < |network.Keys - visited|
  {
    ChildIdBelow(Segment(e, out), k, |out|);
    var id := out[k].segment.edge.id;
    assert ChildStep(network, e, nodes[k].segment.edge);
    FewerLeft(network.Keys, visited, v, id);
  }

  /** Expanding the child at `k` in place keeps the shape. */
  lemma AlignedAt(network: map<Int64, Arc>, nodes: seq<Node>, out: seq<Node>, k: nat, m: nat, full: bool,
                  sub: Segment)
    requires Aligned(network, nodes, out, k, m, full) && k < |out|
    requires full || k == m
    requires sub.edge == out[k].segment.edge && Shaped(network, sub, full)
    ensures Aligned(network, nodes, out[k := Node(sub, out[k].probability, out[k].bearingDiff)], k + 1, m, full)
  {}

  /** Passing over a child keeps the shape. */
  lemma SkippedAt(network: map<Int64, Arc>, nodes: seq<Node>, out: seq<Node>, k: nat, m: nat, full: bool)
    requires Aligned(network, nodes, out, k, m, full) && k < |out|
    ensures Aligned(network, nodes, out, k + 1, m, full)
  {}

  /** Once every child had its turn, the segment is shaped and has the children it sprouted. */
  lemma DoneExpanding(network: map<Int64, Arc>, e: Edge, nodes: seq<Node>, out: seq<Node>,
                      visited: set<Int64>, full: bool)
    requires Sprouted(network, e, nodes, visited)
    requires Aligned(network, nodes, out, |out|, if |nodes| > 0 then FirstMaxIndex(Probabilities(nodes)) else 0, full)
    ensures Shaped(network, Segment(e, out), full)
    ensures ChildIdSet(Segment(e, out)) == ChildIdSet(Segment(e, nodes))
  {
    assert Probabilities(out) == Probabilities(nodes);
    forall i | 0 <= i < |out|
      ensures ChildStep(network, e, out[i].segment.edge) && Shaped(network, out[i].segment, full)
    {
      assert out[i].segment.edge == nodes[i].segment.edge;
    }
  }

  /** A shaped tree below an edge whose ids were counted from the edge's own id is a horizon tree. */
  lemma RootTree(network: map<Int64, Arc>, s: Segment, full: bool, after: set<Int64>)
    requires Shaped(network, s, full) && Counted(s.edge, s.out, {s.edge.id}, after)
    ensures Tree(network, s, full)
  {
    assert Segment(s.edge, s.out) == s;
  }

  /** A single segment is a horizon tree. */
  lemma LeafTree(network: map<Int64, Arc>, e: Edge, full: bool)
    ensures Tree(network, Segment(e, []), full)
  {
    var s := Segment(e, []);
    assert IdsBelow(s) == IdsBelowFirst(s, 0) == multiset{};
  }

  // ---------------------------------------------------------------------------
  // When growing a horizon cannot raise

  /** A centre line with a direction: present and of two points or more. */
  predicate Lined(e: Edge)
    reads e
  {
    e.centerLine.Some? && |e.centerLine.value| >= 2
  }

  /** Every edge of the graph has a centre line and bounds, so copying one of them never raises. */
  predicate Drawn(g: Graph)
    reads g, g.Edges()
  {
    forall x :: x in g.Edges() ==> x.centerLine.Some? && x.bounds.Some?
  }

  /**
   * `horizon(Edge, double)` can start from `t` metres along `e` with `d` metres to
   * grow: `e` has a centre line and bounds, and the start edge it clips to has a
   * centre line of two points or more.
   */
  predicate Growable(ruler: Ruler, e: Edge, t: real, d: real)
    reads e
  {
    e.centerLine.Some? && e.bounds.Some?
    && |(if ClipCopies(e, t, t + d) then ClippedFields(ruler, e, t, t + d) else e.Fields()).centerLine.value| >= 2
  }

  /** In a drawn graph, the copy of every out edge can be made. */
  lemma DrawnCopies(g: Graph, ruler: Ruler, parent: Edge, cf: map<Edge, Outcome<EdgeFields>>, left: real)
    requires g.Valid() && Drawn(g) && cf == ChildFieldsOf(ruler, g.GetOutEdges(parent), left)
    ensures forall x :: x in cf ==> cf[x].Ok?
  {
    forall x | x in cf
      ensures cf[x].Ok?
    {
      assert Successor(g.network, parent, x);
      assert g.network[x.id].edge == x;
      assert x in g.Edges();
    }
  }

  /** Children copied from offered out edges were kept, so each has a centre line with a direction. */
  lemma CopiesLined(cf: map<Edge, Outcome<EdgeFields>>, parent: Edge, visited: set<Int64>,
                    sources: seq<Edge>, children: seq<Edge>)
    requires CopiedFrom(cf, sources, children)
    requires forall j :: 0 <= j < |sources| ==> sources[j] in OfferedBy(cf, parent, visited)
    ensures forall j :: 0 <= j < |children| ==> Lined(children[j])
  {
    forall j | 0 <= j < |children|
      ensures Lined(children[j])
    {
      assert Kept(cf[sources[j]].value);
    }
  }

  /** Between edges with directed centre lines, every transition cost can be computed. */
  lemma LinedCosts(ruler: Ruler, parent: Edge, children: seq<Edge>)
    requires Lined(parent) && forall j :: 0 <= j < |children| ==> Lined(children[j])
    ensures forall i :: 0 <= i < |children| ==> TransitionCost(ruler, parent, children[i]).Ok?
  {}

  /** A weighed child had a bearing change, so its centre line has a direction. */
  lemma WeighedLined(ruler: Ruler, parent: Edge, nodes: seq<Node>, k: nat)
    requires Weighed(ruler, parent, nodes) && k < |nodes|
    ensures Lined(nodes[k].segment.edge)
  {
    assert BearingDiff(ruler, parent, nodes[k].segment.edge, false).Ok?;
  }

  /** `filter(Match::matches).min(comparingDouble(Match::cost))` found `m`: a matching candidate of least cost. */
  predicate Chosen(candidates: seq<Match>, m: Match)
  {
    m in candidates && Matches(m)
    && forall i :: 0 <= i < |candidates| && Matches(candidates[i]) ==> m.cost <= candidates[i].cost
  }

  /** No candidate matches. */
  predicate NoneMatches(candidates: seq<Match>)
  {
    forall i :: 0 <= i < |candidates| ==> !Matches(candidates[i])
  }

  /**
   * `filter(Match::matches).min(comparingDouble(Match::cost))` as an optional match:
   * none exactly when no candidate matches, otherwise the first matching candidate
   * of least cost.
   */
  function Pick(ms: seq<Match>): (m: Option<Match>)
    ensures m.None? <==> NoneMatches(ms)
    ensures m.Some? ==> Chosen(ms, m.value)
    ensures m.Some? ==> exists k :: 0 <= k < |ms| && ms[k] == m.value
                                   && forall i :: 0 <= i < k && Matches(ms[i]) ==> m.value.cost < ms[i].cost
  {
    var k := Cheapest(ms);
    if k.None? then None else Some(ms[k.value])
  }

  /**
   * `ranked` is what `weightedMatch` gives relocation at `p`: as many of the graph's
   * edges with a centre line as `MATCH_LIMIT` allows, nearest first by `pointToLine`,
   * none left out that is nearer than one taken.
   */
  ghost predicate Nearest(g: Graph, pointToLine: (LngLat, seq<LngLat>) -> real, p: LngLat, ranked: seq<MatchResult>)
    reads g, g.Edges()
  {
    |ranked| == (if MATCH_LIMIT as int < |g.Centred()| then MATCH_LIMIT as int else |g.Centred()|)
    && Ascending(ranked)
    && (forall i :: 0 <= i < |ranked| ==>
          ranked[i].edge in g.Centred() && ranked[i].distance == pointToLine(p, ranked[i].edge.centerLine.value))
    && forall x :: x in g.Centred() && x !in MatchedEdges(ranked) ==>
         forall i :: 0 <= i < |ranked| ==> ranked[i].distance <= pointToLine(p, x.centerLine.value)
  }

  /**
   * What continuing from the matched edge answers, given the candidates `cont` it
   * weighs: it raises when a candidate cannot be made, and when some candidate
   * matches it chooses among exactly those candidates as `Pick` does.
   */
  predicate Continuing(cont: Outcome<seq<Match>>, r: Outcome<TrackerResult>, candidates: seq<Match>, chosen: Option<Match>)
  {
    (cont.Raised? ==> r == Raised(cont.fault) && chosen.None?)
    && (cont.Ok? && !NoneMatches(cont.value) ==> candidates == cont.value && chosen == Pick(cont.value))
  }

  /** Continuing made its candidates, and none of them matches. */
  predicate Stranded(cont: Outcome<seq<Match>>)
  {
    cont.Ok? && NoneMatches(cont.value)
  }

  /**
   * What relocation answers, given the candidates `found` it weighs: it raises when
   * a candidate cannot be made, chooses among exactly those candidates as `Pick`
   * does, and gives back the raw position when none matches.
   */
  predicate Relocation(found: Outcome<seq<Match>>, position: LngLat,
                       r: Outcome<TrackerResult>, candidates: seq<Match>, chosen: Option<Match>)
  {
    (found.Raised? ==> r == Raised(found.fault) && chosen.None?)
    && (found.Ok? ==> candidates == found.value && chosen == Pick(found.value))
    && (found.Ok? && chosen.None? ==> r == Ok(Negative(position)))
  }

  /** The edges of a horizon tree. */
  ghost function TreeEdges(s: Segment): (es: set<Edge>)
    ensures s.edge in es
    decreases s
  {
    {s.edge} + set i, x | 0 <= i < |s.out| && x in TreeEdges(s.out[i].segment) :: x
  }

  /** The edges of a subtree are edges of the tree. */
  lemma SubtreeEdges(s: Segment, i: nat)
    requires i < |s.out|
    ensures TreeEdges(s.out[i].segment) <= TreeEdges(s)
  {}

  /** The edges of a tree are allocated. */
  lemma TreeAllocated(s: Segment)
    ensures forall e :: e in TreeEdges(s) ==> allocated(e)
    decreases s
  {
    forall i | 0 <= i < |s.out|
      ensures forall e :: e in TreeEdges(s.out[i].segment) ==> allocated(e)
    {
      TreeAllocated(s.out[i].segment);
    }
  }

  /** A segment's weights read only its own and its children's edges, so they outlast changes elsewhere. */
  twostate lemma WeighedKept(new ruler: Ruler, s: Segment)
    requires old(Weighed(ruler, s.edge, s.out))
    requires forall e :: e in TreeEdges(s) ==> old(allocated(e)) && unchanged(e)
    ensures Weighed(ruler, s.edge, s.out)
  {
    var parent, children := s.edge, ChildEdges(s.out);
    assert parent in TreeEdges(s);
    forall j | 0 <= j < |children|
      ensures TransitionCost(ruler, parent, children[j]) == old(TransitionCost(ruler, parent, children[j]))
      ensures BearingDiff(ruler, parent, children[j], false) == old(BearingDiff(ruler, parent, children[j], false))
    {
      SubtreeEdges(s, j);
      assert children[j] in TreeEdges(s.out[j].segment);
      assert unchanged(children[j]);
    }
    var costs :| old(CostsAre(ruler, parent, children, costs))
                 && Probabilities(s.out) == NormalizedProbabilities(ShiftToPositiveRange(costs));
    assert CostsAre(ruler, parent, children, costs);
  }

  /** A weighted tree stays weighted while none of its edges changes. */
  twostate lemma WeightedKept(new ruler: Ruler, s: Segment)
    requires old(Weighted(ruler, s))
    requires forall e :: e in TreeEdges(s) ==> old(allocated(e)) && unchanged(e)
    ensures Weighted(ruler, s)
    decreases s
  {
    WeighedKept(ruler, s);
    forall i | 0 <= i < |s.out|
      ensures Weighted(ruler, s.out[i].segment)
    {
      SubtreeEdges(s, i);
      WeightedKept(ruler, s.out[i].segment);
    }
  }

  class Tracker {
    var graph: Graph?
    var previousPosition: Point?
    var edge: Edge?
    var maxDistanceT: Int32
    var fullExpansion: bool

    /** A matched edge always comes with the position it was matched at. */
    predicate Valid()
      reads this
    {
      edge != null ==> previousPosition != null
    }

    /** A tracker without graph, history or match, growing limited horizons of 400 m. */
    constructor ()
      ensures Valid()
      ensures graph == null && previousPosition == null && edge == null
      ensures maxDistanceT == DEFAULT_HORIZON_DISTANCE && !fullExpansion
    {
      graph := null;
      previousPosition := null;
      edge := null;
      maxDistanceT := DEFAULT_HORIZON_DISTANCE;
      fullExpansion := false;
    }

    method SetGraph(g: Graph?)
      modifies this
      ensures graph == g
      ensures previousPosition == old(previousPosition) && edge == old(edge)
      ensures maxDistanceT == old(maxDistanceT) && fullExpansion == old(fullExpansion)
    {
      graph := g;
    }

    method SetFullGraphExpansion(enable: bool)
      modifies this
      ensures fullExpansion == enable
      ensures graph == old(graph) && previousPosition == old(previousPosition) && edge == old(edge)
      ensures maxDistanceT == old(maxDistanceT)
    {
      fullExpansion := enable;
    }

    method SetHorizonDistance(distance: Int32)
      modifies this
      ensures maxDistanceT == distance
      ensures graph == old(graph) && previousPosition == old(previousPosition) && edge == old(edge)
      ensures fullExpansion == old(fullExpansion)
    {
      maxDistanceT := distance;
    }

    /**
     * The first half of `expand`: the children of `current` as childless nodes with
     * their probabilities, and the visited ids with theirs added.
     */
    method Sprout(ruler: Ruler, current: Edge, t: real, visited: set<Int64>)
      returns (r: Outcome<seq<Node>>, v: set<Int64>)
      requires graph != null && graph.Valid()
      ensures r.Ok? ==> Sprouted(graph.network, current, r.value, visited)
      ensures r.Ok? ==> Weighed(ruler, current, r.value) && AllWeighted(ruler, r.value)
      ensures r.Ok? ==> v == visited + ChildIdSet(Segment(current, r.value))
      ensures r.Ok? ==> ChildIdSet(Segment(current, r.value))
                        == old(EdgeIds(Offered(ruler, graph.GetOutEdges(current), current, visited, maxDistanceT as real - t)))
      ensures Drawn(graph) && Lined(current) ==> r.Ok?
    {
      var left := maxDistanceT as real - t;
      var outs := graph.GetOutEdges(current);
      ghost var cf := ChildFieldsOf(ruler, outs, left);
      ghost var offered := EdgeIds(OfferedBy(cf, current, visited));
      assert offered == old(EdgeIds(Offered(ruler, graph.GetOutEdges(current), current, visited, maxDistanceT as real - t)));
      var children, sources := CollectChildren(ruler, current, outs, visited, left, cf);
      v := visited;
      if children.Raised? {
        if Drawn(graph) {
          DrawnCopies(graph, ruler, current, cf, left);
        }
        return Raised(children.fault), v;
      }
      ChildrenOffered(graph.network, current, outs, visited, cf, sources, children.value);
      v := visited + ListedIds(children.value);
      CopiesLined(cf, current, visited, sources, children.value);
      r := HangChildren(graph.network, ruler, current, visited, children.value);
      if r.Ok? {
        assert ChildIdSet(Segment(current, r.value)) == offered;
      }
    }

    /**
     * `expand`: hangs below the childless segment `current` the out edges `Offered`
     * with the horizon distance left after `t` metres, marks them visited, and
     * expands, in order, every child (full expansion) or only the most probable one.
     * It returns the expanded segment and the visited ids.
     */
    method Expand(ruler: Ruler, current: Segment, t: real, visited: set<Int64>, full: bool)
      returns (r: Outcome<Segment>, visitedAfter: set<Int64>)
      requires graph != null && graph.Valid()
      requires current.out == [] && current.edge.id in visited
      ensures r.Ok? ==> r.value.edge == current.edge
      ensures r.Ok? ==> ChildIdSet(r.value)
                        == old(EdgeIds(Offered(ruler, graph.GetOutEdges(current.edge), current.edge, visited,
                                               maxDistanceT as real - t)))
      ensures r.Ok? ==> Shaped(graph.network, r.value, full)
      ensures r.Ok? ==> Weighted(ruler, r.value)
      ensures r.Ok? ==> Counted(current.edge, r.value.out, visited, visitedAfter)
      ensures Drawn(graph) && Lined(current.edge) ==> r.Ok?
      decreases |graph.network.Keys - visited|, 0
    {
      var sprouted, v := Sprout(ruler, current.edge, t, visited);
      if sprouted.Raised? {
        return Raised(sprouted.fault), v;
      }
      var nodes := sprouted.value;
      var m := if |nodes| > 0 then FirstMaxIndex(Probabilities(nodes)) else 0;
      StartAligned(graph.network, current.edge, nodes, visited, m, full);
      StartCounted(graph.network, current.edge, nodes, visited, v);
      var out := nodes;
      var k := 0;
      while k < |out|
        invariant Aligned(graph.network, nodes, out, k, m, full)
        invariant Counted(current.edge, out, visited, v)
        invariant Weighed(ruler, current.edge, nodes)
        invariant AllWeighted(ruler, out)
        decreases |out| - k
      {
        if full || k == m {
          NextChild(graph.network, current.edge, nodes, out, k, visited, v, m, full);
          WeighedLined(ruler, current.edge, nodes, k);
          var expanded, after := ExpandAt(ruler, current.edge, nodes, out, k, t, visited, v, m, full);
          if expanded.Raised? {
            return Raised(expanded.fault), after;
          }
          out, v := expanded.value, after;
        } else {
          SkippedAt(graph.network, nodes, out, k, m, full);
        }
        k := k + 1;
      }
      DoneExpanding(graph.network, current.edge, nodes, out, visited, full);
      WeightedExpanded(ruler, graph.network, current.edge, nodes, out, m, full);
      r := Ok(Segment(current.edge, out));
      visitedAfter := v;
    }

    /** Expands the child at `k` in place, `t` plus its length into the horizon. */
    method ExpandAt(ruler: Ruler, e: Edge, nodes: seq<Node>, out: seq<Node>, k: nat, t: real,
                    visited: set<Int64>, v: set<Int64>, m: nat, full: bool)
      returns (r: Outcome<seq<Node>>, after: set<Int64>)
      requires graph != null && graph.Valid()
      requires Aligned(graph.network, nodes, out, k, m, full) && k < |out|
      requires Counted(e, out, visited, v)
      requires full || k == m
      requires out[k].segment.out == [] && out[k].segment.edge.id in v
      requires AllWeighted(ruler, out)
      ensures r.Ok? ==> Aligned(graph.network, nodes, r.value, k + 1, m, full)
      ensures r.Ok? ==> AllWeighted(ruler, r.value)
      ensures r.Ok? ==> Counted(e, r.value, visited, after)
      ensures Drawn(graph) && Lined(out[k].segment.edge) ==> r.Ok?
      decreases |graph.network.Keys - v|, 1
    {
      var child := out[k].segment;
      var sub, visitedBelow := Expand(ruler, child, t + child.edge.length, v, full);
      after := visitedBelow;
      if sub.Raised? {
        return Raised(sub.fault), after;
      }
      AlignedAt(graph.network, nodes, out, k, m, full, sub.value);
      ExpandedChild(e, out, k, sub.value, visited, v, after);
      WeightedPut(ruler, out, k, Node(sub.value, out[k].probability, out[k].bearingDiff));
      r := Ok(out[k := Node(sub.value, out[k].probability, out[k].bearingDiff)]);
    }

    /**
     * `horizon(Edge, double)`: the horizon from `t` metres along `current`. The start
     * edge is clipped to the horizon distance from there; when it falls short of that
     * distance, it is expanded with its own clipped length as the distance covered.
     */
    method HorizonFrom(ruler: Ruler, current: Edge, t: real) returns (r: Outcome<EHorizon>)
      requires graph != null && graph.Valid()
      ensures ClipCopies(current, t, t + maxDistanceT as real) && (current.centerLine.None? || current.bounds.None?)
              ==> r.Raised?
      ensures r.Ok? ==> r.value.start.edge.Fields()
                        == if ClipCopies(current, t, t + maxDistanceT as real)
                           then ClippedFields(ruler, current, t, t + maxDistanceT as real)
                           else current.Fields()
      ensures r.Ok? ==> r.value.start.edge.id == current.id
      ensures r.Ok? && r.value.start.out != [] ==> r.value.start.edge.length < maxDistanceT as real
      ensures r.Ok? ==> Tree(graph.network, r.value.start, fullExpansion)
      ensures r.Ok? ==> Weighted(ruler, r.value.start)
      ensures Drawn(graph) && Growable(ruler, current, t, maxDistanceT as real) ==> r.Ok?
    {
      var visited := {current.id};
      var clipped := Clip(ruler, current, t, t + maxDistanceT as real);
      if clipped.Raised? {
        return Raised(clipped.fault);
      }
      var start := clipped.value;
      assert start.id == current.id;
      if start.length < maxDistanceT as real {
        var expanded, after := Expand(ruler, Segment(start, []), start.length, visited, fullExpansion);
        if expanded.Raised? {
          return Raised(expanded.fault);
        }
        RootTree(graph.network, expanded.value, fullExpansion, after);
        r := Ok(EHorizon(expanded.value));
      } else {
        LeafTree(graph.network, start, fullExpansion);
        LeafWeighted(ruler, start);
        r := Ok(EHorizon(Segment(start, [])));
      }
    }

    /**
     * The candidates `findHorizonFromLocationHistory` weighs: the edges nearest to the
     * new position, at most `MATCH_LIMIT` of them and nearest first, each matched
     * against the bearing of the move from the previous position.
     */
    method Nearby(ruler: Ruler, pointToLine: (LngLat, seq<LngLat>) -> real, position: Point)
      returns (r: Outcome<seq<Match>>, ghost ranked: seq<MatchResult>)
      requires graph != null && graph.Valid() && previousPosition != null
      ensures old(allocated(ranked)) && old(Nearest(graph, pointToLine, position.coordinates, ranked))
      ensures r == old(LocationMatches(ruler, ranked, position.coordinates,
                                       ruler.bearing(previousPosition.coordinates, position.coordinates)))
    {
      var bearing := ruler.bearing(previousPosition.coordinates, position.coordinates);
      var results := graph.WeightedMatch(position.coordinates, MATCH_LIMIT, pointToLine);
      ranked := results.value;
      r := LocationMatches(ruler, results.value, position.coordinates, bearing);
    }

    /** The tail of both ways of matching: the match's edge becomes the matched edge and the horizon grows from it. */
    method Adopt(ruler: Ruler, m: Match) returns (r: Outcome<TrackerResult>)
      requires graph != null && graph.Valid()
      modifies this
      ensures graph == old(graph) && previousPosition == old(previousPosition)
      ensures maxDistanceT == old(maxDistanceT) && fullExpansion == old(fullExpansion)
      ensures edge == m.edge
      ensures r.Ok? ==> r.value.Positive? && r.value.location == m.pointOnLine.point
                        && r.value.horizon.start.edge.id == m.edge.id
                        && Tree(graph.network, r.value.horizon.start, fullExpansion)
      ensures r.Ok? ==> r.value.Positive? && Weighted(ruler, r.value.horizon.start)
      ensures Drawn(graph) && Growable(ruler, m.edge, ruler.distanceAlong(m.line, m.pointOnLine), maxDistanceT as real)
              ==> r.Ok?
    {
      edge := m.edge;
      var h := HorizonFrom(ruler, m.edge, ruler.distanceAlong(m.line, m.pointOnLine));
      if h.Raised? {
        return Raised(h.fault);
      }
      r := Ok(Positive(m.pointOnLine.point, h.value));
    }

    /**
     * The end of `findHorizonFromLocationHistory`, given the candidates it weighed:
     * the first matching one of least cost becomes the matched edge and the horizon
     * grows from it; without one, the raw position comes back.
     */
    method Relocate(ruler: Ruler, found: Outcome<seq<Match>>, position: Point)
      returns (r: Outcome<TrackerResult>, ghost candidates: seq<Match>, ghost chosen: Option<Match>)
      requires graph != null && graph.Valid()
      modifies this
      ensures graph == old(graph) && previousPosition == old(previousPosition)
      ensures maxDistanceT == old(maxDistanceT) && fullExpansion == old(fullExpansion)
      ensures Relocation(found, position.coordinates, r, candidates, chosen)
      ensures chosen.Some? ==> Chosen(candidates, chosen.value) && edge == chosen.value.edge
      ensures chosen.None? ==> edge == old(edge)
      ensures r.Ok? && r.value.Negative? ==>
                chosen.None? && NoneMatches(candidates) && r.value.location == position.coordinates
      ensures r.Ok? && r.value.Positive? ==>
                chosen.Some? && r.value.location == chosen.value.pointOnLine.point
                && r.value.horizon.start.edge.id == edge.id
                && Tree(graph.network, r.value.horizon.start, fullExpansion)
                && Weighted(ruler, r.value.horizon.start)
      ensures chosen.Some? && Drawn(graph)
              && Growable(ruler, chosen.value.edge, ruler.distanceAlong(chosen.value.line, chosen.value.pointOnLine),
                          maxDistanceT as real)
              ==> r.Ok?
    {
      candidates, chosen := [], None;
      if found.Raised? {
        return Raised(found.fault), candidates, chosen;
      }
      candidates := found.value;
      var pick := Pick(found.value);
      if pick.None? {
        return Ok(Negative(position.coordinates)), candidates, chosen;
      }
      chosen := pick;
      r := Adopt(ruler, pick.value);
    }

    /**
     * `findHorizonFromLocationHistory`: the edges nearest to the new position are
     * weighed against the bearing of the move, and the result is settled as `Relocate`
     * settles it.
     */
    method FromLocationHistory(ruler: Ruler, pointToLine: (LngLat, seq<LngLat>) -> real, position: Point)
      returns (r: Outcome<TrackerResult>, ghost candidates: seq<Match>, ghost chosen: Option<Match>,
               ghost ranked: seq<MatchResult>)
      requires graph != null && graph.Valid() && previousPosition != null
      modifies this
      ensures graph == old(graph) && previousPosition == old(previousPosition)
      ensures maxDistanceT == old(maxDistanceT) && fullExpansion == old(fullExpansion)
      ensures old(allocated(ranked)) && old(Nearest(graph, pointToLine, position.coordinates, ranked))
      ensures Relocation(old(LocationMatches(ruler, ranked, position.coordinates,
                                             ruler.bearing(previousPosition.coordinates, position.coordinates))),
                         position.coordinates, r, candidates, chosen)
      ensures chosen.Some? ==> Chosen(candidates, chosen.value) && edge == chosen.value.edge
      ensures chosen.None? ==> edge == old(edge)
      ensures r.Ok? && r.value.Negative? ==>
                chosen.None? && NoneMatches(candidates) && r.value.location == position.coordinates
      ensures r.Ok? && r.value.Positive? ==>
                chosen.Some? && r.value.location == chosen.value.pointOnLine.point
                && r.value.horizon.start.edge.id == edge.id
                && Tree(graph.network, r.value.horizon.start, fullExpansion)
                && Weighted(ruler, r.value.horizon.start)
      ensures chosen.Some? && Drawn(graph)
              && Growable(ruler, chosen.value.edge, ruler.distanceAlong(chosen.value.line, chosen.value.pointOnLine),
                          maxDistanceT as real)
              ==> r.Ok?
    {
      var found;
      found, ranked := Nearby(ruler, pointToLine, position);
      r, candidates, chosen := Relocate(ruler, found, position);
    }

    /**
     * `match`: with a matched edge, its out edges are weighed, in the order the graph's
     * set yields them, as continuations of the move; the first matching one of least
     * cost becomes the matched edge. When none matches, or there is no matched edge,
     * the position is relocated from the location history.
     */
    method MatchPosition(ruler: Ruler, pointToLine: (LngLat, seq<LngLat>) -> real, position: Point)
      returns (r: Outcome<TrackerResult>, ghost candidates: seq<Match>, ghost chosen: Option<Match>,
               ghost listed: seq<Edge>, ghost ranked: seq<MatchResult>, ghost relocated: bool)
      requires graph != null && graph.Valid() && previousPosition != null
      modifies this
      ensures graph == old(graph) && previousPosition == old(previousPosition)
      ensures maxDistanceT == old(maxDistanceT) && fullExpansion == old(fullExpansion)
      ensures old(edge) != null ==>
                old(allocated(listed)) && Distinct(listed)
                && (forall x :: x in listed <==> x in old(graph.GetOutEdges(edge)))
                && Continuing(old(Continuations(ruler, edge, listed, Some(previousPosition.coordinates),
                                                position.coordinates)), r, candidates, chosen)
      ensures relocated <==> old(edge) == null
                             || Stranded(old(Continuations(ruler, edge, listed, Some(previousPosition.coordinates),
                                                           position.coordinates)))
      ensures relocated ==>
                old(allocated(ranked)) && old(Nearest(graph, pointToLine, position.coordinates, ranked))
                && Relocation(old(LocationMatches(ruler, ranked, position.coordinates,
                                                  ruler.bearing(previousPosition.coordinates, position.coordinates))),
                              position.coordinates, r, candidates, chosen)
      ensures chosen.Some? ==> Chosen(candidates, chosen.value) && edge == chosen.value.edge
      ensures chosen.None? ==> edge == old(edge)
      ensures r.Ok? && r.value.Negative? ==>
                chosen.None? && NoneMatches(candidates) && r.value.location == position.coordinates
      ensures r.Ok? && r.value.Positive? ==>
                chosen.Some? && r.value.location == chosen.value.pointOnLine.point
                && r.value.horizon.start.edge.id == edge.id
                && Tree(graph.network, r.value.horizon.start, fullExpansion)
                && Weighted(ruler, r.value.horizon.start)
      ensures chosen.Some? && Drawn(graph)
              && Growable(ruler, chosen.value.edge, ruler.distanceAlong(chosen.value.line, chosen.value.pointOnLine),
                          maxDistanceT as real)
              ==> r.Ok?
    {
      listed, ranked, relocated := [], [], true;
      if edge != null {
        var outs := graph.GetOutEdges(edge);
        Listable(outs);
        var order :| Lists(outs, order);
        listed := order;
        var weighed := Continuations(ruler, edge, order, Some(previousPosition.coordinates), position.coordinates);
        if weighed.Raised? {
          return Raised(weighed.fault), [], None, listed, ranked, false;
        }
        var pick := Pick(weighed.value);
        if pick.Some? {
          candidates, chosen, relocated := weighed.value, pick, false;
          r := Adopt(ruler, pick.value);
          return;
        }
      }
      r, candidates, chosen, ranked := FromLocationHistory(ruler, pointToLine, position);
    }

    /**
     * `horizon(Point)`: after a jump longer than `IMPLICIT_RESET_THRESHOLD` the history
     * and the match are forgotten; without a graph, without any history or for the very
     * same position object again the raw position comes back; otherwise the position
     * is matched. Unless matching raises, the new position becomes the previous one.
     */
    method HorizonAt(geometry: Geometry, position: Point)
      returns (r: Outcome<TrackerResult>, ghost reset: bool, ghost candidates: seq<Match>, ghost chosen: Option<Match>,
               ghost listed: seq<Edge>, ghost ranked: seq<MatchResult>, ghost relocated: bool, ghost matched: bool)
      requires Valid() && (graph != null ==> graph.Valid())
      modifies this
      ensures Valid()
      ensures graph == old(graph) && maxDistanceT == old(maxDistanceT) && fullExpansion == old(fullExpansion)
      ensures reset <==> (old(previousPosition) != null
                          && geometry.rulerFor(position.coordinates.lat).distance(old(previousPosition).coordinates, position.coordinates)
                             > IMPLICIT_RESET_THRESHOLD)
      ensures matched <==> !reset && graph != null && !(old(edge) == null && old(previousPosition) == null)
                           && old(previousPosition) != position
      ensures r.Ok? ==> previousPosition == position
      ensures r.Raised? ==> matched && previousPosition == old(previousPosition)
      ensures reset ==> r == Ok(Negative(position.coordinates)) && edge == null
      ensures !reset && !matched ==> r == Ok(Negative(position.coordinates)) && edge == old(edge)
      ensures matched && old(edge) != null ==>
                old(allocated(listed)) && Distinct(listed)
                && (forall x :: x in listed <==> x in old(graph.GetOutEdges(edge)))
                && Continuing(old(Continuations(geometry.rulerFor(position.coordinates.lat), edge, listed,
                                                Some(previousPosition.coordinates), position.coordinates)),
                              r, candidates, chosen)
      ensures matched ==>
                (relocated <==> old(edge) == null
                                || Stranded(old(Continuations(geometry.rulerFor(position.coordinates.lat), edge, listed,
                                                              Some(previousPosition.coordinates), position.coordinates))))
      ensures matched && relocated ==>
                old(allocated(ranked)) && old(Nearest(graph, geometry.pointToLine, position.coordinates, ranked))
                && Relocation(old(LocationMatches(geometry.rulerFor(position.coordinates.lat), ranked, position.coordinates,
                                                  geometry.rulerFor(position.coordinates.lat).bearing(
                                                    previousPosition.coordinates, position.coordinates))),
                              position.coordinates, r, candidates, chosen)
      ensures chosen.Some? ==> matched && Chosen(candidates, chosen.value) && edge == chosen.value.edge
      ensures matched && chosen.None? ==> edge == old(edge)
      ensures r.Ok? && r.value.Negative? ==> r.value.location == position.coordinates && chosen.None?
      ensures r.Ok? && r.value.Positive? ==>
                chosen.Some? && r.value.location == chosen.value.pointOnLine.point
                && r.value.horizon.start.edge.id == edge.id
                && Tree(graph.network, r.value.horizon.start, fullExpansion)
      ensures chosen.Some? && Drawn(graph)
              && Growable(geometry.rulerFor(position.coordinates.lat), chosen.value.edge,
                          geometry.rulerFor(position.coordinates.lat).distanceAlong(chosen.value.line,
                                                                                    chosen.value.pointOnLine),
                          maxDistanceT as real)
              ==> r.Ok?
    {
      var ruler := geometry.rulerFor(position.coordinates.lat);
      var jumped := previousPosition != null
                    && ruler.distance(previousPosition.coordinates, position.coordinates) > IMPLICIT_RESET_THRESHOLD;
      reset := jumped;
      if jumped {
        previousPosition, edge := null, null;
      }
      candidates, chosen, listed, ranked, relocated := [], None, [], [], false;
      var matching := !(graph == null || (edge == null && previousPosition == null) || previousPosition == position);
      matched := matching;
      if matching {
        r, candidates, chosen, listed, ranked, relocated := MatchPosition(ruler, geometry.pointToLine, position);
      } else {
        r := Ok(Negative(position.coordinates));
      }
      if r.Ok? {
        previousPosition := position;
      }
    }
  }
}