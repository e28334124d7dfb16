/**
 * The map engine's bookkeeping, as it runs on its single loop thread: the tile
 * downloads in flight, the edges each loaded tile brought into the graph, how a new
 * vehicle position reconciles both with the tile cover around it, how a downloaded
 * tile is merged into the graph, how listeners hear the tracker's answer, and the
 * partial configuration updates.
 */
module Engine {
  import opened Util
  import opened Geo
  import opened Tiles
  import opened Edges
  import opened Networks
  import opened Graphs
  import opened Ranking
  import opened Horizon
  import opened Tracking
  import opened VectorTiles
  import opened Config
  import opened Http

  /** The debouncer interval, in milliseconds, a new engine takes state updates at. */
  const DEFAULT_STATE_UPDATE_INTERVAL: Int32 := 200

  /**
   * A tile download in flight, as the file source hands it back. The engine only holds
   * it and may cancel it; which downloads it cancelled is kept beside the engine.
   */
  class Request {
  }

  /** A registered horizon listener; the engine only keeps a set of them. */
  class Listener {
  }

  /**
   * A finished download: an error, or a body that either decodes as a vector tile or
   * makes the decoder raise an IOException (`None`).
   */
  datatype Response = Response(error: Option<Reason>, body: Option<Tile>)

  /** What every registered listener is handed. */
  datatype Update =
    | MatchedUpdate(location: LngLat, horizon: EHorizon, tiles: set<CanonicalTileID>)
    | UnMatchedUpdate(location: LngLat, possibleMatches: seq<MatchResult>, tiles: set<CanonicalTileID>)

  /**
   * The geometry the engine borrows: the box `CheapRuler.bufferPoint` spans around a
   * position at a distance in metres, and the projection `TileCover` maps corners with.
   */
  datatype Surroundings = Surroundings(buffer: (LngLat, Int32) -> BoundingBox,
                                       project: (LngLat, Int32) -> (Int32, Int32))

  /** The three settings a configuration reports and updates. */
  datatype Settings = Settings(distance: Int32, expansion: HorizonExpansion, interval: Int32)

  /** The settings after a partial configuration: every absent field leaves its setting alone. */
  function Applied(s: Settings, distance: Option<Int32>, expansion: Option<HorizonExpansion>,
                   frequency: Option<Int32>): (r: Settings)
    ensures distance.None? && expansion.None? && frequency.None? ==> r == s
    ensures r.distance == (if distance.Some? then distance.value else s.distance)
    ensures r.expansion == (if expansion.Some? then expansion.value else s.expansion)
    ensures r.interval == (if frequency.Some? then frequency.value else s.interval)
  {
    Settings(if distance.Some? then distance.value else s.distance,
             if expansion.Some? then expansion.value else s.expansion,
             if frequency.Some? then frequency.value else s.interval)
  }

  /** Feeding back a full configuration read earlier restores what it was read from. */
  lemma AppliedRestores(s: Settings, t: Settings)
    ensures Applied(t, Some(s.distance), Some(s.expansion), Some(s.interval)) == s
    ensures Applied(Applied(t, Some(s.distance), Some(s.expansion), Some(s.interval)),
                    Some(s.distance), Some(s.expansion), Some(s.interval)) == s
  {}

  // ---------------------------------------------------------------------------
  // The tile -> edges multimap

  /** The requests held for tiles outside the cover: the ones `cleanupOutstandingRequests` cancels. */
  function Dropped(requests: map<CanonicalTileID, Request>, cover: set<CanonicalTileID>): (r: set<Request>)
    ensures forall t :: t in requests && t !in cover ==> requests[t] in r
    ensures forall x :: x in r ==> exists t :: t in requests && t !in cover && requests[t] == x
  {
    set t | t in requests && t !in cover :: requests[t]
  }

  /** `Multimap.get`: the edges listed under a tile, none if it has no entry. */
  function Listed(index: map<CanonicalTileID, seq<Edge>>, tile: CanonicalTileID): (es: seq<Edge>)
    ensures tile !in index ==> es == []
  {
    if tile in index then index[tile] else []
  }

  /**
   * `Multimap.putAll(tile, edges)`: the edges are appended to the tile's list, and no
   * entry appears for an empty collection.
   */
  function PutAll(index: map<CanonicalTileID, seq<Edge>>, tile: CanonicalTileID, es: seq<Edge>)
    : (r: map<CanonicalTileID, seq<Edge>>)
    ensures Listed(r, tile) == Listed(index, tile) + es
    ensures forall t :: t != tile ==> (t in r <==> t in index) && Listed(r, t) == Listed(index, t)
    ensures es == [] ==> r == index
  {
    if es == [] then index else index[tile := Listed(index, tile) + es]
  }

  /** The entries whose tile is in the cover. */
  function Restrict(index: map<CanonicalTileID, seq<Edge>>, cover: set<CanonicalTileID>)
    : (r: map<CanonicalTileID, seq<Edge>>)
    ensures r.Keys == index.Keys * cover
    ensures forall t :: t in r ==> r[t] == index[t]
  {
    map t | t in index && t in cover :: index[t]
  }

  /** The ids of the edges listed under the given tiles. */
  ghost function IdsUnder(index: map<CanonicalTileID, seq<Edge>>, tiles: set<CanonicalTileID>): set<Int64>
  {
    set t, e | t in index && t in tiles && e in index[t] :: e.id
  }

  /**
   * What `cleanupGraph` takes out of the graph: the ids listed under a tile outside
   * the cover and under no tile inside it.
   */
  ghost function Orphaned(index: map<CanonicalTileID, seq<Edge>>, cover: set<CanonicalTileID>): set<Int64>
  {
    IdsUnder(index, index.Keys - cover) - IdsUnder(index, cover)
  }

  /** An orphaned id was listed under a dropped tile, and every edge a kept tile lists survives. */
  lemma OrphanedOnlyDropped(index: map<CanonicalTileID, seq<Edge>>, cover: set<CanonicalTileID>, id: Int64)
    ensures id in Orphaned(index, cover) ==>
              exists t, e :: t in index && t !in cover && e in index[t] && e.id == id
    ensures forall t, e :: t in Restrict(index, cover) && e in Restrict(index, cover)[t] ==>
              e.id !in Orphaned(index, cover)
  {
    forall t, e | t in Restrict(index, cover) && e in Restrict(index, cover)[t]
      ensures e.id in IdsUnder(index, cover)
    {
      assert t in index && t in cover && e in index[t];
    }
  }

  /** Walking one more tile adds the ids it lists. */
  lemma IdsUnderGrow(index: map<CanonicalTileID, seq<Edge>>, tiles: set<CanonicalTileID>, t: CanonicalTileID)
    requires t in index
    ensures IdsUnder(index, tiles + {t}) == IdsUnder(index, tiles) + IdSet(index[t])
  {
    forall id | id in IdsUnder(index, tiles + {t})
      ensures id in IdsUnder(index, tiles) + IdSet(index[t])
    {
      var u, e :| u in index && u in tiles + {t} && e in index[u] && e.id == id;
      if u != t {
        assert u in tiles;
      }
    }
  }

  /** The ids of a list of edges. */
  function IdSet(es: seq<Edge>): (ids: set<Int64>)
    ensures forall e :: e in es ==> e.id in ids
    ensures forall id :: id in ids ==> exists e :: e in es && e.id == id
  {
    set e | e in es :: e.id
  }

  /** The ids of a non-empty list: the first one's and the rest's. */
  lemma IdSetCons(es: seq<Edge>)
    requires es != []
    ensures IdSet(es) == {es[0].id} + IdSet(es[1..])
  {
    assert forall e :: e in es <==> e == es[0] || e in es[1..];
  }

  /**
   * `HashSet<Edge>.add` for each listed edge, equal by id: an edge whose id is already
   * held is not added, so the first edge seen for an id is the one kept.
   */
  function Collected(held: map<Int64, Edge>, es: seq<Edge>): (r: map<Int64, Edge>)
    requires forall id :: id in held ==> held[id].id == id
    ensures r.Keys == held.Keys + IdSet(es)
    ensures forall id :: id in held ==> r[id] == held[id]
    ensures forall id :: id in r ==> r[id].id == id
    decreases |es|
  {
    if es == [] then held
    else
      var next := if es[0].id in held then held else held[es[0].id := es[0]];
      var r := Collected(next, es[1..]);
      IdSetCons(es);
      r
  }

  // ---------------------------------------------------------------------------
  // Merging a parsed tile

  /** Whether `addEdge` raises for the edge: its id is in the network between other ends. */
  predicate Clashes(network: map<Int64, Arc>, f: EdgeFields)
  {
    f.nodeIdIn != f.nodeIdOut && f.id in network
    && (network[f.id].source, network[f.id].target) != Remap(f.nodeIdIn, f.nodeIdOut)
  }

  /**
   * How the network stands after a batch of edges was added without a clash: the
   * ids kept are new, and every arc it held before is unchanged.
   */
  predicate GrownBy(before: map<Int64, Arc>, after: map<Int64, Arc>, added: seq<EdgeFields>)
  {
    after.Keys == before.Keys + Retained(added)
    && (forall id :: id in before ==> after[id] == before[id])
    && (forall f :: f in added ==> !Clashes(before, f))
  }

  /**
   * How the network stands after a batch stopped at an edge that clashes: it holds the
   * edges kept from those before the first clash, and no others.
   */
  ghost predicate StoppedAtClash(before: map<Int64, Arc>, after: map<Int64, Arc>, edges: seq<EdgeFields>)
  {
    exists k :: 0 <= k < |edges| && Clashes(before, edges[k])
      && (forall j :: 0 <= j < k ==> !Clashes(before, edges[j]))
      && after.Keys == before.Keys + Retained(edges[..k])
  }

  /**
   * A rearranged batch holds the same edges, so it clashes exactly when the parsed
   * one does, keeps the same ids, and keeps its ids distinct.
   */
  lemma {:induction false} ShuffledBatch(a: seq<EdgeFields>, b: seq<EdgeFields>)
    requires multiset(a) == multiset(b) && VectorTiles.DistinctIds(a)
    ensures |a| == |b|
    ensures forall f :: f in a <==> f in b
    ensures Retained(a) == Retained(b)
    ensures VectorTiles.DistinctIds(b)
  {
    assert |a| == |multiset(a)| == |multiset(b)| == |b|;
    assert forall f :: f in a <==> f in multiset(a);
    assert forall f :: f in b <==> f in multiset(b);
    forall i, j | 0 <= i < j < |b|
      ensures b[i].id != b[j].id
    {
      if b[i] == b[j] {
        Twice(b, i, j);
        assert Distinct(a);
        DistinctOnce(a, b[i]);
      } else {
        assert b[i] in b && b[j] in b;
        var k :| 0 <= k < |a| && a[k] == b[i];
        var l :| 0 <= l < |a| && a[l] == b[j];
        assert a[k].id != a[l].id;
      }
    }
    forall id | id in Retained(a) ensures id in Retained(b) {
      var i :| 0 <= i < |a| && a[i].nodeIdIn != a[i].nodeIdOut && a[i].id == id;
      assert a[i] in a;
      var k :| 0 <= k < |b| && b[k] == a[i];
    }
    forall id | id in Retained(b) ensures id in Retained(a) {
      var i :| 0 <= i < |b| && b[i].nodeIdIn != b[i].nodeIdOut && b[i].id == id;
      assert b[i] in b;
      var k :| 0 <= k < |a| && a[k] == b[i];
    }
  }

  /** Whether one of the paths names the edge id. */
  predicate Listing(paths: seq<DrivablePath>, id: Int64)
  {
    exists j :: 0 <= j < |paths| && id in paths[j].edgeIds
  }

  /**
   * Every edge some path names carries one of the paths naming it: which one depends
   * on the order the parser's hash set yields them.
   */
  ghost predicate CarryListed(edgeMap: map<Int64, Edge>, paths: seq<DrivablePath>)
    reads set id | id in edgeMap :: edgeMap[id]
  {
    forall id :: id in edgeMap && Listing(paths, id) ==>
      exists j :: 0 <= j < |paths| && id in paths[j].edgeIds && Carries(edgeMap[id], paths[j])
  }

  /** The ids `addEdge` keeps in the graph: those of edges whose raw ends differ. */
  function Retained(edges: seq<EdgeFields>): (ids: set<Int64>)
    ensures forall i :: 0 <= i < |edges| && edges[i].nodeIdIn != edges[i].nodeIdOut ==> edges[i].id in ids
    ensures forall id :: id in ids ==> exists i :: 0 <= i < |edges| && edges[i].nodeIdIn != edges[i].nodeIdOut && edges[i].id == id
  {
    set i | 0 <= i < |edges| && edges[i].nodeIdIn != edges[i].nodeIdOut :: edges[i].id
  }

  /** The map engine, reduced to what its loop thread does. */
  class MapEngine {
    const zoom: Int32
    const graph: Graph
    const tracker: Tracker
    var requests: map<CanonicalTileID, Request>
    var cancelled: set<Request>
    var index: map<CanonicalTileID, seq<Edge>>
    var listeners: set<Listener>
    var horizonDistance: Int32
    var updateInterval: Int32
    var position: Point?

    /**
     * The tracker works on the engine's graph, the engine's distance is the tracker's,
     * and the zoom level is one `TileCover` can scan.
     */
    ghost predicate Valid()
      reads this, graph, tracker
    {
      0 <= zoom <= 30
      && tracker.graph == graph && graph.Valid() && tracker.Valid()
      && horizonDistance == tracker.maxDistanceT
    }

    /** The settings `getConfiguration` reports. */
    function Current(): (s: Settings)
      reads this, tracker
      ensures s.expansion == Full <==> tracker.fullExpansion
    {
      Settings(tracker.maxDistanceT, if tracker.fullExpansion then Full else Limited, updateInterval)
    }

    /**
     * A new engine: an empty graph handed to a new tracker, whose horizon distance the
     * engine takes over, no requests, no listeners and no state yet.
     */
    constructor (zoom: Int32)
      requires 0 <= zoom <= 30
      ensures Valid()
      ensures this.zoom == zoom && fresh(graph) && fresh(tracker)
      ensures graph.network == map[] && tracker.previousPosition == null && tracker.edge == null
      ensures requests == map[] && cancelled == {} && index == map[] && listeners == {} && position == null
      ensures Current() == Settings(DEFAULT_HORIZON_DISTANCE, Limited, DEFAULT_STATE_UPDATE_INTERVAL)
    {
      this.zoom := zoom;
      var g := new Graph();
      var t := new Tracker();
      t.SetGraph(g);
      graph := g;
      tracker := t;
      requests := map[];
      cancelled := {};
      index := map[];
      listeners := {};
      horizonDistance := t.maxDistanceT;
      updateInterval := DEFAULT_STATE_UPDATE_INTERVAL;
      position := null;
    }

    method RegisterListener(listener: Listener)
      modifies this
      ensures listeners == old(listeners) + {listener}
      ensures requests == old(requests) && index == old(index) && position == old(position)
      ensures horizonDistance == old(horizonDistance) && updateInterval == old(updateInterval)
    {
      listeners := listeners + {listener};
    }

    method UnregisterListener(listener: Listener)
      modifies this
      ensures listeners == old(listeners) - {listener}
      ensures requests == old(requests) && index == old(index) && position == old(position)
      ensures horizonDistance == old(horizonDistance) && updateInterval == old(updateInterval)
    {
      listeners := listeners - {listener};
    }

    /**
     * `doUpdateState`: take the new position, request every tile of the cover around
     * it that is not requested yet, cancel and drop the requests outside the cover,
     * drop the edges only dropped tiles listed, and tell the listeners.
     */
    method DoUpdateState(newState: Point, surroundings: Surroundings, geometry: Geometry)
      returns (r: Outcome<Option<Update>>, ghost cover: set<CanonicalTileID>)
      requires Valid()
      modifies this, graph, tracker
      ensures Valid()
      ensures position == newState
      ensures cover == CoverSpec(surroundings.buffer(newState.coordinates, horizonDistance), zoom, surroundings.project)
      ensures requests.Keys == cover
      ensures forall t :: t in old(requests) && t in cover ==> requests[t] == old(requests[t])
      ensures forall t :: t in cover && t !in old(requests) ==> fresh(requests[t]) && requests[t] !in cancelled
      ensures cancelled == old(cancelled) + Dropped(old(requests), cover)
      ensures index == Restrict(old(index), cover)
      ensures graph.network == old(graph.network) - Orphaned(old(index), cover)
      ensures listeners == old(listeners) && Current() == old(Current())
      ensures listeners == {} ==> r == Ok(None)
                                  && tracker.previousPosition == old(tracker.previousPosition)
                                  && tracker.edge == old(tracker.edge)
      ensures r.Ok? && r.value.Some? ==> r.value.value.tiles == requests.Keys && tracker.previousPosition == newState
    {
      position := newState;
      var area := surroundings.buffer(newState.coordinates, horizonDistance);
      var tiles := Cover(area, zoom, surroundings.project);
      cover := tiles;
      ReconcileRequests(tiles);
      CleanupGraph(tiles);
      r := UpdateHorizonListeners(geometry);
    }

    /**
     * The requests `doUpdateState` leaves: exactly the cover's, those already held kept,
     * the missing ones new, and the ones outside the cover cancelled.
     */
    method ReconcileRequests(cover: set<CanonicalTileID>)
      modifies this
      ensures requests.Keys == cover
      ensures forall t :: t in old(requests) && t in cover ==> requests[t] == old(requests[t])
      ensures forall t :: t in cover && t !in old(requests) ==> fresh(requests[t]) && requests[t] !in cancelled
      ensures cancelled == old(cancelled) + Dropped(old(requests), cover)
      ensures index == old(index) && listeners == old(listeners) && position == old(position)
      ensures horizonDistance == old(horizonDistance) && updateInterval == old(updateInterval)
    {
      RequestCover(cover);
      assert Dropped(requests, cover) == Dropped(old(requests), cover);
      CleanupOutstandingRequests(cover);
    }

    /**
     * The loading loop of `doUpdateState`: a new request for every tile of the cover
     * without one; a tile already requested keeps its request.
     */
    method RequestCover(cover: set<CanonicalTileID>)
      modifies this
      ensures requests.Keys == old(requests).Keys + cover
      ensures forall t :: t in old(requests) ==> requests[t] == old(requests[t])
      ensures forall t :: t in requests && t !in old(requests) ==> fresh(requests[t])
      ensures cancelled == old(cancelled) && index == old(index) && listeners == old(listeners)
      ensures position == old(position) && horizonDistance == old(horizonDistance) && updateInterval == old(updateInterval)
    {
      var held := requests;
      var rest := cover;
      while rest != {}
        invariant rest <= cover
        invariant forall t :: t in held <==> t in requests || (t in cover && t !in rest)
        invariant forall t :: t in requests ==> held[t] == requests[t]
        invariant forall t :: t in held && t !in requests ==> fresh(held[t])
        modifies {}
        decreases |rest|
      {
        var t :| t in rest;
        if t !in held {
          var request := new Request;
          held := held[t := request];
        }
        rest := rest - {t};
      }
      requests := held;
    }

    /** `cleanupOutstandingRequests`: every request outside the cover is cancelled, then dropped. */
    method CleanupOutstandingRequests(cover: set<CanonicalTileID>)
      modifies this
      ensures requests == map t | t in old(requests) && t in cover :: old(requests)[t]
      ensures cancelled == old(cancelled) + Dropped(old(requests), cover)
      ensures index == old(index) && listeners == old(listeners) && position == old(position)
      ensures horizonDistance == old(horizonDistance) && updateInterval == old(updateInterval)
    {
      var all := requests;
      var held := requests;
      var log := cancelled;
      var rest := requests.Keys;
      while rest != {}
        invariant rest <= all.Keys
        invariant held == map t | t in all && (t in rest || t in cover) :: all[t]
        invariant log == cancelled + Dropped(all, cover + rest)
        decreases |rest|
      {
        var t :| t in rest;
        if t !in cover {
          log := log + {held[t]};
          held := held - {t};
        }
        rest := rest - {t};
      }
      requests, cancelled := held, log;
    }

    /**
     * `cleanupGraph`: the entries of tiles outside the cover leave the index, and each
     * edge they listed that no tile of the cover lists is removed from the graph; the
     * removal raising for an edge the graph does not hold is swallowed.
     */
    method CleanupGraph(cover: set<CanonicalTileID>)
      requires graph.Valid()
      modifies this, graph
      ensures graph.Valid()
      ensures index == Restrict(old(index), cover)
      ensures graph.network == old(graph.network) - Orphaned(old(index), cover)
      ensures cancelled == old(cancelled)
      ensures requests == old(requests) && listeners == old(listeners) && position == old(position)
      ensures horizonDistance == old(horizonDistance) && updateInterval == old(updateInterval)
    {
      var kept, toRemove, toRetain := SortEntries(index, cover);
      index := kept;
      RemoveEdges(toRemove, toRemove.Keys - toRetain);
    }

    /**
     * The stream at the end of `cleanupGraph`: each gathered edge with a doomed id is
     * removed from the graph, and a removal that raises is swallowed.
     */
    method RemoveEdges(toRemove: map<Int64, Edge>, doomed: set<Int64>)
      requires graph.Valid()
      requires forall id :: id in toRemove ==> toRemove[id].id == id
      requires doomed <= toRemove.Keys
      modifies graph
      ensures graph.Valid()
      ensures graph.network == old(graph.network) - doomed
    {
      var rest := doomed;
      while rest != {}
        invariant rest <= doomed
        invariant graph.Valid()
        invariant forall id :: id in graph.network <==> id in old(graph.network) && (id !in doomed || id in rest)
        invariant forall id :: id in graph.network ==> graph.network[id] == old(graph.network)[id]
        decreases |rest|
      {
        var id :| id in rest;
        var _ := graph.RemoveEdge(toRemove[id]);
        rest := rest - {id};
      }
    }
    /**
     * `handleTileResponse`: an error only drops the tile's request; a body that does
     * not decode changes nothing; otherwise the parsed tile is merged and the listeners
     * told. Whether the tile is still requested is not checked. An edge the network
     * rejects stops the merge, leaving the edges added before it in the graph but
     * listed under no tile, so no later cleanup takes them out again. In Java that
     * exception also halts the looper the call was posted on (Looper.java:85-88), so
     * no later message runs; the model returns the fault and keeps accepting calls.
     */
    method HandleTileResponse(tileID: CanonicalTileID, response: Response, project: Projection, geometry: Geometry)
      returns (r: Outcome<Option<Update>>, ghost parsed: Option<Outcome<Parsed>>, ghost built: seq<Edge>,
               ghost walk: seq<EdgeFields>)
      requires Valid()
      modifies this, graph, graph.Edges(), tracker
      ensures Valid()
      ensures listeners == old(listeners) && position == old(position) && Current() == old(Current())
      ensures response.error.Some? ==> r == Ok(None) && parsed.None? && requests == old(requests) - {tileID}
      ensures response.error.None? ==> requests == old(requests)
      ensures response.error.None? && response.body.Some? <==> parsed.Some?
      ensures parsed.Some? ==> parsed.value == ParsedTile(response.body.value, tileID, project)
      ensures parsed.None? || parsed.value.Raised? ==> r.Ok? ==> r == Ok(None)
      ensures parsed.None? || parsed.value.Raised? ==> index == old(index) && graph.network == old(graph.network)
      ensures parsed.Some? && parsed.value.Raised? ==> r == Raised(parsed.value.fault)
      ensures parsed.Some? && parsed.value.Ok? && (exists f :: f in parsed.value.value.edges && Clashes(old(graph.network), f)) ==>
                var edges := parsed.value.value.edges;
                r == Raised(IllegalArgument) && index == old(index)
                && multiset(walk) == multiset(edges) && StoppedAtClash(old(graph.network), graph.network, walk)
      ensures parsed.Some? && parsed.value.Ok? && !(exists f :: f in parsed.value.value.edges && Clashes(old(graph.network), f)) ==>
                var edges, paths := parsed.value.value.edges, parsed.value.value.paths;
                multiset(walk) == multiset(edges) && |walk| == |edges|
                && |built| == |edges| && (forall i :: 0 <= i < |edges| ==> built[i].id == walk[i].id)
                && graph.network.Keys == old(graph.network).Keys + Retained(edges)
                && index == PutAll(old(index), tileID, built)
                && CarryListed(graph.edgeMap, paths)
    {
      parsed, built, walk := None, [], [];
      if response.error.Some? {
        requests := requests - {tileID};
        r := Ok(None);
        return;
      }
      if response.body.None? {
        r := Ok(None);
        return;
      }
      var parser := new VectorTileParser();
      var p := parser.ParseTile(tileID, response.body.value, project);
      parsed := Some(ParsedTile(response.body.value, tileID, project));
      if p.Raised? {
        r := Raised(p.fault);
        return;
      }
      var merged;
      ghost var order;
      merged, built, walk, order := Merge(tileID, parser.edges, parser.drivablePaths);
      if merged.Raised? {
        r := Raised(merged.fault);
        return;
      }
      r := UpdateHorizonListeners(geometry);
    }

    /**
     * The block `handleTileResponse` posts back to the loop: every parsed edge is added
     * to the graph, stopping at the first one the network rejects, the drivable paths
     * are attached, and the edges are listed under the tile. The parser holds both in
     * hash sets, so edges and paths are walked in an order the model leaves open,
     * returned as the ghost permutations `walk` and `order`; the index lists the
     * edges in the order they were added, as both loops walk the same set.
     */
    method Merge(tileID: CanonicalTileID, edges: seq<EdgeFields>, paths: seq<DrivablePath>)
      returns (r: Outcome<()>, built: seq<Edge>, ghost walk: seq<EdgeFields>, ghost order: seq<DrivablePath>)
      requires graph.Valid() && VectorTiles.DistinctIds(edges)
      modifies this, graph, graph.Edges()
      ensures graph.Valid()
      ensures requests == old(requests) && listeners == old(listeners) && position == old(position)
      ensures horizonDistance == old(horizonDistance) && updateInterval == old(updateInterval)
      ensures r.Raised? <==> exists f :: f in edges && Clashes(old(graph.network), f)
      ensures r.Raised? ==> r.fault == IllegalArgument && index == old(index)
      ensures multiset(walk) == multiset(edges) && |walk| == |edges|
      ensures r.Raised? ==> StoppedAtClash(old(graph.network), graph.network, walk)
      ensures forall id :: id in old(graph.network) ==> id in graph.network && graph.network[id] == old(graph.network)[id]
      ensures r.Ok? ==> |built| == |edges| && forall i :: 0 <= i < |edges| ==> built[i].id == walk[i].id
      ensures r.Ok? ==> graph.network.Keys == old(graph.network).Keys + Retained(edges)
      ensures r.Ok? ==> index == PutAll(old(index), tileID, built)
      ensures r.Ok? ==> multiset(order) == multiset(paths)
      ensures r.Ok? ==> forall id :: id in graph.edgeMap && LastPathWith(order, id).Some? ==>
                          Carries(graph.edgeMap[id], order[LastPathWith(order, id).value])
      ensures r.Ok? ==> CarryListed(graph.edgeMap, paths)
    {
      order := [];
      r, built, walk := AddHashed(edges);
      if r.Raised? {
        return;
      }
      var listed := Shuffled(paths);
      order := listed;
      graph.AddDrivablePaths(listed);
      index := PutAll(index, tileID, built);
      CarriedInSomeOrder(graph.edgeMap, listed, paths);
    }

    /**
     * `parser.getEdges().forEach(graph::addEdge)` over the parser's hash set, whose order
     * the model leaves open: the edges are added in the order of the ghost permutation `walk`.
     */
    method AddHashed(edges: seq<EdgeFields>) returns (r: Outcome<()>, built: seq<Edge>, ghost walk: seq<EdgeFields>)
      requires graph.Valid() && VectorTiles.DistinctIds(edges)
      modifies graph
      ensures graph.Valid()
      ensures multiset(walk) == multiset(edges) && |walk| == |edges|
      ensures r.Raised? <==> exists f :: f in edges && Clashes(old(graph.network), f)
      ensures r.Raised? ==> r.fault == IllegalArgument
      ensures r.Raised? ==> StoppedAtClash(old(graph.network), graph.network, walk)
      ensures r.Ok? ==> |built| == |edges| && forall i :: 0 <= i < |edges| ==> built[i].id == walk[i].id
      ensures r.Ok? ==> graph.network.Keys == old(graph.network).Keys + Retained(edges)
      ensures forall id :: id in old(graph.network) ==> id in graph.network && graph.network[id] == old(graph.network)[id]
      ensures forall id :: id in graph.network ==>
                graph.network[id].edge in old(graph.Edges()) || fresh(graph.network[id].edge)
    {
      var hashed := Shuffled(edges);
      walk := hashed;
      ShuffledBatch(edges, hashed);
      r, built := AddEdges(hashed);
    }

    /** `parser.getEdges().forEach(graph::addEdge)`, in the order given, over freshly built edges. */
    method AddEdges(edges: seq<EdgeFields>) returns (r: Outcome<()>, built: seq<Edge>)
      requires graph.Valid() && VectorTiles.DistinctIds(edges)
      modifies graph
      ensures graph.Valid()
      ensures r.Raised? <==> exists f :: f in edges && Clashes(old(graph.network), f)
      ensures r.Raised? ==> r.fault == IllegalArgument
      ensures r.Raised? ==> StoppedAtClash(old(graph.network), graph.network, edges)
      ensures r.Ok? ==> |built| == |edges| && forall i :: 0 <= i < |edges| ==> built[i].id == edges[i].id
      ensures r.Ok? ==> graph.network.Keys == old(graph.network).Keys + Retained(edges)
      ensures forall id :: id in old(graph.network) ==> id in graph.network && graph.network[id] == old(graph.network)[id]
      ensures forall id :: id in graph.network ==>
                graph.network[id].edge in old(graph.Edges()) || fresh(graph.network[id].edge)
    {
      built := [];
      var i := 0;
      while i < |edges|
        invariant 0 <= i <= |edges| && |built| == i
        invariant graph.Valid()
        invariant forall j :: 0 <= j < i ==> built[j].id == edges[j].id
        invariant GrownBy(old(graph.network), graph.network, edges[..i])
        invariant forall id :: id in graph.network ==>
                    graph.network[id].edge in old(graph.Edges()) || fresh(graph.network[id].edge)
      {
        var added, e := AddNext(edges, i, old(graph.network));
        if added.Raised? {
          assert edges[i] in edges;
          FirstClash(old(graph.network), graph.network, edges, i);
          return Raised(added.fault), built;
        }
        built := built + [e];
        i := i + 1;
      }
      assert edges[..i] == edges;
      return Ok(()), built;
    }

    /** One step of `AddEdges`: the next edge is added, growing the network by one more edge unless it clashes. */
    method AddNext(edges: seq<EdgeFields>, i: int, ghost before: map<Int64, Arc>) returns (r: Outcome<AddStatus>, e: Edge)
      requires graph.Valid() && VectorTiles.DistinctIds(edges) && 0 <= i < |edges|
      requires GrownBy(before, graph.network, edges[..i])
      modifies graph
      ensures graph.Valid() && fresh(e) && e.id == edges[i].id
      ensures r.Raised? ==> r.fault == IllegalArgument && Clashes(before, edges[i]) && graph.network == old(graph.network)
      ensures r.Ok? ==> GrownBy(before, graph.network, edges[..i + 1])
      ensures forall id :: id in graph.network ==>
                (id in old(graph.network) && graph.network[id] == old(graph.network)[id]) || graph.network[id].edge == e
    {
      ghost var mid := graph.network;
      ClashesAsBefore(before, mid, edges, i);
      r, e := AddBuilt(edges[i]);
      if r.Ok? {
        GrowStep(before, mid, graph.network, edges, i);
      }
    }

    /** `graph.addEdge` on a new edge built from parsed fields. */
    method AddBuilt(f: EdgeFields) returns (r: Outcome<AddStatus>, e: Edge)
      requires graph.Valid()
      modifies graph
      ensures graph.Valid() && fresh(e) && e.id == f.id
      ensures r.Raised? <==> Clashes(old(graph.network), f)
      ensures r.Raised? ==> r.fault == IllegalArgument && graph.network == old(graph.network)
      ensures r.Ok? ==> graph.network.Keys == old(graph.network).Keys + (if f.nodeIdIn != f.nodeIdOut then {f.id} else {})
      ensures r.Ok? ==> forall id :: id in old(graph.network) ==> graph.network[id] == old(graph.network)[id]
      ensures r.Ok? ==> forall id :: id in graph.network && id !in old(graph.network) ==> graph.network[id].edge == e
    {
      e := new Edge.Build(f);
      r := graph.AddEdge(e);
    }

    /**
     * `updateHorizonListeners`: with no listener the tracker is not asked; otherwise its
     * answer for the current position goes to every listener, as a matched update with
     * the horizon or an unmatched one with no possible matches, carrying the requested tiles.
     */
    method UpdateHorizonListeners(geometry: Geometry) returns (r: Outcome<Option<Update>>)
      requires Valid()
      modifies tracker
      ensures Valid()
      ensures tracker.graph == old(tracker.graph) && tracker.maxDistanceT == old(tracker.maxDistanceT)
      ensures tracker.fullExpansion == old(tracker.fullExpansion)
      ensures listeners == {} || position == null ==>
                tracker.previousPosition == old(tracker.previousPosition) && tracker.edge == old(tracker.edge)
      ensures listeners == {} ==> r == Ok(None)
      ensures listeners != {} && position == null ==> r == Raised(NullPointer)
      ensures listeners != {} && r.Ok? ==> r.value.Some? && tracker.previousPosition == position
      ensures r.Ok? && r.value.Some? ==> r.value.value.tiles == requests.Keys
      ensures r.Ok? && r.value.Some? && r.value.value.MatchedUpdate? ==>
                tracker.edge != null && r.value.value.horizon.start.edge.id == tracker.edge.id
                && Tree(graph.network, r.value.value.horizon.start, tracker.fullExpansion)
      ensures r.Ok? && r.value.Some? && r.value.value.UnMatchedUpdate? ==>
                r.value.value.location == position.coordinates && r.value.value.possibleMatches == []
    {
      if listeners == {} {
        return Ok(None);
      }
      if position == null {
        return Raised(NullPointer);
      }
      var answer, reset, candidates, chosen, listed, ranked, relocated, matched := tracker.HorizonAt(geometry, position);
      if answer.Raised? {
        return Raised(answer.fault);
      }
      match answer.value
      case Positive(location, horizon) =>
        r := Ok(Some(MatchedUpdate(location, horizon, requests.Keys)));
      case Negative(location) =>
        r := Ok(Some(UnMatchedUpdate(location, [], requests.Keys)));
    }

    /**
     * `updateConfiguration`: each present field replaces its setting (the expansion
     * enables full expansion exactly when it is FULL); absent fields change nothing.
     */
    method UpdateConfiguration(configuration: Configuration)
      requires Valid()
      modifies this, tracker
      ensures Valid()
      ensures Current() == Applied(old(Current()), configuration.horizonDistance,
                                   configuration.horizonExpansion, configuration.updateFrequency)
      ensures horizonDistance == Current().distance
      ensures tracker.graph == old(tracker.graph) && tracker.previousPosition == old(tracker.previousPosition)
      ensures tracker.edge == old(tracker.edge)
      ensures requests == old(requests) && index == old(index) && listeners == old(listeners) && position == old(position)
    {
      if configuration.updateFrequency.Some? {
        updateInterval := configuration.updateFrequency.value;
      }
      if configuration.horizonDistance.Some? {
        horizonDistance := configuration.horizonDistance.value;
        tracker.SetHorizonDistance(configuration.horizonDistance.value);
      }
      if configuration.horizonExpansion.Some? {
        tracker.SetFullGraphExpansion(configuration.horizonExpansion.value == Full);
      }
    }

    /** `getConfiguration`: a new configuration with all three settings filled in. */
    method GetConfiguration() returns (c: Configuration)
      ensures fresh(c)
      ensures c.horizonDistance == Some(Current().distance)
      ensures c.horizonExpansion == Some(Current().expansion)
      ensures c.updateFrequency == Some(Current().interval)
    {
      c := new Configuration();
      c := c.WithHorizonDistance(tracker.maxDistanceT);
      c := c.WithHorizonExpansion(Some(if tracker.fullExpansion then Full else Limited));
      c := c.WithUpdateFrequency(updateInterval);
    }
  }

  /**
   * The entry loop of `cleanupGraph`: entries outside the cover leave the index and
   * their edges are gathered (one per id) to remove; the ids of the others to retain.
   */
  method SortEntries(index: map<CanonicalTileID, seq<Edge>>, cover: set<CanonicalTileID>)
    returns (kept: map<CanonicalTileID, seq<Edge>>, toRemove: map<Int64, Edge>, toRetain: set<Int64>)
    ensures kept == Restrict(index, cover)
    ensures toRemove.Keys == IdsUnder(index, index.Keys - cover)
    ensures forall id :: id in toRemove ==> toRemove[id].id == id
    ensures toRetain == IdsUnder(index, cover)
  {
    kept, toRemove, toRetain := index, map[], {};
    var rest := index.Keys;
    while rest != {}
      invariant rest <= index.Keys
      invariant forall u :: u in kept <==> u in index && (u in rest || u in cover)
      invariant forall u :: u in kept ==> kept[u] == index[u]
      invariant toRemove.Keys == IdsUnder(index, index.Keys - cover - rest)
      invariant forall id :: id in toRemove ==> toRemove[id].id == id
      invariant toRetain == IdsUnder(index, cover - rest)
      decreases |rest|
    {
      var t :| t in rest;
      if t !in cover {
        IdsUnderStep(index, index.Keys - cover, rest, t);
        toRemove := Collected(toRemove, index[t]);
        kept := kept - {t};
      } else {
        IdsUnderStep(index, cover, rest, t);
        toRetain := toRetain + IdSet(index[t]);
      }
      rest := rest - {t};
    }
  }

  /** Paths applied in any permutation leave every named edge carrying one of the paths naming it. */
  lemma CarriedInSomeOrder(edgeMap: map<Int64, Edge>, order: seq<DrivablePath>, paths: seq<DrivablePath>)
    requires multiset(order) == multiset(paths)
    requires forall id :: id in edgeMap && LastPathWith(order, id).Some? ==>
               Carries(edgeMap[id], order[LastPathWith(order, id).value])
    ensures CarryListed(edgeMap, paths)
  {
    forall id | id in edgeMap && Listing(paths, id)
      ensures exists j :: 0 <= j < |paths| && id in paths[j].edgeIds && Carries(edgeMap[id], paths[j])
    {
      var j :| 0 <= j < |paths| && id in paths[j].edgeIds;
      assert paths[j] in multiset(order);
      var k := LastPathWith(order, id);
      assert k.Some?;
      assert order[k.value] in multiset(paths);
      var m :| 0 <= m < |paths| && paths[m] == order[k.value];
      assert Carries(edgeMap[id], paths[m]);
    }
  }

  /** A batch grown up to an edge that clashes stops at its first clash. */
  lemma FirstClash(before: map<Int64, Arc>, mid: map<Int64, Arc>, edges: seq<EdgeFields>, i: int)
    requires 0 <= i < |edges| && GrownBy(before, mid, edges[..i]) && Clashes(before, edges[i])
    ensures StoppedAtClash(before, mid, edges)
    ensures forall id :: id in before ==> id in mid && mid[id] == before[id]
  {
    assert forall j :: 0 <= j < i ==> edges[j] in edges[..i];
  }

  /** Whether the next edge clashes is the same against the grown network as against the first. */
  lemma ClashesAsBefore(before: map<Int64, Arc>, mid: map<Int64, Arc>, edges: seq<EdgeFields>, i: int)
    requires VectorTiles.DistinctIds(edges) && 0 <= i < |edges|
    requires GrownBy(before, mid, edges[..i])
    ensures Clashes(mid, edges[i]) == Clashes(before, edges[i])
  {
    KeptBefore(edges, i);
  }

  /** Adding the next edge without a clash grows the network by one more edge. */
  lemma GrowStep(before: map<Int64, Arc>, mid: map<Int64, Arc>, after: map<Int64, Arc>, edges: seq<EdgeFields>, i: int)
    requires VectorTiles.DistinctIds(edges) && 0 <= i < |edges|
    requires GrownBy(before, mid, edges[..i]) && !Clashes(mid, edges[i])
    requires after.Keys == mid.Keys + (if edges[i].nodeIdIn != edges[i].nodeIdOut then {edges[i].id} else {})
    requires forall id :: id in mid ==> after[id] == mid[id]
    ensures GrownBy(before, after, edges[..i + 1])
  {
    KeptStep(edges, i);
    KeptBefore(edges, i);
    var longer := edges[..i + 1];
    forall f | f in longer
      ensures !Clashes(before, f)
    {
      var j :| 0 <= j < |longer| && longer[j] == f;
      if j < i {
        assert f in edges[..i];
      }
    }
  }

  /** Taking one more tile off the rest adds the ids listed under it. */
  lemma IdsUnderStep(index: map<CanonicalTileID, seq<Edge>>, tiles: set<CanonicalTileID>,
                     rest: set<CanonicalTileID>, t: CanonicalTileID)
    requires t in index && t in tiles && t in rest
    ensures IdsUnder(index, tiles - (rest - {t})) == IdsUnder(index, tiles - rest) + IdSet(index[t])
  {
    assert tiles - (rest - {t}) == (tiles - rest) + {t};
    IdsUnderGrow(index, tiles - rest, t);
  }

  /** The ids kept from one more edge. */
  lemma KeptStep(edges: seq<EdgeFields>, i: int)
    requires 0 <= i < |edges|
    ensures Retained(edges[..i + 1]) == Retained(edges[..i]) + (if edges[i].nodeIdIn != edges[i].nodeIdOut then {edges[i].id} else {})
  {
    var longer := edges[..i + 1];
    assert longer[..i] == edges[..i];
    assert longer[i] == edges[i];
  }

  /** With distinct ids, no edge's id was kept from the edges before it. */
  lemma KeptBefore(edges: seq<EdgeFields>, i: int)
    requires VectorTiles.DistinctIds(edges) && 0 <= i < |edges|
    ensures edges[i].id !in Retained(edges[..i])
  {
    var before := edges[..i];
    forall j | 0 <= j < |before|
      ensures before[j].id != edges[i].id
    {
      assert before[j] == edges[j];
    }
  }
}
