# Electronic Horizon engine — a Dafny model

This project models the core of the Mapbox navigation SDK's Electronic Horizon (EH)
engine, which keeps a local road graph around the vehicle and predicts the roads it
will take next:

- **Map engine** (`engine.dfy`). It turns each new position into a cover of map tiles,
  requests the missing tiles and cancels the ones no longer needed. It also keeps a
  tile→edges index, evicts the edges only dropped tiles held, merges parsed tile
  responses into the graph, applies partial configuration updates and builds the
  listener updates.
- **Road graph** (`network.dfy`, `search.dfy`, `graph.dfy`). A directed multigraph keyed
  by edge id. Dead-end node ids are remapped and self-loops are rejected. Removing an
  edge also removes the nodes it orphans. The graph offers successor queries, a bounded
  breadth-first exploration, and bounding-box and nearest-edge matching.
- **Horizon tracker** (`tracker.dfy`, `transition.dfy`, `match.dfy`, `candidates.dfy`,
  `ranking.dfy`, `cost.dfy`, `horizon.dfy`). A state machine over the previous position
  and the current edge:
  - an implicit reset after a jump of more than 100 m;
  - continuation matching, then relocation matching over the nearest edges;
  - recursive horizon expansion with one visited set for the whole tree;
  - the weighted transition cost and the probability normalisation;
  - the most probable path through the resulting tree.
- **Edges, tiles and vector tiles** (`edge.dfy`, `tiles.dfy`, `vt.dfy`).
  - Edge identity and drivable-path attachment.
  - Canonical/unwrapped tile ids and the tile cover scan.
  - Mapbox Vector Tile decoding: command integers, zig-zag parameters,
    MoveTo/LineTo/ClosePath geometry and key/value tags (sections 4.3.1-4.3.3 and
    4.4 of the Mapbox Vector Tile Specification 2.1).
  - The `edges` and `drivablePaths` layers.
- **Small helpers** (`bearing.dfy`, `geo.dfy`, `osm.dfy`, `config.dfy`, `http.dfy`,
  `util.dfy`, `ruler.dfy`).
  - Bearing normalisation with Java's truncated remainder.
  - Bounding boxes.
  - Road classes and junction types with case-insensitive lookups.
  - The configuration record.
  - HTTP status classification.
  - 32-bit integer arithmetic as Java performs it.

Objects the engine updates in place are classes: `Graph`, `Edge`, `Tracker`, `MapEngine`,
`VectorTileParser`, `Configuration` and `CumulativeCostFunction`.
Everything else is a value, including the horizon tree. Java `int`/`long` arithmetic is written out:
- wrap-around via `Wrap32`;
- truncating division and remainder via `JavaDiv`/`JavaRem`.

Costs and probabilities are `real`s. Exceptions the code can raise are explicit
`Outcome.Raised` results. Java `assert` statements are taken as disabled, the runtime default.

Places where the code behaves in a way worth noting:
- `doUpdateState` requests the new tiles before it cleans up the old ones.
- `handleTileResponse` merges a parsed tile without checking that the tile is still requested.
- `TileCover` compares `west` with the latitude limit.
- `highBearingChangeCost` is `bearingDiff / 90`, not an amount above the threshold.
- `LocationHistoryMatch` weights the segment's own bearing rather than the offset.

## Model

| member | source | states |
|---|---|---|
| Bearing.NormalisedProperties | libandroid-navigation/src/main/java/com/mapbox/services/android/navigation/v5/eh/geo/Bearing.java:27-36 | the normalised bearing lies in [-180, 180] and differs from the input by whole turns; a bearing already in range is returned unchanged |
| Bearing.Normalise | libandroid-navigation/src/main/java/com/mapbox/services/android/navigation/v5/eh/geo/Bearing.java:27-36 | the two loops (subtract, then add, full turns) end on the normalised bearing: in [-180, 180] and whole turns away from the input |
| Bearing.Diff | libandroid-navigation/src/main/java/com/mapbox/services/android/navigation/v5/eh/geo/Bearing.java:45-48 | the difference b - a, reduced by Java's truncated remainder and normalised, lies in [-180, 180] and is whole turns away from b - a |
| Bearing.DiffAbs | libandroid-navigation/src/main/java/com/mapbox/services/android/navigation/v5/eh/geo/Bearing.java:58-60 | with abs the result is the magnitude of the signed difference, in [0, 180]; without it, the signed difference itself |
| Bearing.DiffSelf | libandroid-navigation/src/main/java/com/mapbox/services/android/navigation/v5/eh/geo/Bearing.java:45-48 | a bearing differs from itself by 0 |
| Config.ExpansionValueOfOrNull | libandroid-navigation/src/main/java/com/mapbox/services/android/navigation/v5/eh/HorizonExpansion.java:23-31 | LIMITED or FULL exactly when the upper-cased input spells that name; null for a null input or any other name |
| Config.Configuration.constructor | libandroid-navigation/src/main/java/com/mapbox/services/android/navigation/v5/eh/Configuration.java:8-11 | a new configuration has all three fields null |
| Config.Configuration.WithHorizonDistance | libandroid-navigation/src/main/java/com/mapbox/services/android/navigation/v5/eh/Configuration.java:17-20 | sets the distance, leaves the other fields, returns the same object |
| Config.Configuration.WithHorizonExpansion | libandroid-navigation/src/main/java/com/mapbox/services/android/navigation/v5/eh/Configuration.java:26-29 | sets the expansion (possibly null), leaves the other fields, returns the same object |
| Config.Configuration.WithUpdateFrequency | libandroid-navigation/src/main/java/com/mapbox/services/android/navigation/v5/eh/Configuration.java:35-38 | sets the frequency, leaves the other fields, returns the same object |
| Config.EqualsConsistent | libandroid-navigation/src/main/java/com/mapbox/services/android/navigation/v5/eh/Configuration.java:61-78 | equals is reflexive, symmetric and transitive, and equal configurations have equal hash codes |
| Config.Configuration.Equals | libandroid-navigation/src/main/java/com/mapbox/services/android/navigation/v5/eh/Configuration.java:61-73 | a configuration equals itself, and equal configurations hash alike whatever hash the JVM gives the expansion enum |
| Config.Configuration.HashCode | libandroid-navigation/src/main/java/com/mapbox/services/android/navigation/v5/eh/Configuration.java:75-78 | `Objects.hash` of the three fields: 31·(31·(31 + hash(distance)) + hash(expansion)) + hash(frequency), reduced to a Java int (equal modulo 2^32), a null field hashing to 0 |
| Cost.WeightedSumAppend | libandroid-navigation/src/main/java/com/mapbox/services/android/navigation/v5/eh/horizon/tracker/cost/CumulativeCostFunction.java:28-33 | the cost of two term lists joined is the sum of their costs |
| Cost.CumulativeCostFunction.constructor | libandroid-navigation/src/main/java/com/mapbox/services/android/navigation/v5/eh/horizon/tracker/cost/CumulativeCostFunction.java:26 | a new cost function has no terms (cost 0) |
| Cost.CumulativeCostFunction.WithCost | libandroid-navigation/src/main/java/com/mapbox/services/android/navigation/v5/eh/horizon/tracker/cost/CumulativeCostFunction.java:42-45 | appends one weighted term; the cost grows by weight times value; returns the same object |
| Cost.CumulativeCostFunction.With | libandroid-navigation/src/main/java/com/mapbox/services/android/navigation/v5/eh/horizon/tracker/cost/CumulativeCostFunction.java:53-56 | appends all terms of the other function (itself included when chained with itself); the cost grows by the other's cost |
| Geo.EmptyIffNoPoint | libandroid-navigation/src/main/java/com/mapbox/services/android/navigation/v5/eh/geo/BoundingBoxUtils.java:73-76 | a box is empty exactly when no point lies inside it |
| Geo.Contains | libandroid-navigation/src/main/java/com/mapbox/services/android/navigation/v5/eh/geo/BoundingBoxUtils.java:25-34 | false when the box or the point is null; containment is inclusive, so a non-empty box contains both its corners |
| Geo.IsEmpty | libandroid-navigation/src/main/java/com/mapbox/services/android/navigation/v5/eh/geo/BoundingBoxUtils.java:73-76 | a box that is not empty holds both its corners |
| Geo.Extend | libandroid-navigation/src/main/java/com/mapbox/services/android/navigation/v5/eh/geo/BoundingBoxUtils.java:43-52 | the result holds the point and everything the box held, stays non-empty, and is the smallest box holding the point and both corners |
| Geo.FromCoordinates | libandroid-navigation/src/main/java/com/mapbox/services/android/navigation/v5/eh/geo/BoundingBoxUtils.java:62-65 | the hull of two points holds both, is never empty, and is the smallest such box |
| Geo.ToPolygon | libandroid-navigation/src/main/java/com/mapbox/services/android/navigation/v5/eh/geo/BoundingBoxUtils.java:84-94 | exactly one closed ring of five points: the north-east corner, (east, south), the south-west corner, (west, north) and the north-east corner again; consecutive points share a side, and for a non-empty box every point lies inside it |
| Http.FromStatus | libandroid-navigation/src/main/java/com/mapbox/services/android/navigation/v5/eh/storage/AsyncHttpRequest.java:34-53 | 304 is no content without error; 404, 429 and 5xx map to NotFound, RateLimit and Server; any other non-2xx is Other; 2xx and 304 carry no error; a status never gives Connection |
| Http.FromException | libandroid-navigation/src/main/java/com/mapbox/services/android/navigation/v5/eh/storage/AsyncHttpRequest.java:55-57 | a transport failure is a Connection error with content |
| Util.Wrap32 | libandroid-navigation/src/main/java/com/mapbox/services/android/navigation/v5/eh/geo/CanonicalTileID.java:122-127 | Java int arithmetic: the result is congruent to the exact value modulo 2^32 and equals it when it fits |
| Util.JavaRem | libandroid-navigation/src/main/java/com/mapbox/services/android/navigation/v5/eh/geo/Bearing.java:46 | Java's remainder on doubles: its sign follows the dividend and its magnitude is below the divisor |
| Util.FirstMaxIndex | libandroid-navigation/src/main/java/com/mapbox/services/android/navigation/v5/eh/horizon/tracker/EHorizonTracker.java:361 | the element Stream.max picks: a maximal element, and no earlier element is as large |
| Util.FirstMinIndex | libandroid-navigation/src/main/java/com/mapbox/services/android/navigation/v5/eh/horizon/tracker/EHorizonTracker.java:360 | the element Stream.min picks: a minimal element, and no earlier element is as small |
| Tiles.CanonicalTileID.HashCode | libandroid-navigation/src/main/java/com/mapbox/services/android/navigation/v5/eh/geo/CanonicalTileID.java:121-127 | the hash is 31·(31·z + x) + y reduced to a Java int |
| Tiles.CanonicalOfAsWrittenOverflows | libandroid-navigation/src/main/java/com/mapbox/services/android/navigation/v5/eh/geo/CanonicalTileID.java:34-44 | as written, the unwrapped tile (1, Integer.MIN_VALUE, 0) becomes canonical x = 2, outside [0, 2) |
| Tiles.CanonicalOf | libandroid-navigation/src/main/java/com/mapbox/services/android/navigation/v5/eh/geo/CanonicalTileID.java:34-44 | x is reduced modulo 2^z into [0, 2^z) (kept when already there), y is clamped to [0, 2^z - 1], z is kept |
| Tiles.CanonicalOfAgrees | libandroid-navigation/src/main/java/com/mapbox/services/android/navigation/v5/eh/geo/CanonicalTileID.java:34-44 | where no intermediate overflows (x >= Integer.MIN_VALUE + 2^z - 1), the code as written computes the intended floor modulo |
| Tiles.CanonicalOfAsWritten | libandroid-navigation/src/main/java/com/mapbox/services/android/navigation/v5/eh/geo/CanonicalTileID.java:34-44 | as written, the zoom is kept and y is clamped to [0, 2^z - 1]; even where the 32-bit arithmetic overflows, x stays congruent to the unwrapped x modulo 2^z |
| Tiles.WrapColumnCongruent | libandroid-navigation/src/main/java/com/mapbox/services/android/navigation/v5/eh/geo/CanonicalTileID.java:35-43 | each step of the column wrap is exact modulo 2^32, a multiple of 2^z, so the wrapped column is congruent to x modulo 2^z |
| Tiles.UnwrappedTileID.ToCanonical | libandroid-navigation/src/main/java/com/mapbox/services/android/navigation/v5/eh/geo/UnwrappedTileID.java:110-112 | the canonical tile is the one the code as written builds wherever that code does not overflow (zoom 0..30, x >= Integer.MIN_VALUE + 2^z - 1) |
| Tiles.UnwrappedOfPoint | libandroid-navigation/src/main/java/com/mapbox/services/android/navigation/v5/eh/geo/UnwrappedTileID.java:35-63 | the projected column and row are clamped into [0, 2^zoom): kept when inside, 0 below, 2^zoom - 1 above |
| Tiles.Cover | libandroid-navigation/src/main/java/com/mapbox/services/android/navigation/v5/eh/geo/TileCover.java:26-50 | returns exactly the canonical tiles of the scan-lines between the corner tiles, or none after the early returns |
| Tiles.ScanLines | libandroid-navigation/src/main/java/com/mapbox/services/android/navigation/v5/eh/geo/TileCover.java:43-47 | the two nested loops collect exactly the tiles of the x by y rectangle |
| Tiles.ScanColumn | libandroid-navigation/src/main/java/com/mapbox/services/android/navigation/v5/eh/geo/TileCover.java:44-46 | the inner loop collects exactly one column of tiles |
| Tiles.CoverTilesInWorld | libandroid-navigation/src/main/java/com/mapbox/services/android/navigation/v5/eh/geo/TileCover.java:26-50 | every covering tile has the requested zoom and lies inside the world at that zoom |
| Tiles.CoverEmptyCases | libandroid-navigation/src/main/java/com/mapbox/services/android/navigation/v5/eh/geo/TileCover.java:29-33 | an empty box, a box north of 85.0511 or one whose west edge is below -85.0511 has no tiles |
| Tiles.CoverHasCorners | libandroid-navigation/src/main/java/com/mapbox/services/android/navigation/v5/eh/geo/TileCover.java:35-47 | when the scan ranges are non-empty, both corner tiles are in the cover |
| Osm.WayType.Order | libandroid-navigation/src/main/java/com/mapbox/services/android/navigation/v5/eh/osm/WayType.java:13-33 | every way type ranks between 1 and 10; 1 is exactly the motorway and 10 exactly the unknown type |
| Osm.WayType.OneWayImplied | libandroid-navigation/src/main/java/com/mapbox/services/android/navigation/v5/eh/osm/WayType.java:13-23 | only MOTORWAY and MOTORWAY_LINK imply a one-way road |
| Osm.LinkOrder | libandroid-navigation/src/main/java/com/mapbox/services/android/navigation/v5/eh/osm/WayType.java:22-27 | each link type ranks exactly one below its main class |
| Osm.ValueOfOptional | libandroid-navigation/src/main/java/com/mapbox/services/android/navigation/v5/eh/osm/WayType.java:77-85 | the way type whose name equals the upper-cased input, and nothing for null or any other string |
| Osm.IsRelevant | libandroid-navigation/src/main/java/com/mapbox/services/android/navigation/v5/eh/osm/WayType.java:55-57 | true exactly when the upper-cased input names a way type |
| Osm.WayImpliesOneWay | libandroid-navigation/src/main/java/com/mapbox/services/android/navigation/v5/eh/osm/WayType.java:65-69 | true exactly for "motorway" and "motorway_link" in any letter case; false for null and unknown names |
| Osm.JunctionImpliesOneWay | libandroid-navigation/src/main/java/com/mapbox/services/android/navigation/v5/eh/osm/JunctionType.java:23-31 | true exactly for "roundabout" in any letter case; false for null and anything else |
| Edges.ReversedTwice | libandroid-navigation/src/main/java/com/mapbox/services/android/navigation/v5/eh/horizon/Edge.java:206-209 | reversing the point list twice gives it back |
| Edges.Oriented | libandroid-navigation/src/main/java/com/mapbox/services/android/navigation/v5/eh/horizon/Edge.java:204-210 | the points are kept for a forward edge and reversed, position by position, for an inverse one |
| Edges.LongHash | libandroid-navigation/src/main/java/com/mapbox/services/android/navigation/v5/eh/horizon/Edge.java:184-186 | Long.hashCode folds the high half into the low half, so a non-negative id that fits an int hashes to itself |
| Edges.Edge.constructor | libandroid-navigation/src/main/java/com/mapbox/services/android/navigation/v5/eh/horizon/Edge.java:80-92 | an edge holds the given identity fields and bounds, speed 0, no way type and no centre line; the length is not checked |
| Edges.Edge.Build | libandroid-navigation/src/main/java/com/mapbox/services/android/navigation/v5/eh/horizon/Edge.java:94-106 | an edge built from a builder holds exactly the builder's fields |
| Edges.Edge.NewBuilder | libandroid-navigation/src/main/java/com/mapbox/services/android/navigation/v5/eh/horizon/Edge.java:277-294 | the builder copies every field; a missing centre line or missing bounds raises NullPointerException |
| Edges.Edge.SetBounds | libandroid-navigation/src/main/java/com/mapbox/services/android/navigation/v5/eh/horizon/Edge.java:155-157 | replaces the bounds and nothing else |
| Edges.Edge.GetOsmWayType | libandroid-navigation/src/main/java/com/mapbox/services/android/navigation/v5/eh/horizon/Edge.java:262-264 | the copied way type, or UNKNOWN when none was copied |
| Edges.Edge.SetDrivablePath | libandroid-navigation/src/main/java/com/mapbox/services/android/navigation/v5/eh/horizon/Edge.java:201-222 | a path's points become the centre line, reversed for an inverse edge, and its speed and way type are copied; a null path clears them with speed -1; the bounds are kept |
| Edges.EqualsConsistent | libandroid-navigation/src/main/java/com/mapbox/services/android/navigation/v5/eh/horizon/Edge.java:170-186 | edge equality (same id) is an equivalence, and equal edges have equal hash codes |
| Edges.Edge.Contains | libandroid-navigation/src/main/java/com/mapbox/services/android/navigation/v5/eh/horizon/Edge.java:165-167 | false without bounds or without a point; a non-empty bounds contains its own south-west corner |
| Edges.Edge.Equals | libandroid-navigation/src/main/java/com/mapbox/services/android/navigation/v5/eh/horizon/Edge.java:170-181 | an edge equals itself, and equal edges have the same hash code |
| Edges.Edge.HashCode | libandroid-navigation/src/main/java/com/mapbox/services/android/navigation/v5/eh/horizon/Edge.java:184-186 | `Objects.hash(id)`: 31 + Long.hashCode(id), reduced to a Java int, so it depends on the id alone |
| Edges.Edge.HasCenterLine | libandroid-navigation/src/main/java/com/mapbox/services/android/navigation/v5/eh/horizon/Edge.java:241-243 | true exactly when a centre line is present |
| Edges.Copy | libandroid-navigation/src/main/java/com/mapbox/services/android/navigation/v5/eh/horizon/Edge.java:277-294 | copying through a builder gives a new edge with every field equal, or raises when the centre line or bounds are missing |
| Osm.JunctionType.OneWayImplied | libandroid-navigation/src/main/java/com/mapbox/services/android/navigation/v5/eh/osm/JunctionType.java:8-38 | ROUNDABOUT is the one junction type and it implies one-way traffic |
| Networks.Remap | libandroid-navigation/src/main/java/com/mapbox/services/android/navigation/v5/eh/horizon/graph/Graph.java:59-67 | a missing inbound end becomes -out-1; a missing outbound end becomes -in-1 of the (possibly remapped) inbound end; present ends are kept |
| Networks.RemapKeepsEndsApart | libandroid-navigation/src/main/java/com/mapbox/services/android/navigation/v5/eh/horizon/graph/Graph.java:54-67 | an edge whose raw ends differ never becomes a self-loop after remapping, so only the raw check at 54 discards edges |
| Networks.RemovalEndpoints | libandroid-navigation/src/main/java/com/mapbox/services/android/navigation/v5/eh/horizon/graph/Graph.java:96-111 | removing an arc and then each of its ends that no remaining arc touches leaves exactly the ends of the remaining arcs as the node set |
| Networks.EndpointsAdd | libandroid-navigation/src/main/java/com/mapbox/services/android/navigation/v5/eh/horizon/graph/Graph.java:83-84 | adding an arc under a new id adds exactly its two ends to the node set |
| Graphs.Graph.constructor | libandroid-navigation/src/main/java/com/mapbox/services/android/navigation/v5/eh/horizon/graph/Graph.java:37-43 | a new graph has no edges, no nodes and an empty id map |
| Graphs.Graph.AddEdge | libandroid-navigation/src/main/java/com/mapbox/services/android/navigation/v5/eh/horizon/graph/Graph.java:50-88 | equal raw ends are discarded; a new id is added between the remapped ends and recorded in the id map, its ends joining the nodes; the same id between the same ends changes nothing; the same id between other ends raises IllegalArgumentException and changes nothing; the graph stays valid |
| Graphs.Graph.RemoveEdge | libandroid-navigation/src/main/java/com/mapbox/services/android/navigation/v5/eh/horizon/graph/Graph.java:96-111 | an absent edge raises IllegalArgumentException and changes nothing; otherwise its id leaves the network and the id map, and of its two ends exactly those no remaining arc touches leave the nodes |
| Graphs.Graph.HasArcAt | libandroid-navigation/src/main/java/com/mapbox/services/android/navigation/v5/eh/horizon/graph/Graph.java:102-107 | a node has positive in- or out-degree exactly when some arc starts or ends at it |
| Graphs.Graph.GetEdge | libandroid-navigation/src/main/java/com/mapbox/services/android/navigation/v5/eh/horizon/graph/Graph.java:282-284 | an edge is returned exactly when the id is in the graph, and it is the graph's edge with that id |
| Graphs.Graph.GetOutEdges | libandroid-navigation/src/main/java/com/mapbox/services/android/navigation/v5/eh/horizon/graph/Graph.java:213-221 | an unknown edge yields the empty set; otherwise the result holds exactly the edges leaving the node the edge arrives at |
| Graphs.Graph.GetOutEdgesAtMaxDistanceFromEdge | libandroid-navigation/src/main/java/com/mapbox/services/android/navigation/v5/eh/horizon/graph/Graph.java:128-186 | a non-positive distance explores nothing; an unknown start edge that ends short of the limit raises; otherwise the result is the set of explored edges, explored breadth-first from the start edge, ids distinct, never onto the positive counterpart of an explored edge, each later edge queued by an earlier one ending short of the limit, and every edge leaving an explored edge that ends short of the limit is explored or excluded |
| Graphs.Graph.Queue | libandroid-navigation/src/main/java/com/mapbox/services/android/navigation/v5/eh/horizon/graph/Graph.java:171-180 | an edge ending at or beyond the limit queues nothing; otherwise the graph raises for an unknown edge, and queues exactly the unexcluded edges leaving its end |
| Graphs.Graph.Explore | libandroid-navigation/src/main/java/com/mapbox/services/android/navigation/v5/eh/horizon/graph/Graph.java:150-182 | exploring the head of the frontier excludes its id and positive counterpart and keeps the search state of the loop |
| Graphs.Graph.GetOutEdgesAtMaxDistanceFromEdgeId | libandroid-navigation/src/main/java/com/mapbox/services/android/navigation/v5/eh/horizon/graph/Graph.java:198-207 | an unknown id or a non-positive distance yields the empty set; otherwise the result holds the edge with the id and only edges of the graph; it never raises |
| Graphs.Graph.Reached | libandroid-navigation/src/main/java/com/mapbox/services/android/navigation/v5/eh/horizon/graph/Graph.java:175-182 | every edge the search explores after the start edge is an edge of the graph |
| Graphs.Graph.Match | libandroid-navigation/src/main/java/com/mapbox/services/android/navigation/v5/eh/horizon/graph/Graph.java:240-246 | the result holds exactly the graph's edges whose bounds contain the point |
| Graphs.Graph.GetConnectedEdges | libandroid-navigation/src/main/java/com/mapbox/services/android/navigation/v5/eh/horizon/graph/Graph.java:229-231 | an unknown node raises IllegalArgumentException; otherwise the result holds exactly the graph's edges starting or ending at the node |
| Graphs.Graph.Centred | libandroid-navigation/src/main/java/com/mapbox/services/android/navigation/v5/eh/horizon/graph/Graph.java:259 | the result holds exactly the graph's edges that have a centre line |
| Graphs.Graph.WeightedMatch | libandroid-navigation/src/main/java/com/mapbox/services/android/navigation/v5/eh/horizon/graph/Graph.java:255-269 | a negative limit raises IllegalArgumentException; otherwise min(limit, number of edges with a centre line) results, nearest first, distinct edges with centre lines each paired with its distance to the point, and no left-out edge nearer than any listed one |
| Graphs.Graph.AddDrivablePaths | libandroid-navigation/src/main/java/com/mapbox/services/android/navigation/v5/eh/horizon/graph/Graph.java:292-300 | every edge some path lists carries the last path listing it; the others keep their fields; bounds never change |
| Graphs.Graph.ApplyPath | libandroid-navigation/src/main/java/com/mapbox/services/android/navigation/v5/eh/horizon/graph/Graph.java:294-298 | every edge of the graph the path lists carries the path; the others keep their fields |
| Graphs.LastPathWith | libandroid-navigation/src/main/java/com/mapbox/services/android/navigation/v5/eh/horizon/graph/Graph.java:292-300 | the index of the last path listing the id, and no later path lists it; none when no path lists it |
| Search.ExcludedIds | libandroid-navigation/src/main/java/com/mapbox/services/android/navigation/v5/eh/horizon/graph/Graph.java:156-161 | the excluded ids contain every explored id and every positive counterpart of an explored edge |
| Search.SearchDone | libandroid-navigation/src/main/java/com/mapbox/services/android/navigation/v5/eh/horizon/graph/Graph.java:145-185 | once the frontier is empty, the explored order meets the whole contract of the search |
| Search.OrderBounded | libandroid-navigation/src/main/java/com/mapbox/services/android/navigation/v5/eh/horizon/graph/Graph.java:145-183 | the search explores at most as many edges as there are ids in the graph plus the start edge, so it ends |
| Search.SkipPreserves | libandroid-navigation/src/main/java/com/mapbox/services/android/navigation/v5/eh/horizon/graph/Graph.java:150-153 | dropping a frontier edge whose id is excluded keeps the search state |
| Search.VisitOrder | libandroid-navigation/src/main/java/com/mapbox/services/android/navigation/v5/eh/horizon/graph/Graph.java:156-167 | exploring an unexcluded head extends the exploration order, which keeps its distinctness and parent properties, and the excluded ids |
| Search.VisitFrontier | libandroid-navigation/src/main/java/com/mapbox/services/android/navigation/v5/eh/horizon/graph/Graph.java:163-182 | queueing the unexcluded successors of the explored head keeps every frontier edge queued by an explored one, and keeps every successor of an explored edge covered |
| Horizon.EHorizon.Current | libandroid-navigation/src/main/java/com/mapbox/services/android/navigation/v5/eh/horizon/EHorizon.java:100-102 | the current edge is the edge of the start segment |
| Horizon.MaxChild | libandroid-navigation/src/main/java/com/mapbox/services/android/navigation/v5/eh/horizon/EHorizon.java:121-125 | the child picked has the greatest probability among the children, and no earlier child has as great a one (the first on ties, as `Stream.max` keeps) |
| Horizon.Chain | libandroid-navigation/src/main/java/com/mapbox/services/android/navigation/v5/eh/horizon/EHorizon.java:114-130 | the chain of segments the walk visits starts at the start segment |
| Horizon.ChainShape | libandroid-navigation/src/main/java/com/mapbox/services/android/navigation/v5/eh/horizon/EHorizon.java:117-126 | the walk ends at the first segment without children, and each later segment is the most probable child of the one before it |
| Horizon.ChainStep | libandroid-navigation/src/main/java/com/mapbox/services/android/navigation/v5/eh/horizon/EHorizon.java:118-126 | one step of the walk: the segment's edge, then the walk from its most probable child; each step goes strictly lower in the tree, so the walk ends |
| Horizon.MostProbablePath | libandroid-navigation/src/main/java/com/mapbox/services/android/navigation/v5/eh/horizon/EHorizon.java:114-130 | the loop returns the edges of the chain, in order: the start edge, then each step into the child of highest probability, until a segment without children |
| Matching.ThresholdsAreStrict | libandroid-navigation/src/main/java/com/mapbox/services/android/navigation/v5/eh/horizon/tracker/match/BaseMatch.java:17-20 | a match needs a distance strictly under 10 m and a bearing offset strictly under 30 degrees |
| Matching.WithinThresholds | libandroid-navigation/src/main/java/com/mapbox/services/android/navigation/v5/eh/horizon/tracker/match/BaseMatch.java:17-20 | true exactly when the distance is under 10 m and the bearing offset under 30 degrees, both strictly |
| Matching.IsPassed | libandroid-navigation/src/main/java/com/mapbox/services/android/navigation/v5/eh/horizon/tracker/match/BaseMatch.java:22-24 | a passed projection sits at t = 1 on the last segment of the centre line |
| Matching.Matches | libandroid-navigation/src/main/java/com/mapbox/services/android/navigation/v5/eh/horizon/tracker/match/EdgeAndLocationMatch.java:56-58 | a match matches exactly when it is within both thresholds and not passed |
| Matching.SegmentBearing | libandroid-navigation/src/main/java/com/mapbox/services/android/navigation/v5/eh/horizon/tracker/match/EdgeAndLocationMatch.java:38-40 | the bearing of the projection's segment; an index that names no segment of the line raises IndexOutOfBoundsException |
| Matching.ForEdgeAndLocation | libandroid-navigation/src/main/java/com/mapbox/services/android/navigation/v5/eh/horizon/tracker/match/EdgeAndLocationMatch.java:24-53 | a null centre line, a bad segment index or a null previous position raises; otherwise the projection, its distance, the absolute bearing offset (in [0, 180]) against the direction of travel, and the cost 10 x (other edge) + 0.5 x offset + 1 x distance |
| Matching.ForLocation | libandroid-navigation/src/main/java/com/mapbox/services/android/navigation/v5/eh/horizon/tracker/match/LocationHistoryMatch.java:22-45 | a null centre line or bad segment index raises; otherwise the projection, its distance, the absolute offset against the reference bearing, and the cost 0.5 x the segment's own bearing + 1 x distance |
| Matching.StayingIsCheaper | libandroid-navigation/src/main/java/com/mapbox/services/android/navigation/v5/eh/horizon/tracker/match/EdgeAndLocationMatch.java:49-52 | with equal distance and offset, staying on the previous edge costs exactly 10 less than moving to another edge |
| Matching.Cheapest | libandroid-navigation/src/main/java/com/mapbox/services/android/navigation/v5/eh/horizon/tracker/EHorizonTracker.java:149-152 | none exactly when no candidate matches; otherwise a matching candidate whose cost is at most every matching candidate's, and strictly less than those before it, so the first of the cheapest |
| Candidates.Unturned | libandroid-navigation/src/main/java/com/mapbox/services/android/navigation/v5/eh/horizon/tracker/EHorizonTracker.java:138-142 | the listed out edges minus the U-turn onto the current edge's counterpart, nothing else |
| Candidates.EdgeMatches | libandroid-navigation/src/main/java/com/mapbox/services/android/navigation/v5/eh/horizon/tracker/EHorizonTracker.java:144-146 | one continuation candidate per listed edge, in order; raises exactly when some candidate cannot be computed |
| Candidates.LocationMatches | libandroid-navigation/src/main/java/com/mapbox/services/android/navigation/v5/eh/horizon/tracker/EHorizonTracker.java:186-190 | one relocation candidate per ranked edge, in order; raises exactly when some candidate cannot be computed |
| Candidates.Continuations | libandroid-navigation/src/main/java/com/mapbox/services/android/navigation/v5/eh/horizon/tracker/EHorizonTracker.java:138-147 | raises exactly when the candidate of some unturned out edge or of the current edge cannot be computed; otherwise one candidate per unturned out edge, in order, then the candidate for staying on the current edge |
| Candidates.UnturnedMatched | libandroid-navigation/src/main/java/com/mapbox/services/android/navigation/v5/eh/horizon/tracker/EHorizonTracker.java:138-146 | the candidates of the unturned edges are one per unturned edge, in order, each computed for its own edge |
| Ranking.Insert | libandroid-navigation/src/main/java/com/mapbox/services/android/navigation/v5/eh/horizon/graph/Graph.java:266 | inserting into an ascending list keeps it ascending and adds exactly the one result |
| Ranking.SortByDistance | libandroid-navigation/src/main/java/com/mapbox/services/android/navigation/v5/eh/horizon/graph/Graph.java:266 | the results sorted: ascending by distance and a permutation of the input |
| Ranking.Rank | libandroid-navigation/src/main/java/com/mapbox/services/android/navigation/v5/eh/horizon/graph/Graph.java:255-269 | a negative limit raises; otherwise min(limit, count) results, ascending, each an edge with its own centre-line distance, no edge twice, no left-out edge nearer than any listed one |
| Ranking.Measure | libandroid-navigation/src/main/java/com/mapbox/services/android/navigation/v5/eh/horizon/graph/Graph.java:260-265 | each listed edge paired with the distance from the point to its centre line, in order |
| Ranking.NothingNearerLeftOut | libandroid-navigation/src/main/java/com/mapbox/services/android/navigation/v5/eh/horizon/graph/Graph.java:266-267 | after sorting and cutting to the first n, every left-out edge is at least as far as each kept one |
| Ranking.MeasuredDistinct | libandroid-navigation/src/main/java/com/mapbox/services/android/navigation/v5/eh/horizon/graph/Graph.java:256-266 | sorting the results of distinct edges lists no edge twice |
| Transition.ShiftToPositiveRange | libandroid-navigation/src/main/java/com/mapbox/services/android/navigation/v5/eh/horizon/tracker/EHorizonTracker.java:329-339 | fewer than two costs come back unchanged; otherwise every cost moves by the same amount, max(1, 1 - min), so each ends at least 1 |
| Transition.NormalizedProbabilities | libandroid-navigation/src/main/java/com/mapbox/services/android/navigation/v5/eh/horizon/tracker/EHorizonTracker.java:347-377 | as many probabilities as costs; one cost gives certainty; equal costs a uniform distribution; for any costs a distribution in (0, 1] summing to 1, with probability times positive cost the same for every cost |
| Transition.AllEqualIffMinIsMax | libandroid-navigation/src/main/java/com/mapbox/services/android/navigation/v5/eh/horizon/tracker/EHorizonTracker.java:360-362 | the minimum equals the maximum exactly when all costs are equal |
| Transition.InverseShares | libandroid-navigation/src/main/java/com/mapbox/services/android/navigation/v5/eh/horizon/tracker/EHorizonTracker.java:367-376 | the inverse costs divided by their sum form a distribution inversely proportional to the positive costs |
| Transition.SharesSumToOne | libandroid-navigation/src/main/java/com/mapbox/services/android/navigation/v5/eh/horizon/tracker/EHorizonTracker.java:372-376 | shares of a positive total sum to 1 |
| Transition.InverseProportional | libandroid-navigation/src/main/java/com/mapbox/services/android/navigation/v5/eh/horizon/tracker/EHorizonTracker.java:367-376 | each share times its positive cost is 1 over the total, so the same for all |
| Transition.BearingDiff | libandroid-navigation/src/main/java/com/mapbox/services/android/navigation/v5/eh/horizon/tracker/EHorizonTracker.java:464-475 | a null centre line or one with fewer than two points raises; otherwise the difference from the bearing of the incoming line's last segment to that of the outgoing line's first segment, in [0, 180] when absolute |
| Transition.WayContinuationCost | libandroid-navigation/src/main/java/com/mapbox/services/android/navigation/v5/eh/horizon/tracker/EHorizonTracker.java:431-433 | 0 exactly when the next edge stays on the OSM way and is not the counterpart, 1 otherwise |
| Transition.WayClassCost | libandroid-navigation/src/main/java/com/mapbox/services/android/navigation/v5/eh/horizon/tracker/EHorizonTracker.java:452-454 | the next road's class order minus the current road's |
| Transition.ServiceRoadsCost | libandroid-navigation/src/main/java/com/mapbox/services/android/navigation/v5/eh/horizon/tracker/EHorizonTracker.java:459-461 | 1 exactly when leaving a non-service road for a service road, 0 otherwise |
| Transition.TransitionCost | libandroid-navigation/src/main/java/com/mapbox/services/android/navigation/v5/eh/horizon/tracker/EHorizonTracker.java:387-425 | raises exactly when the absolute bearing change cannot be computed |
| Transition.TransitionCostFormula | libandroid-navigation/src/main/java/com/mapbox/services/android/navigation/v5/eh/horizon/tracker/EHorizonTracker.java:387-425 | the cost written out per class of the current road: motorway and trunk 1 + way + 4 service + 4 bearing/180 + 10 class; primary and secondary 1 + way + 4 service + 3 bearing/180 + 40 sharp + 4 class; otherwise the sharp turn weighs 15; sharp is bearing/90 above 120 degrees |
| Transition.StraightOnCostsOne | libandroid-navigation/src/main/java/com/mapbox/services/android/navigation/v5/eh/horizon/tracker/EHorizonTracker.java:387-425 | going straight on along the same way onto a road of the same class that is not a service road costs exactly 1 |
| Tracking.ClippedFields | libandroid-navigation/src/main/java/com/mapbox/services/android/navigation/v5/eh/horizon/tracker/EHorizonTracker.java:491-500 | the copy holds the centre line cut between the start and the nearer of the end and the edge's length, with its length measured along the cut line; every other field is the edge's own |
| Tracking.ChildFields | libandroid-navigation/src/main/java/com/mapbox/services/android/navigation/v5/eh/horizon/tracker/EHorizonTracker.java:263-265 | a null centre line or null bounds raise; otherwise the edge clipped to the metres left (or its own line when they cover it), length re-measured, other fields kept |
| Tracking.ChildFieldsOf | libandroid-navigation/src/main/java/com/mapbox/services/android/navigation/v5/eh/horizon/tracker/EHorizonTracker.java:256-265 | what each out edge becomes; each copy keeps the id and counterpart of its edge |
| Tracking.Clip | libandroid-navigation/src/main/java/com/mapbox/services/android/navigation/v5/eh/horizon/tracker/EHorizonTracker.java:485-501 | a range covering the whole edge gives the edge itself; otherwise a null centre line or bounds raise, or a fresh edge with the clipped fields |
| Tracking.Child | libandroid-navigation/src/main/java/com/mapbox/services/android/navigation/v5/eh/horizon/tracker/EHorizonTracker.java:263-269 | raises as the clipped copy does; otherwise a fresh copy with the child fields, kept exactly when longer than 1 m and with at least two points |
| Tracking.CostsOf | libandroid-navigation/src/main/java/com/mapbox/services/android/navigation/v5/eh/horizon/tracker/EHorizonTracker.java:302-305 | the transition costs of the children, in order; raises exactly when some cost cannot be computed |
| Tracking.AddNodes | libandroid-navigation/src/main/java/com/mapbox/services/android/navigation/v5/eh/horizon/tracker/EHorizonTracker.java:299-327 | raises exactly when some cost cannot be computed; otherwise one childless node per child, in order, with the signed bearing change onto it and the probabilities normalised from the shifted costs |
| Tracking.ShiftedNormalized | libandroid-navigation/src/main/java/com/mapbox/services/android/navigation/v5/eh/horizon/tracker/EHorizonTracker.java:310-312 | probabilities normalised from shifted costs of at least one child form a distribution |
| Tracking.MakeNodes | libandroid-navigation/src/main/java/com/mapbox/services/android/navigation/v5/eh/horizon/tracker/EHorizonTracker.java:317-326 | one childless node per child, in order, with its probability and signed bearing change |
| Tracking.CollectChildren | libandroid-navigation/src/main/java/com/mapbox/services/android/navigation/v5/eh/horizon/tracker/EHorizonTracker.java:256-270 | raises exactly when some filtered out edge cannot be copied; otherwise copies of exactly the offered out edges, each once |
| Tracking.CollectOne | libandroid-navigation/src/main/java/com/mapbox/services/android/navigation/v5/eh/horizon/tracker/EHorizonTracker.java:258-269 | one out edge: passed over when visited or the U-turn, raises when its copy cannot be made, joins the children when kept |
| Tracking.ChildrenOffered | libandroid-navigation/src/main/java/com/mapbox/services/android/navigation/v5/eh/horizon/tracker/EHorizonTracker.java:256-273 | the children's ids are exactly the ids of the offered out edges, distinct, each child keeping its edge's id and counterpart and longer than 1 m |
| Tracking.Sprouting | libandroid-navigation/src/main/java/com/mapbox/services/android/navigation/v5/eh/horizon/tracker/EHorizonTracker.java:273-276 | the nodes made of the children hang below the parent as continuations under distinct unvisited ids, with probabilities that form a distribution |
| Tracking.PickNext | libandroid-navigation/src/main/java/com/mapbox/services/android/navigation/v5/eh/horizon/tracker/EHorizonTracker.java:256-270 | taking the next listed out edge when offered and passing it over otherwise keeps the collected children exactly the offered ones so far |
| Tracking.ExpandedChild | libandroid-navigation/src/main/java/com/mapbox/services/android/navigation/v5/eh/horizon/tracker/EHorizonTracker.java:273-288 | expanding a childless child in place adds exactly the ids below the expansion to the visited ids, each once and none visited before |
| Tracking.AlignedAt | libandroid-navigation/src/main/java/com/mapbox/services/android/navigation/v5/eh/horizon/tracker/EHorizonTracker.java:279-288 | expanding the child at k in place keeps every child shaped and, without full expansion, only the most probable child expanded |
| Tracking.DoneExpanding | libandroid-navigation/src/main/java/com/mapbox/services/android/navigation/v5/eh/horizon/tracker/EHorizonTracker.java:279-290 | once every child had its turn, the segment is shaped as expand builds it and keeps its children's ids |
| Tracking.RootTree | libandroid-navigation/src/main/java/com/mapbox/services/android/navigation/v5/eh/horizon/tracker/EHorizonTracker.java:226-243 | a shaped tree whose ids were counted from the start edge's id has no edge id twice |
| Tracking.LeafTree | libandroid-navigation/src/main/java/com/mapbox/services/android/navigation/v5/eh/horizon/tracker/EHorizonTracker.java:241 | a single segment is a horizon tree |
| Tracking.Tracker.constructor | libandroid-navigation/src/main/java/com/mapbox/services/android/navigation/v5/eh/horizon/tracker/EHorizonTracker.java:39-52 | a new tracker has no graph, no previous position and no matched edge, a 400 m horizon and limited expansion |
| Tracking.Tracker.SetGraph | libandroid-navigation/src/main/java/com/mapbox/services/android/navigation/v5/eh/horizon/tracker/EHorizonTracker.java:97-99 | sets the graph and changes nothing else |
| Tracking.Tracker.SetFullGraphExpansion | libandroid-navigation/src/main/java/com/mapbox/services/android/navigation/v5/eh/horizon/tracker/EHorizonTracker.java:106-108 | sets full expansion and changes nothing else |
| Tracking.Tracker.SetHorizonDistance | libandroid-navigation/src/main/java/com/mapbox/services/android/navigation/v5/eh/horizon/tracker/EHorizonTracker.java:122-124 | sets the horizon distance and changes nothing else |
| Tracking.Tracker.Sprout | libandroid-navigation/src/main/java/com/mapbox/services/android/navigation/v5/eh/horizon/tracker/EHorizonTracker.java:256-276 | the children hung below the edge are sprouted continuations whose ids are exactly those of the offered out edges with the distance left, and the visited ids gain exactly them; each child carries the signed bearing change onto it, and the probabilities are those normalised from the shifted transition costs of the children; in a graph whose every edge has a centre line and bounds, starting from an edge with a directed centre line, it does not raise |
| Tracking.Tracker.Expand | libandroid-navigation/src/main/java/com/mapbox/services/android/navigation/v5/eh/horizon/tracker/EHorizonTracker.java:254-291 | the expanded segment keeps its edge, its children's ids are exactly the offered out edges, it is shaped (every child continues its parent, probabilities form a distribution, only the most probable child expanded without full expansion), every segment in it weighs its children by their transition costs and bearing changes, and the visited ids gain every id below it, each once and none visited before; in a graph whose every edge has a centre line and bounds, from an edge with a directed centre line, it does not raise |
| Tracking.Tracker.ExpandAt | libandroid-navigation/src/main/java/com/mapbox/services/android/navigation/v5/eh/horizon/tracker/EHorizonTracker.java:281-287 | expanding the child at k keeps the shape, the weights and the id bookkeeping; in a graph whose every edge has a centre line and bounds it does not raise |
| Tracking.Tracker.HorizonFrom | libandroid-navigation/src/main/java/com/mapbox/services/android/navigation/v5/eh/horizon/tracker/EHorizonTracker.java:226-243 | raises when the edge must be clipped and cannot be; does not raise when the graph's edges all have centre lines and bounds and the start edge clips to a directed centre line; a result starts at the clipped copy (or the edge itself when the range covers it) under the same id, has children only when shorter than the horizon distance, and is a horizon tree whose every segment weighs its children by their transition costs |
| Tracking.Tracker.Nearby | libandroid-navigation/src/main/java/com/mapbox/services/android/navigation/v5/eh/horizon/tracker/EHorizonTracker.java:182-194 | the ranked edges are as many of the graph's edges with a centre line as the match limit of 3 allows, nearest first, with no left-out one nearer than a ranked one, and the candidates are exactly their relocation matches against the bearing of the move, in that order |
| Tracking.Tracker.Adopt | libandroid-navigation/src/main/java/com/mapbox/services/android/navigation/v5/eh/horizon/tracker/EHorizonTracker.java:162-172 | the match's edge becomes the matched edge; a result is positive at the projected point with a horizon tree grown from that edge, weighted by transition costs; in a graph whose every edge has a centre line and bounds and with a start that clips to a directed centre line, it does not raise |
| Tracking.Pick | libandroid-navigation/src/main/java/com/mapbox/services/android/navigation/v5/eh/horizon/tracker/EHorizonTracker.java:149-152 | the pick is absent exactly when no candidate matches; otherwise it is a matching candidate of least cost, and no earlier matching candidate costs as little (the first on ties, as `Stream.min` keeps) |
| Tracking.Tracker.Relocate | libandroid-navigation/src/main/java/com/mapbox/services/android/navigation/v5/eh/horizon/tracker/EHorizonTracker.java:196-216 | a candidate that cannot be made raises; with a matching candidate the first of least cost becomes the matched edge and the result is positive with a weighted horizon tree from it (not raising in a graph with all centre lines and bounds); otherwise the raw position comes back with the matched edge unchanged |
| Tracking.WeightedKept | libandroid-navigation/src/main/java/com/mapbox/services/android/navigation/v5/eh/horizon/tracker/EHorizonTracker.java:87-88 | a weighted horizon tree stays weighted across any change of state that leaves its edges unchanged, such as the final write of the previous position |
| Tracking.Tracker.FromLocationHistory | libandroid-navigation/src/main/java/com/mapbox/services/android/navigation/v5/eh/horizon/tracker/EHorizonTracker.java:180-217 | the candidates are exactly the relocation matches of the ranked nearest edges; a candidate that cannot be made raises; when some candidate matches, the first matching one of least cost becomes the matched edge and the result is positive with a horizon tree from it (not raising in a graph with all centre lines and bounds); when none matches, the raw position comes back and the matched edge is unchanged |
| Tracking.Tracker.MatchPosition | libandroid-navigation/src/main/java/com/mapbox/services/android/navigation/v5/eh/horizon/tracker/EHorizonTracker.java:133-178 | with a matched edge, the candidates weighed are exactly the continuations over its out edges (each listed once) plus staying on it, and when one of them matches the first matching one of least cost is chosen; relocation happens exactly when there is no matched edge or no continuation matches, and then the candidates are exactly the relocation matches of the ranked nearest edges; a chosen candidate becomes the matched edge and gives a positive, weighted horizon tree |
| Tracking.Tracker.HorizonAt | libandroid-navigation/src/main/java/com/mapbox/services/android/navigation/v5/eh/horizon/tracker/EHorizonTracker.java:60-90 | a jump over 100 m forgets the history and the match and gives the raw position; no graph, no history or the same position object again give the raw position; otherwise the position is matched, with the candidates, the choice and the fallback to relocation exactly as for `match` with the ruler for the new latitude; unless matching raises, the new position becomes the previous one |
| VectorTiles.CommandId | libandroid-navigation/src/main/java/com/mapbox/services/android/navigation/v5/eh/vt/VectorTileParser.java:357-359 | the command id is the low three bits: in [0, 8) and congruent to the command modulo 8 |
| VectorTiles.CommandCount | libandroid-navigation/src/main/java/com/mapbox/services/android/navigation/v5/eh/vt/VectorTileParser.java:361-363 | the arithmetic shift by three: the command is eight times the count plus the id |
| VectorTiles.Command | libandroid-navigation/src/main/java/com/mapbox/services/android/navigation/v5/eh/vt/VectorTileParser.java:357-363 | a command built from an id and a count gives back that id and that count |
| VectorTiles.ZigZagEncode | libandroid-navigation/src/main/java/com/mapbox/services/android/navigation/v5/eh/vt/VectorTileParser.java:341-343 | the encoding of n is 2n for non-negative n and -2n-1 for negative n, modulo 2^32 |
| VectorTiles.ZigZagDecodeAsWritten | libandroid-navigation/src/main/java/com/mapbox/services/android/navigation/v5/eh/vt/VectorTileParser.java:341-343 | the decoding as written agrees with the intended one on every non-negative int |
| VectorTiles.ZigZagAsWrittenFails | libandroid-navigation/src/main/java/com/mapbox/services/android/navigation/v5/eh/vt/VectorTileParser.java:341-343 | the delta 2^30 encodes to an int with the sign bit set, which the arithmetic shift decodes as -2^30 |
| VectorTiles.ZigZagDecode | libandroid-navigation/src/main/java/com/mapbox/services/android/navigation/v5/eh/vt/VectorTileParser.java:341-343 | the intended decoding inverts the encoding: encoding the result gives the int back |
| VectorTiles.ZigZagRoundTrip | libandroid-navigation/src/main/java/com/mapbox/services/android/navigation/v5/eh/vt/VectorTileParser.java:341-343 | decoding the encoding of any int gives the int back |
| VectorTiles.ZigZagAsWrittenRoundTrip | libandroid-navigation/src/main/java/com/mapbox/services/android/navigation/v5/eh/vt/VectorTileParser.java:341-343 | the parser's decoding inverts the encoding for every int in [-2^30, 2^30), whose encoding is non-negative |
| VectorTiles.Moved | libandroid-navigation/src/main/java/com/mapbox/services/android/navigation/v5/eh/vt/VectorTileParser.java:333-339 | the cursor moves by the two deltas decoded as the parser writes the decoding, which agrees with the intended decoding for non-negative parameter integers |
| VectorTiles.DecodedFlipsFarMove | libandroid-navigation/src/main/java/com/mapbox/services/android/navigation/v5/eh/vt/VectorTileParser.java:91-123 | a MoveTo of 2^30 tile units to the right is decoded as a point 2^30 units to the left |
| VectorTiles.DecodeGeometry | libandroid-navigation/src/main/java/com/mapbox/services/android/navigation/v5/eh/vt/VectorTileParser.java:91-123 | the geometry loops compute the decoded points: a MoveTo of one point starts a ring, LineTo runs add points, a ClosePath returns to the outer loop, a MoveTo count other than 1 or a missing ClosePath drops the feature, and running out of integers ends with the points so far |
| VectorTiles.RingDecoded | libandroid-navigation/src/main/java/com/mapbox/services/android/navigation/v5/eh/vt/VectorTileParser.java:91-123 | decoding the geometry of one ring, written as the tile format writes it, gives back its points whenever every step between points lies in [-2^30, 2^30), the range where the parser's decoding is right |
| VectorTiles.RingOpens | libandroid-navigation/src/main/java/com/mapbox/services/android/navigation/v5/eh/vt/VectorTileParser.java:96-106 | for steps in [-2^30, 2^30), decoding a ring takes its first point and reaches the LineTo run at the fifth integer |
| VectorTiles.GeometryOpens | libandroid-navigation/src/main/java/com/mapbox/services/android/navigation/v5/eh/vt/VectorTileParser.java:96-106 | a MoveTo of one point followed by a LineTo starts decoding with that point |
| VectorTiles.RunDecoded | libandroid-navigation/src/main/java/com/mapbox/services/android/navigation/v5/eh/vt/VectorTileParser.java:107-119 | a LineTo run over the deltas of some points with steps in [-2^30, 2^30), closed by a ClosePath at the end, adds exactly those points |
| VectorTiles.EdgeTag | libandroid-navigation/src/main/java/com/mapbox/services/android/navigation/v5/eh/vt/VectorTileParser.java:254-293 | each known key sets its own field from the value's getter; every other key changes nothing |
| VectorTiles.EdgeTagsFrom | libandroid-navigation/src/main/java/com/mapbox/services/android/navigation/v5/eh/vt/VectorTileParser.java:249-294 | the tag loop completes exactly when every pair is whole and its indices are in range; otherwise it raises IndexOutOfBoundsException |
| VectorTiles.EdgeTagsLast | libandroid-navigation/src/main/java/com/mapbox/services/android/navigation/v5/eh/vt/VectorTileParser.java:249-294 | a completed loop leaves each field at the value of the last pair with its key, or at its default |
| VectorTiles.ReadEdgeTags | libandroid-navigation/src/main/java/com/mapbox/services/android/navigation/v5/eh/vt/VectorTileParser.java:239-294 | the while loop computes the tag loop from the defaults: the feature id, no end nodes, length, counterpart and way -1 |
| VectorTiles.Pieces | libandroid-navigation/src/main/java/com/mapbox/services/android/navigation/v5/eh/vt/VectorTileParser.java:150 | one more piece than colons, none holding a colon |
| VectorTiles.JoinedPieces | libandroid-navigation/src/main/java/com/mapbox/services/android/navigation/v5/eh/vt/VectorTileParser.java:150 | joining the pieces with colons gives the string back |
| VectorTiles.WithoutTrailingEmpty | libandroid-navigation/src/main/java/com/mapbox/services/android/navigation/v5/eh/vt/VectorTileParser.java:150 | a prefix of the parts ending in a non-empty part, only empty parts removed |
| VectorTiles.SplitColon | libandroid-navigation/src/main/java/com/mapbox/services/android/navigation/v5/eh/vt/VectorTileParser.java:150 | a string without a colon comes back whole; otherwise a prefix of its pieces with trailing empty ones removed |
| VectorTiles.ParseLong | libandroid-navigation/src/main/java/com/mapbox/services/android/navigation/v5/eh/vt/VectorTileParser.java:153 | raises NumberFormatException unless the string is an optional sign followed by decimal digits |
| VectorTiles.Digits | libandroid-navigation/src/main/java/com/mapbox/services/android/navigation/v5/eh/vt/VectorTileParser.java:153 | the decimal digits of a number spell that number |
| VectorTiles.ParseDecimal | libandroid-navigation/src/main/java/com/mapbox/services/android/navigation/v5/eh/vt/VectorTileParser.java:153 | parsing the decimal form of any long gives it back |
| VectorTiles.ParsedIds | libandroid-navigation/src/main/java/com/mapbox/services/android/navigation/v5/eh/vt/VectorTileParser.java:151-154 | raises NumberFormatException exactly when some part does not parse; otherwise one id per part, in order |
| VectorTiles.ParsedStops | libandroid-navigation/src/main/java/com/mapbox/services/android/navigation/v5/eh/vt/VectorTileParser.java:152-154 | a part that does not parse makes the whole list raise |
| VectorTiles.ParsedAll | libandroid-navigation/src/main/java/com/mapbox/services/android/navigation/v5/eh/vt/VectorTileParser.java:152-154 | parts that all parse give the list of their values |
| VectorTiles.ReadEdgeIds | libandroid-navigation/src/main/java/com/mapbox/services/android/navigation/v5/eh/vt/VectorTileParser.java:144-156 | an int value gives one id; otherwise the loop computes the parsed ids of the split string |
| VectorTiles.PathTag | libandroid-navigation/src/main/java/com/mapbox/services/android/navigation/v5/eh/vt/VectorTileParser.java:140-180 | each known key sets its own field; edge_ids raises exactly when its value does not parse; maxspeed is narrowed with toIntExact; other keys change nothing |
| VectorTiles.PathTagsFrom | libandroid-navigation/src/main/java/com/mapbox/services/android/navigation/v5/eh/vt/VectorTileParser.java:135-181 | a completed loop had every pair whole with indices in range |
| VectorTiles.PathTagsLast | libandroid-navigation/src/main/java/com/mapbox/services/android/navigation/v5/eh/vt/VectorTileParser.java:135-181 | a completed loop leaves each field at the value of the last pair with its key, or null |
| VectorTiles.ReadPathTags | libandroid-navigation/src/main/java/com/mapbox/services/android/navigation/v5/eh/vt/VectorTileParser.java:125-181 | the while loop computes the tag loop from the feature id and nulls |
| VectorTiles.Projected | libandroid-navigation/src/main/java/com/mapbox/services/android/navigation/v5/eh/vt/VectorTileParser.java:316-325 | each decoded point projected to longitude and latitude, in order |
| VectorTiles.PathOf | libandroid-navigation/src/main/java/com/mapbox/services/android/navigation/v5/eh/vt/VectorTileParser.java:90-200 | a dropped geometry or no edge_ids gives nothing; tags that raise make the feature raise with the same fault; a missing osm_way_id or maxspeed raises on unboxing; with all three present a path comes back, carrying the tags' id, edge ids, way id, speed, name and way type, and the projected points |
| VectorTiles.EdgeOf | libandroid-navigation/src/main/java/com/mapbox/services/android/navigation/v5/eh/vt/VectorTileParser.java:203-312 | a dropped geometry gives nothing; tags that raise make the feature raise with the same fault; fewer than four points raise; good tags with four or more points give an edge carrying the tags' fields, with the fourth and second points as the corners of its bounds |
| VectorTiles.WithEdge | libandroid-navigation/src/main/java/com/mapbox/services/android/navigation/v5/eh/vt/VectorTileParser.java:309-311 | an edge whose id is already present is not added; otherwise it is appended; ids stay distinct |
| VectorTiles.FeatureAdded | libandroid-navigation/src/main/java/com/mapbox/services/android/navigation/v5/eh/vt/VectorTileParser.java:76-88 | the layer name picks the parser; any other layer changes nothing; an edge leaves the paths alone and a path the edges; edge ids stay distinct |
| VectorTiles.FeaturesAdded | libandroid-navigation/src/main/java/com/mapbox/services/android/navigation/v5/eh/vt/VectorTileParser.java:56-58 | the features in order, the first that raises ending the parse; edge ids stay distinct |
| VectorTiles.LayersAdded | libandroid-navigation/src/main/java/com/mapbox/services/android/navigation/v5/eh/vt/VectorTileParser.java:55-59 | the layers in order, each with its features; edge ids stay distinct |
| VectorTiles.ParsedTile | libandroid-navigation/src/main/java/com/mapbox/services/android/navigation/v5/eh/vt/VectorTileParser.java:48-60 | a parsed tile never holds two edges with one id |
| VectorTiles.VectorTileParser.constructor | libandroid-navigation/src/main/java/com/mapbox/services/android/navigation/v5/eh/vt/VectorTileParser.java:39-40 | a new parser holds no edges, no paths and no tile |
| VectorTiles.VectorTileParser.ParseTile | libandroid-navigation/src/main/java/com/mapbox/services/android/navigation/v5/eh/vt/VectorTileParser.java:48-60 | the tile id is set; the parse succeeds exactly when the tile parses; then the parser holds exactly what the tile gives, nothing from before |
| VectorTiles.VectorTileParser.ParseFeature | libandroid-navigation/src/main/java/com/mapbox/services/android/navigation/v5/eh/vt/VectorTileParser.java:76-88 | the parser's edges and paths become what the feature adds to them |
| VectorTiles.VectorTileParser.ParseDrivablePath | libandroid-navigation/src/main/java/com/mapbox/services/android/navigation/v5/eh/vt/VectorTileParser.java:90-200 | the decoding part computes the path the feature describes, if any |
| VectorTiles.VectorTileParser.ParseEdge | libandroid-navigation/src/main/java/com/mapbox/services/android/navigation/v5/eh/vt/VectorTileParser.java:203-312 | the decoding part computes the edge the feature describes, if any |
| Engine.Applied | libandroid-navigation/src/main/java/com/mapbox/services/android/navigation/v5/eh/MapEngineImpl.java:291-309 | each setting takes the configuration's field when it is present and keeps its old value when it is absent; an all-absent configuration changes nothing |
| Engine.AppliedRestores | libandroid-navigation/src/main/java/com/mapbox/services/android/navigation/v5/eh/MapEngineImpl.java:291-325 | applying a full configuration read from some settings restores those settings, whatever they replace, and applying it twice is the same as once |
| Engine.Dropped | libandroid-navigation/src/main/java/com/mapbox/services/android/navigation/v5/eh/MapEngineImpl.java:145-155 | the requests cancelled by cleanup are exactly those held for tiles outside the cover |
| Engine.Listed | libandroid-navigation/src/main/java/com/mapbox/services/android/navigation/v5/eh/MapEngineImpl.java:160-172 | the multimap lookup gives no edges for a tile without an entry |
| Engine.PutAll | libandroid-navigation/src/main/java/com/mapbox/services/android/navigation/v5/eh/MapEngineImpl.java:218 | the tile's list grows by the given edges at its end, every other tile's list is unchanged, and an empty batch adds no entry |
| Engine.Restrict | libandroid-navigation/src/main/java/com/mapbox/services/android/navigation/v5/eh/MapEngineImpl.java:164-172 | the kept index has exactly the entries whose tile is in the cover, with their lists unchanged |
| Engine.OrphanedOnlyDropped | libandroid-navigation/src/main/java/com/mapbox/services/android/navigation/v5/eh/MapEngineImpl.java:174-184 | an edge id taken out of the graph was listed under a dropped tile, and no edge listed under a kept tile is taken out |
| Engine.IdsUnderGrow | libandroid-navigation/src/main/java/com/mapbox/services/android/navigation/v5/eh/MapEngineImpl.java:160-172 | visiting one more tile adds exactly the ids listed under it |
| Engine.IdSet | libandroid-navigation/src/main/java/com/mapbox/services/android/navigation/v5/eh/MapEngineImpl.java:160-172 | the id set of a list holds the id of every listed edge and nothing else |
| Engine.IdSetCons | libandroid-navigation/src/main/java/com/mapbox/services/android/navigation/v5/eh/MapEngineImpl.java:160-172 | the ids of a list are the first edge's id together with the ids of the rest |
| Engine.Collected | libandroid-navigation/src/main/java/com/mapbox/services/android/navigation/v5/eh/MapEngineImpl.java:162-168 | adding edges to a set equal by id keeps every id held before with its edge, adds every new id, and each entry is keyed by its edge's id |
| Engine.Retained | libandroid-navigation/src/main/java/com/mapbox/services/android/navigation/v5/eh/MapEngineImpl.java:214 | the ids a batch leaves in the graph are exactly those of edges whose raw ends differ |
| Engine.SortEntries | libandroid-navigation/src/main/java/com/mapbox/services/android/navigation/v5/eh/MapEngineImpl.java:160-172 | the loop over the index entries keeps exactly the cover's entries, gathers the ids under dropped tiles for removal and the ids under kept tiles for retention |
| Engine.ClashesAsBefore | libandroid-navigation/src/main/java/com/mapbox/services/android/navigation/v5/eh/MapEngineImpl.java:214 | while a batch is added, whether the next edge clashes does not depend on the edges of the batch added before it |
| Engine.GrowStep | libandroid-navigation/src/main/java/com/mapbox/services/android/navigation/v5/eh/MapEngineImpl.java:214 | adding one more edge of a batch without a clash extends the grown network by that edge's id when its ends differ |
| Engine.IdsUnderStep | libandroid-navigation/src/main/java/com/mapbox/services/android/navigation/v5/eh/MapEngineImpl.java:160-172 | taking one more dropped tile out of the unvisited ones adds exactly the ids listed under it |
| Engine.KeptStep | libandroid-navigation/src/main/java/com/mapbox/services/android/navigation/v5/eh/MapEngineImpl.java:214 | the ids kept from a prefix one edge longer are the shorter prefix's plus that edge's id when its ends differ |
| Engine.KeptBefore | libandroid-navigation/src/main/java/com/mapbox/services/android/navigation/v5/eh/MapEngineImpl.java:214 | within a tile whose edge ids are distinct, an edge's id is not among those kept from the edges before it |
| Engine.MapEngine.Current | libandroid-navigation/src/main/java/com/mapbox/services/android/navigation/v5/eh/MapEngineImpl.java:311-325 | the reported expansion is FULL exactly when the tracker's full-expansion flag is set |
| Engine.MapEngine.constructor | libandroid-navigation/src/main/java/com/mapbox/services/android/navigation/v5/eh/MapEngineImpl.java:248-260 | a new engine has an empty graph, no requests, index, listeners or position, a tracker on that graph with no previous position or edge, and the default distance, LIMITED expansion and default update interval |
| Engine.MapEngine.RegisterListener | libandroid-navigation/src/main/java/com/mapbox/services/android/navigation/v5/eh/MapEngineImpl.java:327-333 | the listener joins the listener set and nothing else changes |
| Engine.MapEngine.UnregisterListener | libandroid-navigation/src/main/java/com/mapbox/services/android/navigation/v5/eh/MapEngineImpl.java:335-341 | the listener leaves the listener set and nothing else changes |
| Engine.MapEngine.DoUpdateState | libandroid-navigation/src/main/java/com/mapbox/services/android/navigation/v5/eh/MapEngineImpl.java:71-109 | the position is stored; afterwards the requested tiles are exactly the cover of the buffered position, requests already held are kept and only new cover tiles get fresh uncancelled requests, every dropped request is cancelled, the index keeps exactly the cover's entries, the graph loses exactly the orphaned edges, and with no listeners the tracker is not consulted; an update carries the requested tiles |
| Engine.MapEngine.ReconcileRequests | libandroid-navigation/src/main/java/com/mapbox/services/android/navigation/v5/eh/MapEngineImpl.java:84-102 | requesting the cover and then cleaning up leaves exactly the cover requested, keeps held requests, creates fresh ones only for new tiles, and cancels every dropped request |
| Engine.MapEngine.RequestCover | libandroid-navigation/src/main/java/com/mapbox/services/android/navigation/v5/eh/MapEngineImpl.java:84-99 | every cover tile without a request gets a fresh one, and held requests are not requested again or replaced |
| Engine.MapEngine.CleanupOutstandingRequests | libandroid-navigation/src/main/java/com/mapbox/services/android/navigation/v5/eh/MapEngineImpl.java:145-155 | the requests outside the cover are cancelled and removed, and those inside it are kept as they were |
| Engine.MapEngine.CleanupGraph | libandroid-navigation/src/main/java/com/mapbox/services/android/navigation/v5/eh/MapEngineImpl.java:157-187 | the index keeps only the cover's entries, untouched, and the graph loses exactly the edges listed under a dropped tile and under no kept tile |
| Engine.MapEngine.RemoveEdges | libandroid-navigation/src/main/java/com/mapbox/services/android/navigation/v5/eh/MapEngineImpl.java:174-184 | removing the doomed edges, each present or swallowed when absent, leaves the network minus exactly those ids |
| Engine.MapEngine.HandleTileResponse | libandroid-navigation/src/main/java/com/mapbox/services/android/navigation/v5/eh/MapEngineImpl.java:189-224 | an error response only removes the tile's request; a missing body changes nothing; a parse failure raises and changes nothing; an edge clashing with the graph raises with the index unchanged, and the graph keeps exactly the edges added before the first clashing one in the returned permutation of the parsed edges, which stands for the hash set's order; otherwise the graph gains exactly the edges whose ends differ, the index appends them under the tile in that same order whether or not it is still requested, and every edge named by a drivable path carries one of the paths naming it |
| Engine.MapEngine.Merge | libandroid-navigation/src/main/java/com/mapbox/services/android/navigation/v5/eh/MapEngineImpl.java:212-218 | the edges are walked in a returned permutation of their parsed order, standing for the hash set's order; the batch raises exactly when one edge clashes, leaving the index alone and the graph with exactly the edges added before the first clashing one in that walk; otherwise the graph gains exactly the kept ids, the index appends the built edges under the tile in the walk's order, the paths are applied in some permutation of their parsed order, and each edge carries the last path naming it in that order |
| Engine.MapEngine.AddHashed | libandroid-navigation/src/main/java/com/mapbox/services/android/navigation/v5/eh/MapEngineImpl.java:214 | the parsed edges are added in the order of a returned permutation of them; adding raises IllegalArgument exactly when one parsed edge clashes with the graph, and then the graph holds exactly the edges before the first clash in that order; earlier edges are never replaced; otherwise the graph gains exactly the kept ids, with one edge built per walked edge |
| Engine.ShuffledBatch | libandroid-navigation/src/main/java/com/mapbox/services/android/navigation/v5/eh/vt/VectorTileParser.java:31 | any rearrangement of the parser's edge set has the same length and the same edges, keeps the same ids, and keeps the ids distinct |
| Engine.MapEngine.AddEdges | libandroid-navigation/src/main/java/com/mapbox/services/android/navigation/v5/eh/MapEngineImpl.java:214 | adding the batch in the order given raises IllegalArgument exactly when one of its edges clashes with the graph before it, and then the graph holds exactly the edges added before the first clash; earlier edges are never replaced; otherwise the graph gains exactly the ids of edges whose ends differ, and one edge is built per parsed edge |
| Engine.FirstClash | libandroid-navigation/src/main/java/com/mapbox/services/android/navigation/v5/eh/MapEngineImpl.java:214 | when the first clashing edge is reached with the graph grown by exactly the earlier edges, the batch stopped at that clash and kept every earlier arc |
| Engine.MapEngine.AddNext | libandroid-navigation/src/main/java/com/mapbox/services/android/navigation/v5/eh/MapEngineImpl.java:214 | one step of the batch keeps the network grown by the edges before it, raising only on an edge that clashes with the original network |
| Engine.MapEngine.AddBuilt | libandroid-navigation/src/main/java/com/mapbox/services/android/navigation/v5/eh/MapEngineImpl.java:214 | adding one built edge raises exactly when it clashes and then leaves the network unchanged; otherwise it adds its id when its ends differ and keeps every other arc |
| Engine.MapEngine.UpdateHorizonListeners | libandroid-navigation/src/main/java/com/mapbox/services/android/navigation/v5/eh/MapEngineImpl.java:111-143 | with no listeners the tracker is not consulted and nothing is delivered; otherwise a missing position raises, a match gives a matched update whose horizon starts at the tracker's new edge, and no match gives an unmatched update at the position with no possible matches; every update carries the requested tiles |
| Engine.MapEngine.UpdateConfiguration | libandroid-navigation/src/main/java/com/mapbox/services/android/navigation/v5/eh/MapEngineImpl.java:291-309 | the settings become the partial configuration applied to the old ones, and the engine's distance follows the new distance setting, with the tile bookkeeping and tracker position untouched |
| Engine.MapEngine.GetConfiguration | libandroid-navigation/src/main/java/com/mapbox/services/android/navigation/v5/eh/MapEngineImpl.java:311-325 | a fresh configuration reporting all three current settings |

## Left out

- Threads and timing:
  - the looper. In Java an exception from a posted message halts the loop, so no later message runs; the model keeps accepting calls after any `Raised` outcome;
  - the debouncer and `updateState`;
  - the startup latch and `start`;
  - the thread pool.
  Each posted closure is modelled as a direct sequential call.
- Transport:
  - the file sources, `resolveURL` and the okhttp callbacks.
  - A request is an opaque `Request` object. Its cancellation is recorded in the engine's `cancelled` set.
  - A response is its error and its decoded body.
- Protobuf decoding. A vector tile is an abstract datatype of layers, features, tags and geometry integers. A body that fails to decode (Java's `IOException`) is a response without a body.
- Listener delivery. `onUpdate` is not called: the update a listener would receive is returned.
- Floating-point geodesy, because it is transcendental numerics:
  - CheapRuler and Turf are not part of this model. Distance, bearing, point-on-line, slicing and line length are function-valued parameters (`Ruler`, `Geometry`). Nothing is assumed about them, not even a non-negative distance, so contracts that involve them speak of whatever values they return.
  - The ruler is obtained per call rather than cached in a field.
- The lon/lat↔tile formulas (`tile2lon`, `tile2lat`, `getBounds`) and `VectorTileParser.toLlaPoint` are parameters (`Surroundings`, `Projection`).
- Logging and `toString` formatting, and enum `hashCode` values.
- Debug queries, because they only copy state across threads:
  - `getAllCurrentEdges` and its `copy` helper;
  - the looper-posted `getConnectedEdges` (the graph query itself is modelled).
- HashSet and HashMap iteration order. Sets are enumerated in an arbitrary order, and results are stated so as not to depend on it. Where the order decides the outcome, as when a tile's edges are added to the graph, the method returns the order it used as a ghost permutation, and its contract is stated over that permutation.
- The order in which a tile's drivable paths are applied. The parser collects them in a `HashSet` hashed by identity, so the order is arbitrary. `Engine.MapEngine.Merge` applies them in an order it returns as a ghost permutation of the parsed paths. When two paths list the same edge, the edge carries the one applied last in that order.
- `Multimap.keySet()` is a live view in Java. Updates carry the key set at the moment they are built.
- Zoom levels outside 0..30. The engine is constructed with a zoom in that range, the one range where `1 << z` is a positive power of two.
- Osm.ValueOfOptional: letter case is folded for ASCII only (`Util.Upper`). Java's `toUpperCase` is Unicode- and locale-dependent (the long s, the dotless ı, the Turkish locale), and that folding is not modelled.
- Osm.IsRelevant: letter case is folded for ASCII only, as for `Osm.ValueOfOptional`; Java's Unicode- and locale-dependent `toUpperCase` is not modelled.
- Osm.WayImpliesOneWay: letter case is folded for ASCII only, as for `Osm.ValueOfOptional`; Java's Unicode- and locale-dependent `toUpperCase` is not modelled.
- Osm.JunctionImpliesOneWay: letter case is folded for ASCII only, as for `Osm.ValueOfOptional`; Java's Unicode- and locale-dependent `toUpperCase` is not modelled.
- Config.ExpansionValueOfOrNull: letter case is folded for ASCII only, as for `Osm.ValueOfOptional`; Java's Unicode- and locale-dependent `toUpperCase` is not modelled.
- `Long.parseLong` is modelled for ASCII digits with an optional sign. Digits from other scripts are not modelled.
- Tracking.Tracker.HorizonAt: the positive result is not itself promised to be `Weighted`. `MatchPosition` promises it in the state it returns, and `Tracking.WeightedKept` shows that it survives any later change that leaves the tree's edges alone; the only later change `horizon(Point)` makes is the write of the previous position. Restating it after that write exceeds the verifier's resource limit, because `Weighted` reads the whole heap.
- Tiles.UnwrappedTileID.ToCanonical: builds the corrected canonical tile (`Tiles.CanonicalOf`), so the overflow listed under Findings is not reproduced by the tile cover. The two agree for zoom 0..30 and x >= Integer.MIN_VALUE + 2^z - 1 (`Tiles.CanonicalOfAgrees`); they differ only for columns within 2^z - 1 of Integer.MIN_VALUE.
- In-place filling of the horizon tree. Java fills each `Segment.out` list in place; here `expand` returns each segment with its children. No segment is reachable from two parents, so the resulting tree is the same.
- `Graph.edges()` and `Graph.nodes()` are plain field reads with nothing to state.
- Transition.NormalizedProbabilities: the weights 1/c are stated for non-negative costs when there are two or more. The only caller passes costs already shifted to at least 1. Java's double division by a zero or negative sum (Infinity, NaN) is not captured by the real-number model.

## Findings

| source | as written | input that shows it | evidently intended | confidence | as-written member | corrected member |
|---|---|---|---|---|---|---|
| libandroid-navigation/src/main/java/com/mapbox/services/android/navigation/v5/eh/geo/CanonicalTileID.java:35-43 | `x - wrap * (1 << z)` with `wrap` from `x - (1 << z) + 1` in 32-bit int arithmetic overflows for x near Integer.MIN_VALUE | z = 1, x = Integer.MIN_VALUE gives x = 2, outside [0, 2) | x reduced modulo 2^z into [0, 2^z) | not executed | Tiles.CanonicalOfAsWrittenOverflows | Tiles.CanonicalOf |
| libandroid-navigation/src/main/java/com/mapbox/services/android/navigation/v5/eh/vt/VectorTileParser.java:341-343 | `(val >> 1) ^ (-(val & 1))` uses the arithmetic shift | the encoding of 2^30 is Integer.MIN_VALUE, which decodes to -2^30 | the logical shift `>>>`, so decoding inverts encoding for every int | not executed | VectorTiles.DecodedFlipsFarMove | VectorTiles.ZigZagRoundTrip |

The parser model keeps the decoding as written: `VectorTiles.Moved` steps by `ZigZagDecodeAsWritten`, and the ring round trips are stated for steps in [-2^30, 2^30), where that decoding is right (`VectorTiles.ZigZagAsWrittenRoundTrip`). The intended decoding `VectorTiles.ZigZagDecode` and its round trip for every int stand beside it.
