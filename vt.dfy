/**
 * Decoding the road book from Mapbox Vector Tiles (version 2.1 of the Mapbox Vector
 * Tile Specification): command and parameter integers of a feature's geometry,
 * key/value tag pairs, and the two layers the engine reads, "edges" and
 * "drivablePaths". The protobuf tile is given as plain datatypes.
 */
module VectorTiles {
  import opened Util
  import opened Geo
  import opened Osm
  import opened Edges
  import opened Tiles

  // ---------------------------------------------------------------------------
  // The protobuf tile

  /** A `Tile.Value`: the typed fields a tag value may set. */
  datatype Value = Value(stringValue: Option<string>, doubleValue: Option<real>,
                         intValue: Option<Int64>, boolValue: Option<bool>)
  {
    /** The protobuf getters give the type's default for an unset field. */
    function GetString(): string { if stringValue.Some? then stringValue.value else "" }
    function GetDouble(): real { if doubleValue.Some? then doubleValue.value else 0.0 }
    function GetInt(): Int64 { if intValue.Some? then intValue.value else 0 }
    function GetBool(): bool { boolValue.Some? && boolValue.value }
  }

  /** A `Tile.Feature`: its id, its tags as indices into the layer's keys and values, its geometry integers. */
  datatype Feature = Feature(id: Int64, tags: seq<Int32>, geometry: seq<Int32>)

  /** A `Tile.Layer`. */
  datatype Layer = Layer(name: string, keys: seq<string>, values: seq<Value>, extent: Int32, features: seq<Feature>)

  datatype Tile = Tile(layers: seq<Layer>)

  /**
   * A decoded geometry point in tile coordinates. The Java cursor holds doubles; the
   * sums of 32-bit deltas it forms are exact integers here.
   */
  datatype TilePoint = TilePoint(x: int, y: int)

  /** `toLlaPoint`: tile coordinates of a layer with the given extent to longitude and latitude. */
  type Projection = (Int32, CanonicalTileID, TilePoint) -> LngLat

  // ---------------------------------------------------------------------------
  // Command integers (section 4.3.1 of the Mapbox Vector Tile Specification 2.1)
  // and parameter integers (its section 4.3.2)

  const MOVE_TO: int := 1
  const LINE_TO: int := 2
  const CLOSE_PATH: int := 7

  /** `command & 0x7`: the low three bits of the two's-complement int. */
  function CommandId(command: Int32): (id: int)
    ensures 0 <= id < 8
    ensures (command - id) % 8 == 0
  {
    command % 8
  }

  /** `command >> 3`: the arithmetic shift, so the rest of the integer once the id is taken off. */
  function CommandCount(command: Int32): (count: Int32)
    ensures command == count * 8 + CommandId(command)
  {
    command / 8
  }

  /**
   * A command integer as section 4.3.1 of the Mapbox Vector Tile Specification 2.1
   * builds it, `(id & 0x7) | (count << 3)`.
   */
  function Command(id: int, count: int): (command: Int32)
    requires 0 <= id < 8 && 0 <= count < 0x1000_0000
    ensures CommandId(command) == id && CommandCount(command) == count
  {
    count * 8 + id
  }

  /**
   * Zig-zag encoding of section 4.3.2 of the Mapbox Vector Tile Specification 2.1,
   * `(n << 1) ^ (n >> 31)`, an unsigned 32-bit value that Java reads back as an int.
   */
  function ZigZagEncode(n: Int32): (v: Int32)
    ensures (v - (if n >= 0 then 2 * n else -2 * n - 1)) % TWO_32 == 0
  {
    Wrap32(if n >= 0 then 2 * n else -2 * n - 1)
  }

  /**
   * `zigZagDecode` as written, `(val >> 1) ^ (-(val & 1))`: Java's `>>` is the
   * arithmetic shift, so an int whose sign bit is set halves to a negative number.
   */
  function ZigZagDecodeAsWritten(v: Int32): (n: Int32)
    ensures 0 <= v ==> n == ZigZagDecode(v)
  {
    var half := v / 2;
    if v % 2 == 0 then half else -half - 1
  }

  /**
   * Zig-zag decoding with the logical shift `>>>`, which reads the int as the unsigned
   * value the tile stores.
   */
  function ZigZagDecode(v: Int32): (n: Int32)
    ensures ZigZagEncode(n) == v
  {
    var u := if v < 0 then v + TWO_32 else v;
    var n := if u % 2 == 0 then u / 2 else -(u / 2) - 1;
    WrapCongruentInRange(if n >= 0 then 2 * n else -2 * n - 1, v);
    n
  }

  /** Decoding inverts encoding for every int. */
  lemma ZigZagRoundTrip(n: Int32)
    ensures ZigZagDecode(ZigZagEncode(n)) == n
  {
    var e := if n >= 0 then 2 * n else -2 * n - 1;
    var v := ZigZagEncode(n);
    var u := if v < 0 then v + TWO_32 else v;
    assert (u - e) % TWO_32 == 0;
    SameResidue(u, e);
    assert u == e;
  }

  /** The deltas the decoder as written gets back: those whose encoding keeps the sign bit clear. */
  const ZIGZAG_BOUND: int := 0x4000_0000

  /**
   * The decoder as written inverts encoding on [-2^30, 2^30): there the encoding is a
   * non-negative int, which the arithmetic and the logical shift halve alike.
   */
  lemma ZigZagAsWrittenRoundTrip(n: Int32)
    requires -ZIGZAG_BOUND <= n < ZIGZAG_BOUND
    ensures ZigZagEncode(n) >= 0
    ensures ZigZagDecodeAsWritten(ZigZagEncode(n)) == n
  {
    WrapInRange(if n >= 0 then 2 * n else -2 * n - 1);
    ZigZagRoundTrip(n);
  }

  /** Two numbers in [0, 2^32) with the same residue are equal. */
  lemma SameResidue(a: int, b: int)
    requires 0 <= a < TWO_32 && 0 <= b < TWO_32 && (a - b) % TWO_32 == 0
    ensures a == b
  {
    var k := (a - b) / TWO_32;
    assert a - b == k * TWO_32;
  }

  /**
   * The arithmetic shift decodes the encoding of 2^30, a delta the tile format allows,
   * as -2^30.
   */
  lemma ZigZagAsWrittenFails()
    ensures ZigZagEncode(0x4000_0000) == INT32_MIN
    ensures ZigZagDecodeAsWritten(ZigZagEncode(0x4000_0000)) == -0x4000_0000
  {
    WrapCongruentInRange(0x8000_0000, INT32_MIN);
  }

  // ---------------------------------------------------------------------------
  // Geometry (section 4.3.3 of the Mapbox Vector Tile Specification 2.1)

  /**
   * `decodePoint`: the cursor moved by the two deltas, each decoded by `zigZagDecode`
   * as written, with the arithmetic shift.
   */
  function Moved(at: TilePoint, dx: Int32, dy: Int32): (p: TilePoint)
    ensures p.x - at.x == ZigZagDecodeAsWritten(dx) && p.y - at.y == ZigZagDecodeAsWritten(dy)
    ensures 0 <= dx && 0 <= dy ==> p.x - at.x == ZigZagDecode(dx) && p.y - at.y == ZigZagDecode(dy)
  {
    TilePoint(at.x + ZigZagDecodeAsWritten(dx), at.y + ZigZagDecodeAsWritten(dy))
  }

  /**
   * The points the geometry loops of `parseEdge` and `parseDrivablePath` collect, or
   * nothing when they drop the feature. Running out of integers anywhere ends the
   * loops normally with the points collected so far.
   */
  function Decoded(g: seq<Int32>): Option<seq<TilePoint>>
  {
    if g == [] then Some([]) else AtMoveTo(g, g[0], 1, TilePoint(0, 0), [])
  }

  /**
   * The outer loop with command `c` read and `g[i..]` unread: a MoveTo of one point
   * starts a ring, any other count drops the feature, any other command ends decoding.
   */
  function AtMoveTo(g: seq<Int32>, c: Int32, i: nat, at: TilePoint, points: seq<TilePoint>): Option<seq<TilePoint>>
    requires i <= |g|
    decreases |g| - i, 2
  {
    if CommandId(c) != MOVE_TO then Some(points)
    else if CommandCount(c) != 1 then None
    else if |g| < i + 2 then Some(points)
    else
      var p := Moved(at, g[i], g[i + 1]);
      if |g| == i + 2 then Some(points + [p])
      else AtLineTo(g, g[i + 2], i + 3, p, points + [p])
  }

  /**
   * The inner loop with command `c` read: a LineTo adds its points, a ClosePath returns
   * to the outer loop, anything else drops the feature.
   */
  function AtLineTo(g: seq<Int32>, c: Int32, i: nat, at: TilePoint, points: seq<TilePoint>): Option<seq<TilePoint>>
    requires i <= |g|
    decreases |g| - i, 1
  {
    if CommandId(c) == LINE_TO then LineRun(g, CommandCount(c), i, at, points)
    else if CommandId(c) != CLOSE_PATH then None
    else if i == |g| then Some(points)
    else AtMoveTo(g, g[i], i + 1, at, points)
  }

  /** The `for` loop of a LineTo with `left` points still to read, then the next command. */
  function LineRun(g: seq<Int32>, left: int, i: nat, at: TilePoint, points: seq<TilePoint>): Option<seq<TilePoint>>
    requires i <= |g|
    decreases |g| - i, 0
  {
    if left <= 0 then
      if i == |g| then Some(points) else AtLineTo(g, g[i], i + 1, at, points)
    else if |g| < i + 2 then Some(points)
    else
      var p := Moved(at, g[i], g[i + 1]);
      LineRun(g, left - 1, i + 2, p, points + [p])
  }

  /** The geometry loops of `parseEdge` and `parseDrivablePath`, over an iterator of the integers. */
  method DecodeGeometry(g: seq<Int32>) returns (r: Option<seq<TilePoint>>)
    ensures r == Decoded(g)
  {
    var points: seq<TilePoint> := [];
    var cursor := TilePoint(0, 0);
    if |g| == 0 {
      return Some(points);
    }
    var command := g[0];
    var i := 1;
    while CommandId(command) == MOVE_TO
      invariant i <= |g|
      invariant Decoded(g) == AtMoveTo(g, command, i, cursor, points)
      decreases |g| - i
    {
      if CommandCount(command) != 1 {
        return None;
      }
      if |g| < i + 2 {
        return Some(points);
      }
      cursor := Moved(cursor, g[i], g[i + 1]);
      points := points + [cursor];
      i := i + 2;
      if i == |g| {
        return Some(points);
      }
      command := g[i];
      i := i + 1;
      while CommandId(command) == LINE_TO
        invariant i <= |g|
        invariant Decoded(g) == AtLineTo(g, command, i, cursor, points)
        decreases |g| - i
      {
        var count: int := CommandCount(command);
        var k: int := 0;
        ghost var start := i;
        while k < count
          invariant start <= i <= |g|
          invariant Decoded(g) == LineRun(g, count - k, i, cursor, points)
          decreases count - k
        {
          if |g| < i + 2 {
            return Some(points);
          }
          cursor := Moved(cursor, g[i], g[i + 1]);
          points := points + [cursor];
          i := i + 2;
          k := k + 1;
        }
        if i == |g| {
          return Some(points);
        }
        command := g[i];
        i := i + 1;
      }
      if CommandId(command) != CLOSE_PATH {
        return None;
      }
      if i == |g| {
        return Some(points);
      }
      command := g[i];
      i := i + 1;
    }
    r := Some(points);
  }

  /**
   * The parser carries the decoding flaw into its points: a MoveTo by 2^30 to the east
   * lands 2^30 to the west.
   */
  lemma DecodedFlipsFarMove()
    ensures Decoded([Command(MOVE_TO, 1), ZigZagEncode(ZIGZAG_BOUND), ZigZagEncode(0)])
            == Some([TilePoint(-ZIGZAG_BOUND, 0)])
  {
    ZigZagAsWrittenFails();
    ZigZagAsWrittenRoundTrip(0);
    var g := [Command(MOVE_TO, 1), ZigZagEncode(ZIGZAG_BOUND), ZigZagEncode(0)];
    var p := Moved(TilePoint(0, 0), g[1], g[2]);
    assert p == TilePoint(-ZIGZAG_BOUND, 0);
    assert Decoded(g) == AtMoveTo(g, g[0], 1, TilePoint(0, 0), []) == Some([] + [p]);
    assert [] + [p] == [TilePoint(-ZIGZAG_BOUND, 0)];
  }

  // ---------------------------------------------------------------------------
  // Encoding a ring, the inverse of decoding

  /** The zig-zag deltas leading from `at` through `points`, two integers per point. */
  function Deltas(at: TilePoint, points: seq<TilePoint>): (g: seq<Int32>)
    requires Steppable(at, points)
    ensures |g| == 2 * |points|
    decreases |points|
  {
    if points == [] then []
    else
      [ZigZagEncode(points[0].x - at.x), ZigZagEncode(points[0].y - at.y)] + Deltas(points[0], points[1..])
  }

  /**
   * Every step from one point to the next, starting at `at`, lies in [-2^30, 2^30) on
   * both axes: the deltas the parser as written decodes back.
   */
  predicate Steppable(at: TilePoint, points: seq<TilePoint>)
    decreases |points|
  {
    points == [] ||
    (-ZIGZAG_BOUND <= points[0].x - at.x < ZIGZAG_BOUND && -ZIGZAG_BOUND <= points[0].y - at.y < ZIGZAG_BOUND
     && Steppable(points[0], points[1..]))
  }

  /**
   * One polygon ring as section 4.3.3 of the Mapbox Vector Tile Specification 2.1
   * writes it: a MoveTo to the first point, a LineTo through the others, a ClosePath.
   */
  function Ring(points: seq<TilePoint>): (g: seq<Int32>)
    requires points != [] && |points| <= 0x1000_0000 && Steppable(TilePoint(0, 0), points)
  {
    [Command(MOVE_TO, 1), ZigZagEncode(points[0].x), ZigZagEncode(points[0].y), Command(LINE_TO, |points| - 1)]
    + (Deltas(points[0], points[1..]) + [Command(CLOSE_PATH, 1)])
  }

  /**
   * Decoding a ring whose steps lie in [-2^30, 2^30) gives its points back: the decoded
   * points are the running sums of the deltas.
   */
  lemma RingDecoded(points: seq<TilePoint>)
    requires points != [] && |points| <= 0x1000_0000 && Steppable(TilePoint(0, 0), points)
    ensures Decoded(Ring(points)) == Some(points)
  {
    var g := Ring(points);
    var rest := points[1..];
    RingOpens(points);
    assert Steppable(points[0], rest) && |rest| == |points| - 1;
    assert g[4..] == Deltas(points[0], rest) + [Command(CLOSE_PATH, 1)];
    RunDecoded(g, points[0], rest, 4, [points[0]]);
    assert [points[0]] + rest == points;
  }

  /** Decoding a ring reaches the LineTo run at its fifth integer, with the first point taken. */
  lemma RingOpens(points: seq<TilePoint>)
    requires points != [] && |points| <= 0x1000_0000 && Steppable(TilePoint(0, 0), points)
    ensures |Ring(points)| == 2 * |points| + 3
    ensures Ring(points)[4..] == Deltas(points[0], points[1..]) + [Command(CLOSE_PATH, 1)]
    ensures Decoded(Ring(points)) == LineRun(Ring(points), |points| - 1, 4, points[0], [points[0]])
  {
    RingParts(points);
    ZigZagAsWrittenRoundTrip(points[0].x);
    ZigZagAsWrittenRoundTrip(points[0].y);
    GeometryOpens(Ring(points), points[0], |points| - 1);
  }

  /** The four integers a ring starts with, and what follows them. */
  lemma RingParts(points: seq<TilePoint>)
    requires points != [] && |points| <= 0x1000_0000 && Steppable(TilePoint(0, 0), points)
    ensures |Ring(points)| == 2 * |points| + 3
    ensures Ring(points)[0] == Command(MOVE_TO, 1) && Ring(points)[3] == Command(LINE_TO, |points| - 1)
    ensures Ring(points)[1] == ZigZagEncode(points[0].x) && Ring(points)[2] == ZigZagEncode(points[0].y)
    ensures Ring(points)[4..] == Deltas(points[0], points[1..]) + [Command(CLOSE_PATH, 1)]
  {
    var head := [Command(MOVE_TO, 1), ZigZagEncode(points[0].x), ZigZagEncode(points[0].y), Command(LINE_TO, |points| - 1)];
    var tail := Deltas(points[0], points[1..]) + [Command(CLOSE_PATH, 1)];
    assert (head + tail)[|head|..] == tail;
  }

  /** A MoveTo of one point followed by a LineTo of `n` points starts decoding with that point. */
  lemma GeometryOpens(g: seq<Int32>, first: TilePoint, n: int)
    requires |g| > 4 && 0 <= n < 0x1000_0000
    requires g[0] == Command(MOVE_TO, 1) && g[3] == Command(LINE_TO, n)
    requires Moved(TilePoint(0, 0), g[1], g[2]) == first
    ensures Decoded(g) == LineRun(g, n, 4, first, [first])
  {
    assert [] + [first] == [first];
    assert AtMoveTo(g, g[0], 1, TilePoint(0, 0), []) == AtLineTo(g, g[3], 4, first, [first]);
  }

  /** A LineTo run over deltas of `rest`, followed by a closing ClosePath at the end, adds `rest`. */
  lemma {:induction false} RunDecoded(g: seq<Int32>, at: TilePoint, rest: seq<TilePoint>, i: nat, done: seq<TilePoint>)
    requires Steppable(at, rest)
    requires i + 2 * |rest| + 1 == |g|
    requires g[i..] == Deltas(at, rest) + [Command(CLOSE_PATH, 1)]
    ensures LineRun(g, |rest|, i, at, done) == Some(done + rest)
    decreases |rest|
  {
    if rest == [] {
      assert g[i] == g[i..][0] == Command(CLOSE_PATH, 1);
      assert LineRun(g, 0, i, at, done) == AtLineTo(g, g[i], i + 1, at, done);
      assert done + rest == done;
    } else {
      var dx, dy := rest[0].x - at.x, rest[0].y - at.y;
      assert g[i] == g[i..][0] == ZigZagEncode(dx);
      assert g[i + 1] == g[i..][1] == ZigZagEncode(dy);
      ZigZagAsWrittenRoundTrip(dx);
      ZigZagAsWrittenRoundTrip(dy);
      assert g[i + 2..] == g[i..][2..];
      RunDecoded(g, rest[0], rest[1..], i + 2, done + [rest[0]]);
      assert done + [rest[0]] + rest[1..] == done + rest;
    }
  }

  // ---------------------------------------------------------------------------
  // Tags (section 4.4 of the Mapbox Vector Tile Specification 2.1)

  /** Every tag pair from `i` on is whole, and its key and value indices are in range. */
  predicate WellTagged(layer: Layer, tags: seq<Int32>, i: nat)
    decreases |tags| - i
  {
    i >= |tags|
    || (i + 1 < |tags| && 0 <= tags[i] < |layer.keys| && 0 <= tags[i + 1] < |layer.values|
        && WellTagged(layer, tags, i + 2))
  }

  /** The value of the last pair from `i` on whose key is `key`. */
  function LastValue(layer: Layer, tags: seq<Int32>, i: nat, key: string): Option<Value>
    requires WellTagged(layer, tags, i)
    decreases |tags| - i
  {
    if i >= |tags| then None
    else
      var later := LastValue(layer, tags, i + 2, key);
      if later.Some? then later
      else if layer.keys[tags[i]] == key then Some(layer.values[tags[i + 1]])
      else None
  }

  function LastInt(layer: Layer, tags: seq<Int32>, i: nat, key: string, default: Int64): Int64
    requires WellTagged(layer, tags, i)
  {
    var v := LastValue(layer, tags, i, key);
    if v.Some? then v.value.GetInt() else default
  }

  /** The fields `parseEdge` reads from the tags. */
  datatype EdgeTags = EdgeTags(id: Int64, length: real, nodeIdIn: Int64, nodeIdOut: Int64,
                               counterpartId: Int64, inverse: bool, osmWayId: Int64)

  /** The values `parseEdge` starts from: the feature id, no end nodes, length, counterpart and way -1. */
  function EdgeDefaults(id: Int64): EdgeTags
  {
    EdgeTags(id, -1.0, NULL_NODE, NULL_NODE, -1, false, -1)
  }

  /** One case of the `switch` in `parseEdge`; keys it does not use change nothing. */
  function EdgeTag(t: EdgeTags, key: string, value: Value): (r: EdgeTags)
    ensures r.id == if key == "id" then value.GetInt() else t.id
    ensures r.length == if key == "length" then value.GetDouble() else t.length
    ensures r.nodeIdIn == if key == "node_id_in" then value.GetInt() else t.nodeIdIn
    ensures r.nodeIdOut == if key == "node_id_out" then value.GetInt() else t.nodeIdOut
    ensures r.counterpartId == if key == "counterpart_id" then value.GetInt() else t.counterpartId
    ensures r.inverse == if key == "inverse_geometry" then value.GetBool() else t.inverse
    ensures r.osmWayId == if key == "osm_way_id" then value.GetInt() else t.osmWayId
  {
    if key == "length" then t.(length := value.GetDouble())
    else if key == "node_id_in" then t.(nodeIdIn := value.GetInt())
    else if key == "node_id_out" then t.(nodeIdOut := value.GetInt())
    else if key == "id" then t.(id := value.GetInt())
    else if key == "counterpart_id" then t.(counterpartId := value.GetInt())
    else if key == "inverse_geometry" then t.(inverse := value.GetBool())
    else if key == "osm_way_id" then t.(osmWayId := value.GetInt())
    else t
  }

  /**
   * The tag loop of `parseEdge` from pair `i` on: a pair cut short or an index outside
   * the layer's keys or values raises.
   */
  function EdgeTagsFrom(layer: Layer, tags: seq<Int32>, i: nat, t: EdgeTags): (r: Outcome<EdgeTags>)
    ensures r.Ok? <==> WellTagged(layer, tags, i)
    ensures r.Raised? ==> r.fault == IndexOutOfBounds
    decreases |tags| - i
  {
    if i >= |tags| then Ok(t)
    else if !(0 <= tags[i] < |layer.keys|) || i + 1 >= |tags| || !(0 <= tags[i + 1] < |layer.values|) then
      Raised(IndexOutOfBounds)
    else EdgeTagsFrom(layer, tags, i + 2, EdgeTag(t, layer.keys[tags[i]], layer.values[tags[i + 1]]))
  }

  /** The fields as the last pair with each key sets them, the others as in `t`. */
  function EdgeTagsOfLast(layer: Layer, tags: seq<Int32>, i: nat, t: EdgeTags): EdgeTags
    requires WellTagged(layer, tags, i)
  {
    var length := LastValue(layer, tags, i, "length");
    var inverse := LastValue(layer, tags, i, "inverse_geometry");
    EdgeTags(LastInt(layer, tags, i, "id", t.id),
             if length.Some? then length.value.GetDouble() else t.length,
             LastInt(layer, tags, i, "node_id_in", t.nodeIdIn),
             LastInt(layer, tags, i, "node_id_out", t.nodeIdOut),
             LastInt(layer, tags, i, "counterpart_id", t.counterpartId),
             if inverse.Some? then inverse.value.GetBool() else t.inverse,
             LastInt(layer, tags, i, "osm_way_id", t.osmWayId))
  }

  /** Each field is the value of the last pair with its key, or what it was before. */
  lemma {:induction false} EdgeTagsLast(layer: Layer, tags: seq<Int32>, i: nat, t: EdgeTags)
    requires WellTagged(layer, tags, i)
    ensures EdgeTagsFrom(layer, tags, i, t) == Ok(EdgeTagsOfLast(layer, tags, i, t))
    decreases |tags| - i
  {
    if i < |tags| {
      var t' := EdgeTag(t, layer.keys[tags[i]], layer.values[tags[i + 1]]);
      EdgeTagsLast(layer, tags, i + 2, t');
      EdgeTagAbsorbed(layer, tags, i, t);
    }
  }

  /** Applying the first pair and then the last values from the next pair on gives the last values from the first. */
  lemma EdgeTagAbsorbed(layer: Layer, tags: seq<Int32>, i: nat, t: EdgeTags)
    requires WellTagged(layer, tags, i) && i < |tags|
    ensures EdgeTagsOfLast(layer, tags, i + 2, EdgeTag(t, layer.keys[tags[i]], layer.values[tags[i + 1]]))
            == EdgeTagsOfLast(layer, tags, i, t)
  {
    LastStep(layer, tags, i, "id");
    LastStep(layer, tags, i, "length");
    LastStep(layer, tags, i, "node_id_in");
    LastStep(layer, tags, i, "node_id_out");
    LastStep(layer, tags, i, "counterpart_id");
    LastStep(layer, tags, i, "inverse_geometry");
    LastStep(layer, tags, i, "osm_way_id");
  }

  /** The last value from the first pair on: the last one from the next pair on, else the first pair's own. */
  lemma LastStep(layer: Layer, tags: seq<Int32>, i: nat, key: string)
    requires WellTagged(layer, tags, i) && i < |tags|
    ensures LastValue(layer, tags, i, key) ==
            if LastValue(layer, tags, i + 2, key).Some? then LastValue(layer, tags, i + 2, key)
            else if layer.keys[tags[i]] == key then Some(layer.values[tags[i + 1]]) else None
  {
  }

  /** The tag loop of `parseEdge`. */
  method ReadEdgeTags(layer: Layer, feature: Feature) returns (r: Outcome<EdgeTags>)
    ensures r == EdgeTagsFrom(layer, feature.tags, 0, EdgeDefaults(feature.id))
  {
    var tags := feature.tags;
    var t := EdgeDefaults(feature.id);
    var i := 0;
    while i < |tags|
      invariant EdgeTagsFrom(layer, tags, 0, EdgeDefaults(feature.id)) == EdgeTagsFrom(layer, tags, i, t)
      decreases |tags| - i
    {
      if !(0 <= tags[i] < |layer.keys|) || i + 1 >= |tags| || !(0 <= tags[i + 1] < |layer.values|) {
        return Raised(IndexOutOfBounds);
      }
      t := EdgeTag(t, layer.keys[tags[i]], layer.values[tags[i + 1]]);
      i := i + 2;
    }
    r := Ok(t);
  }

  // ---------------------------------------------------------------------------
  // Edge id lists: `String.split(":")` and `Long.parseLong`

  /** All pieces of `s` between colons: one more than there are colons, none holding a colon. */
  function Pieces(s: string): (parts: seq<string>)
    ensures |parts| >= 1
    ensures forall k :: 0 <= k < |parts| ==> ':' !in parts[k]
    decreases |s|
  {
    if s == [] then [""]
    else
      var rest := Pieces(s[1..]);
      if s[0] == ':' then [""] + rest else [[s[0]] + rest[0]] + rest[1..]
  }

  /** `String.join(":", parts)`. */
  function Joined(parts: seq<string>): string
    requires |parts| >= 1
    decreases |parts|
  {
    if |parts| == 1 then parts[0] else parts[0] + ":" + Joined(parts[1..])
  }

  /** Joining the pieces with colons gives the string back. */
  lemma {:induction false} JoinedPieces(s: string)
    ensures Joined(Pieces(s)) == s
    decreases |s|
  {
    if s != [] {
      var rest := Pieces(s[1..]);
      JoinedPieces(s[1..]);
      if s[0] == ':' {
        assert ([""] + rest)[1..] == rest;
      } else {
        var parts := [[s[0]] + rest[0]] + rest[1..];
        if |rest| > 1 {
          assert parts[1..] == rest[1..];
          assert Joined(rest) == rest[0] + ":" + Joined(rest[1..]);
        }
      }
    }
  }

  /** The parts without their trailing empty ones. */
  function WithoutTrailingEmpty(parts: seq<string>): (r: seq<string>)
    ensures r <= parts
    ensures r == [] || r[|r| - 1] != ""
    ensures forall k :: |r| <= k < |parts| ==> parts[k] == ""
  {
    if parts == [] || parts[|parts| - 1] != "" then parts
    else WithoutTrailingEmpty(parts[..|parts| - 1])
  }

  /**
   * `String.split(":")`: a string without a colon comes back whole (the empty string
   * too); otherwise its pieces, trailing empty ones removed.
   */
  function SplitColon(s: string): (parts: seq<string>)
    ensures ':' !in s ==> parts == [s]
    ensures ':' in s ==> parts <= Pieces(s) && (parts == [] || parts[|parts| - 1] != "")
                         && forall k :: |parts| <= k < |Pieces(s)| ==> Pieces(s)[k] == ""
  {
    if ':' !in s then [s] else WithoutTrailingEmpty(Pieces(s))
  }

  predicate IsDigit(c: char) { '0' <= c <= '9' }

  predicate AllDigits(ds: string)
  {
    forall k :: 0 <= k < |ds| ==> IsDigit(ds[k])
  }

  /** The number the decimal digits spell. */
  function DigitsValue(ds: string): nat
    requires AllDigits(ds)
    decreases |ds|
  {
    if ds == [] then 0
    else
      var last: int := ds[|ds| - 1] as int - '0' as int;
      10 * DigitsValue(ds[..|ds| - 1]) + last
  }

  /** The string without its sign, if it has one. */
  function Unsigned(s: string): string
  {
    if s != [] && (s[0] == '-' || s[0] == '+') then s[1..] else s
  }

  /**
   * `Long.parseLong` on ASCII decimal strings: an optional sign, at least one digit, and
   * a value a long can hold; anything else raises.
   */
  function ParseLong(s: string): (r: Outcome<Int64>)
    ensures r.Raised? ==> r.fault == NumberFormat
    ensures r.Ok? ==> Unsigned(s) != [] && AllDigits(Unsigned(s))
                      && r.value == if s[0] == '-' then -(DigitsValue(Unsigned(s)) as int) else DigitsValue(Unsigned(s))
  {
    var digits := Unsigned(s);
    if digits == [] || !AllDigits(digits) then Raised(NumberFormat)
    else
      var v: int := if s[0] == '-' then -(DigitsValue(digits) as int) else DigitsValue(digits);
      if INT64_MIN <= v <= INT64_MAX then Ok(v) else Raised(NumberFormat)
  }

  /** The decimal digits of `n`, as `Long.toString` writes them, without leading zeros. */
  function Digits(n: nat): (ds: string)
    ensures |ds| >= 1 && AllDigits(ds)
    ensures DigitsValue(ds) == n
    decreases n
  {
    var last := ['0' + (n % 10) as char];
    if n < 10 then last
    else
      var ds := Digits(n / 10) + last;
      assert ds[..|ds| - 1] == Digits(n / 10);
      ds
  }

  /** `Long.toString`. */
  function Decimal(n: Int64): string
  {
    if n < 0 then "-" + Digits(-(n as int)) else Digits(n)
  }

  /** Parsing what `Long.toString` writes gives the number back. */
  lemma ParseDecimal(n: Int64)
    ensures ParseLong(Decimal(n)) == Ok(n)
  {
    var s := Decimal(n);
    if n < 0 {
      assert Unsigned(s) == Digits(-(n as int));
    } else {
      assert IsDigit(s[0]) && Unsigned(s) == s;
    }
  }

  /** The loop over the split parts of an `edge_ids` string: the first part that is not a long raises. */
  function ParsedIds(parts: seq<string>): (r: Outcome<seq<Int64>>)
    ensures r.Raised? <==> exists k :: 0 <= k < |parts| && ParseLong(parts[k]).Raised?
    ensures r.Raised? ==> r.fault == NumberFormat
    ensures r.Ok? ==> |r.value| == |parts| && forall k :: 0 <= k < |parts| ==> r.value[k] == ParseLong(parts[k]).value
    decreases |parts|
  {
    if parts == [] then Ok([])
    else
      var first := ParseLong(parts[0]);
      var rest := ParsedIds(parts[1..]);
      if first.Raised? then Raised(first.fault)
      else if rest.Raised? then
        var k :| 0 <= k < |parts[1..]| && ParseLong(parts[1..][k]).Raised?;
        assert parts[1..][k] == parts[k + 1];
        Raised(rest.fault)
      else Ok([first.value] + rest.value)
  }

  /** The `edge_ids` value: one id when it holds an int, else its string split on ':' and parsed. */
  function EdgeIdsOf(value: Value): Outcome<seq<Int64>>
  {
    if value.intValue.Some? then Ok([value.intValue.value]) else ParsedIds(SplitColon(value.GetString()))
  }

  /** A part that does not parse makes the whole list raise. */
  lemma ParsedStops(parts: seq<string>, k: int)
    requires 0 <= k < |parts| && ParseLong(parts[k]).Raised?
    ensures ParsedIds(parts) == Raised(NumberFormat)
  {
  }

  /** Parts that all parse give the list of their values. */
  lemma ParsedAll(parts: seq<string>, ids: seq<Int64>)
    requires |ids| == |parts| && forall j :: 0 <= j < |parts| ==> ParseLong(parts[j]) == Ok(ids[j])
    ensures ParsedIds(parts) == Ok(ids)
  {
    assert ParsedIds(parts).Ok?;
    assert ParsedIds(parts).value == ids;
  }

  /** The `edge_ids` case of `parseDrivablePath`, with its loop over the split parts. */
  method ReadEdgeIds(value: Value) returns (r: Outcome<seq<Int64>>)
    ensures r == EdgeIdsOf(value)
  {
    if value.intValue.Some? {
      return Ok([value.intValue.value]);
    }
    var parts := SplitColon(value.GetString());
    var ids: seq<Int64> := [];
    var k := 0;
    while k < |parts|
      invariant k <= |parts| && |ids| == k
      invariant forall j :: 0 <= j < k ==> ParseLong(parts[j]) == Ok(ids[j])
      decreases |parts| - k
    {
      var id := ParseLong(parts[k]);
      if id.Raised? {
        ParsedStops(parts, k);
        return Raised(id.fault);
      }
      ids := ids + [id.value];
      k := k + 1;
    }
    ParsedAll(parts, ids);
    r := Ok(ids);
  }

  // ---------------------------------------------------------------------------
  // Drivable path tags

  /** The fields `parseDrivablePath` reads from the tags; null where no tag set them. */
  datatype PathTags = PathTags(id: Int64, edgeIds: Option<seq<Int64>>, name: Option<string>, wayType: Option<string>,
                               osmWayId: Option<Int64>, osmMaxSpeed: Option<Int32>)

  function PathDefaults(id: Int64): PathTags
  {
    PathTags(id, None, None, None, None, None)
  }

  /**
   * One case of the `switch` in `parseDrivablePath`: an `edge_ids` value that does not
   * parse raises, and so does a `maxspeed` outside the int range (`Math.toIntExact`).
   */
  function PathTag(t: PathTags, key: string, value: Value): (r: Outcome<PathTags>)
    ensures r.Raised? <==> (key == "edge_ids" && EdgeIdsOf(value).Raised?)
                           || (key == "maxspeed" && !(INT32_MIN <= value.GetInt() <= INT32_MAX))
    ensures r.Ok? ==> r.value.id == if key == "id" then value.GetInt() else t.id
    ensures r.Ok? ==> r.value.edgeIds == if key == "edge_ids" then Some(EdgeIdsOf(value).value) else t.edgeIds
    ensures r.Ok? ==> r.value.name == if key == "name" then Some(value.GetString()) else t.name
    ensures r.Ok? ==> r.value.wayType == if key == "type" then Some(value.GetString()) else t.wayType
    ensures r.Ok? ==> r.value.osmWayId == if key == "osm_way_id" then Some(value.GetInt()) else t.osmWayId
    ensures r.Ok? ==> r.value.osmMaxSpeed == if key == "maxspeed" then Some(value.GetInt() as Int32) else t.osmMaxSpeed
  {
    if key == "id" then Ok(t.(id := value.GetInt()))
    else if key == "edge_ids" then
      var ids := EdgeIdsOf(value);
      if ids.Raised? then Raised(ids.fault) else Ok(t.(edgeIds := Some(ids.value)))
    else if key == "name" then Ok(t.(name := Some(value.GetString())))
    else if key == "type" then Ok(t.(wayType := Some(value.GetString())))
    else if key == "osm_way_id" then Ok(t.(osmWayId := Some(value.GetInt())))
    else if key == "maxspeed" then
      if INT32_MIN <= value.GetInt() <= INT32_MAX then Ok(t.(osmMaxSpeed := Some(value.GetInt() as Int32)))
      else Raised(Arithmetic)
    else Ok(t)
  }

  /** The tag loop of `parseDrivablePath` from pair `i` on: the first failing pair raises. */
  function PathTagsFrom(layer: Layer, tags: seq<Int32>, i: nat, t: PathTags): (r: Outcome<PathTags>)
    ensures r.Ok? ==> WellTagged(layer, tags, i)
    ensures !WellTagged(layer, tags, i) ==> r.Raised?
    decreases |tags| - i
  {
    if i >= |tags| then Ok(t)
    else if !(0 <= tags[i] < |layer.keys|) || i + 1 >= |tags| || !(0 <= tags[i + 1] < |layer.values|) then
      Raised(IndexOutOfBounds)
    else
      var step := PathTag(t, layer.keys[tags[i]], layer.values[tags[i + 1]]);
      if step.Raised? then Raised(step.fault) else PathTagsFrom(layer, tags, i + 2, step.value)
  }

  /**
   * The fields as the last pair with each key sets them, the others as in `t`. (An
   * `edge_ids` or `maxspeed` value that raises never gets here; it is read as empty or 0.)
   */
  function PathTagsOfLast(layer: Layer, tags: seq<Int32>, i: nat, t: PathTags): PathTags
    requires WellTagged(layer, tags, i)
  {
    var ids := LastValue(layer, tags, i, "edge_ids");
    var name := LastValue(layer, tags, i, "name");
    var wayType := LastValue(layer, tags, i, "type");
    var way := LastValue(layer, tags, i, "osm_way_id");
    var speed := LastValue(layer, tags, i, "maxspeed");
    PathTags(LastInt(layer, tags, i, "id", t.id),
             if ids.Some? then Some(var o := EdgeIdsOf(ids.value); if o.Ok? then o.value else []) else t.edgeIds,
             if name.Some? then Some(name.value.GetString()) else t.name,
             if wayType.Some? then Some(wayType.value.GetString()) else t.wayType,
             if way.Some? then Some(way.value.GetInt()) else t.osmWayId,
             if speed.Some? then Some(var v := speed.value.GetInt(); if INT32_MIN <= v <= INT32_MAX then v as Int32 else 0)
             else t.osmMaxSpeed)
  }

  /** When the loop completes, each field is the value of the last pair with its key, or its default. */
  lemma {:induction false} PathTagsLast(layer: Layer, tags: seq<Int32>, i: nat, t: PathTags)
    requires PathTagsFrom(layer, tags, i, t).Ok?
    ensures PathTagsFrom(layer, tags, i, t).value == PathTagsOfLast(layer, tags, i, t)
    decreases |tags| - i
  {
    if i < |tags| {
      var t' := PathTag(t, layer.keys[tags[i]], layer.values[tags[i + 1]]).value;
      PathTagsLast(layer, tags, i + 2, t');
      PathTagAbsorbed(layer, tags, i, t);
    }
  }

  /** Applying the first pair and then the last values from the next pair on gives the last values from the first. */
  lemma PathTagAbsorbed(layer: Layer, tags: seq<Int32>, i: nat, t: PathTags)
    requires WellTagged(layer, tags, i) && i < |tags|
    requires PathTag(t, layer.keys[tags[i]], layer.values[tags[i + 1]]).Ok?
    ensures PathTagsOfLast(layer, tags, i + 2, PathTag(t, layer.keys[tags[i]], layer.values[tags[i + 1]]).value)
            == PathTagsOfLast(layer, tags, i, t)
  {
    LastStep(layer, tags, i, "id");
    LastStep(layer, tags, i, "edge_ids");
    LastStep(layer, tags, i, "name");
    LastStep(layer, tags, i, "type");
    LastStep(layer, tags, i, "osm_way_id");
    LastStep(layer, tags, i, "maxspeed");
  }

  /** The tag loop of `parseDrivablePath`. */
  method ReadPathTags(layer: Layer, feature: Feature) returns (r: Outcome<PathTags>)
    ensures r == PathTagsFrom(layer, feature.tags, 0, PathDefaults(feature.id))
  {
    var tags := feature.tags;
    var t := PathDefaults(feature.id);
    var i := 0;
    while i < |tags|
      invariant PathTagsFrom(layer, tags, 0, PathDefaults(feature.id)) == PathTagsFrom(layer, tags, i, t)
      decreases |tags| - i
    {
      if !(0 <= tags[i] < |layer.keys|) || i + 1 >= |tags| || !(0 <= tags[i + 1] < |layer.values|) {
        return Raised(IndexOutOfBounds);
      }
      var key, value := layer.keys[tags[i]], layer.values[tags[i + 1]];
      if key == "edge_ids" {
        var ids := ReadEdgeIds(value);
        if ids.Raised? {
          return Raised(ids.fault);
        }
        t := t.(edgeIds := Some(ids.value));
      } else {
        var step := PathTag(t, key, value);
        if step.Raised? {
          return Raised(step.fault);
        }
        t := step.value;
      }
      i := i + 2;
    }
    r := Ok(t);
  }

  // ---------------------------------------------------------------------------
  // Features and layers

  /** The decoded points in longitude and latitude. */
  function Projected(extent: Int32, tile: CanonicalTileID, project: Projection, points: seq<TilePoint>): (r: seq<LngLat>)
    ensures |r| == |points| && forall k :: 0 <= k < |points| ==> r[k] == project(extent, tile, points[k])
  {
    seq(|points|, k requires 0 <= k < |points| => project(extent, tile, points[k]))
  }

  /**
   * `parseDrivablePath`: nothing for a dropped geometry or without `edge_ids`; a missing
   * `osm_way_id` or `maxspeed` raises when the null is unboxed for the constructor.
   */
  function PathOf(layer: Layer, feature: Feature, tile: CanonicalTileID, project: Projection): (r: Outcome<Option<DrivablePath>>)
    ensures Decoded(feature.geometry).None? ==> r == Ok(None)
    ensures var tags := PathTagsFrom(layer, feature.tags, 0, PathDefaults(feature.id));
            Decoded(feature.geometry).Some? && tags.Ok? ==>
              (tags.value.edgeIds.None? ==> r == Ok(None))
              && (tags.value.edgeIds.Some? && (tags.value.osmWayId.None? || tags.value.osmMaxSpeed.None?) ==> r == Raised(NullPointer))
              && (tags.value.edgeIds.Some? && tags.value.osmWayId.Some? && tags.value.osmMaxSpeed.Some? ==> r.Ok? && r.value.Some?)
    ensures var tags := PathTagsFrom(layer, feature.tags, 0, PathDefaults(feature.id));
            Decoded(feature.geometry).Some? && tags.Raised? ==> r == Raised(tags.fault)
    ensures var tags := PathTagsFrom(layer, feature.tags, 0, PathDefaults(feature.id));
            r.Ok? && r.value.Some? ==>
              Decoded(feature.geometry).Some? && tags.Ok? && tags.value.edgeIds.Some?
              && var p := r.value.value;
                 p.id == tags.value.id && (forall id :: id in p.edgeIds <==> id in tags.value.edgeIds.value)
                 && p.points == Projected(layer.extent, tile, project, Decoded(feature.geometry).value)
                 && Some(p.osmWayId) == tags.value.osmWayId && Some(p.osmMaxSpeed) == tags.value.osmMaxSpeed
                 && p.name == tags.value.name && p.wayType == ValueOfOptional(tags.value.wayType)
  {
    var geometry := Decoded(feature.geometry);
    if geometry.None? then Ok(None)
    else
      var tags := PathTagsFrom(layer, feature.tags, 0, PathDefaults(feature.id));
      if tags.Raised? then Raised(tags.fault)
      else
        var t := tags.value;
        if t.edgeIds.None? then Ok(None)
        else if t.osmWayId.None? || t.osmMaxSpeed.None? then Raised(NullPointer)
        else
          Ok(Some(DrivablePath(t.id, (set id | id in t.edgeIds.value),
                               Projected(layer.extent, tile, project, geometry.value),
                               t.name, ValueOfOptional(t.wayType), t.osmWayId.value, t.osmMaxSpeed.value)))
  }

  /**
   * `parseEdge`: nothing for a dropped geometry; otherwise the edge of the tags, with
   * defaults for missing ones, bounded by the fourth and second points (south-west and
   * north-east); fewer than four points raise.
   */
  function EdgeOf(layer: Layer, feature: Feature, tile: CanonicalTileID, project: Projection): (r: Outcome<Option<EdgeFields>>)
    ensures Decoded(feature.geometry).None? ==> r == Ok(None)
    ensures Decoded(feature.geometry).Some? && |Decoded(feature.geometry).value| < 4 ==> r.Raised?
    ensures var tags := EdgeTagsFrom(layer, feature.tags, 0, EdgeDefaults(feature.id));
            Decoded(feature.geometry).Some? && tags.Raised? ==> r == Raised(tags.fault)
    ensures var tags := EdgeTagsFrom(layer, feature.tags, 0, EdgeDefaults(feature.id));
            Decoded(feature.geometry).Some? && tags.Ok? && |Decoded(feature.geometry).value| >= 4 ==> r.Ok? && r.value.Some?
    ensures var tags := EdgeTagsFrom(layer, feature.tags, 0, EdgeDefaults(feature.id));
            r.Ok? && r.value.Some? ==>
              Decoded(feature.geometry).Some? && tags.Ok? &&
              var t := tags.value;
              var points := Projected(layer.extent, tile, project, Decoded(feature.geometry).value);
              |points| >= 4 &&
              r.value.value == EdgeFields(t.id, t.length, t.nodeIdIn, t.nodeIdOut, t.counterpartId, t.inverse,
                                          t.osmWayId, 0, None, None, Some(BoundingBox(points[3], points[1])))
  {
    var geometry := Decoded(feature.geometry);
    if geometry.None? then Ok(None)
    else
      var tags := EdgeTagsFrom(layer, feature.tags, 0, EdgeDefaults(feature.id));
      if tags.Raised? then Raised(tags.fault)
      else
        var t := tags.value;
        var points := Projected(layer.extent, tile, project, geometry.value);
        if |points| < 4 then Raised(IndexOutOfBounds)
        else
          Ok(Some(EdgeFields(t.id, t.length, t.nodeIdIn, t.nodeIdOut, t.counterpartId, t.inverse,
                             t.osmWayId, 0, None, None, Some(BoundingBox(points[3], points[1])))))
  }

  /** No two edges share an id. */
  predicate DistinctIds(edges: seq<EdgeFields>)
  {
    forall i, j :: 0 <= i < j < |edges| ==> edges[i].id != edges[j].id
  }

  /** `edges.add(edge)` on a set of edges equal by id: an edge whose id is present is not added. */
  function WithEdge(edges: seq<EdgeFields>, e: EdgeFields): (r: seq<EdgeFields>)
    ensures (exists k :: 0 <= k < |edges| && edges[k].id == e.id) ==> r == edges
    ensures (forall k :: 0 <= k < |edges| ==> edges[k].id != e.id) ==> r == edges + [e]
    ensures DistinctIds(edges) ==> DistinctIds(r)
  {
    if exists k :: 0 <= k < |edges| && edges[k].id == e.id then edges else edges + [e]
  }

  /** The edges and drivable paths parsed so far. */
  datatype Parsed = Parsed(edges: seq<EdgeFields>, paths: seq<DrivablePath>)

  /**
   * `parseFeature`: the layer's name picks the parser; features of any other layer
   * change nothing.
   */
  function FeatureAdded(st: Parsed, layer: Layer, feature: Feature, tile: CanonicalTileID, project: Projection)
    : (r: Outcome<Parsed>)
    ensures layer.name != "drivablePaths" && layer.name != "edges" ==> r == Ok(st)
    ensures r.Ok? && layer.name == "edges" ==> r.value.paths == st.paths
    ensures r.Ok? && layer.name == "drivablePaths" ==> r.value.edges == st.edges
    ensures r.Ok? && DistinctIds(st.edges) ==> DistinctIds(r.value.edges)
  {
    if layer.name == "drivablePaths" then
      var path := PathOf(layer, feature, tile, project);
      if path.Raised? then Raised(path.fault)
      else if path.value.None? then Ok(st)
      else Ok(st.(paths := st.paths + [path.value.value]))
    else if layer.name == "edges" then
      var edge := EdgeOf(layer, feature, tile, project);
      if edge.Raised? then Raised(edge.fault)
      else if edge.value.None? then Ok(st)
      else Ok(st.(edges := WithEdge(st.edges, edge.value.value)))
    else Ok(st)
  }

  /** The features of one layer, in order; the first that raises ends the parse. */
  function FeaturesAdded(st: Parsed, layer: Layer, features: seq<Feature>, tile: CanonicalTileID, project: Projection)
    : (r: Outcome<Parsed>)
    ensures r.Ok? && DistinctIds(st.edges) ==> DistinctIds(r.value.edges)
    decreases |features|
  {
    if features == [] then Ok(st)
    else
      var first := FeatureAdded(st, layer, features[0], tile, project);
      if first.Raised? then first else FeaturesAdded(first.value, layer, features[1..], tile, project)
  }

  /** The layers in order, each with its features. */
  function LayersAdded(st: Parsed, layers: seq<Layer>, tile: CanonicalTileID, project: Projection): (r: Outcome<Parsed>)
    ensures r.Ok? && DistinctIds(st.edges) ==> DistinctIds(r.value.edges)
    decreases |layers|
  {
    if layers == [] then Ok(st)
    else
      var first := FeaturesAdded(st, layers[0], layers[0].features, tile, project);
      if first.Raised? then first else LayersAdded(first.value, layers[1..], tile, project)
  }

  /** What `parseTile` leaves in the parser: everything of the tile, nothing from before. */
  function ParsedTile(tile: Tile, id: CanonicalTileID, project: Projection): (r: Outcome<Parsed>)
    ensures r.Ok? ==> DistinctIds(r.value.edges)
  {
    LayersAdded(Parsed([], []), tile.layers, id, project)
  }

  /** After the rest of the current layer's features, the remaining layers. */
  function ThenLayers(o: Outcome<Parsed>, layers: seq<Layer>, tile: CanonicalTileID, project: Projection): Outcome<Parsed>
  {
    if o.Raised? then o else LayersAdded(o.value, layers, tile, project)
  }

  /**
   * The parser: the edges and drivable paths of the last tile parsed. The edges form a
   * set equal by id; the paths, which have no equality of their own, are all kept.
   */
  class VectorTileParser {
    var edges: seq<EdgeFields>
    var drivablePaths: seq<DrivablePath>
    var tileID: Option<CanonicalTileID>

    constructor ()
      ensures edges == [] && drivablePaths == [] && tileID == None
    {
      edges, drivablePaths, tileID := [], [], None;
    }

    /**
     * `parseTile`: forgets the previous tile and parses every feature of every layer.
     * An exception from a feature escapes, leaving what was parsed before it.
     */
    method ParseTile(id: CanonicalTileID, tile: Tile, project: Projection) returns (r: Outcome<()>)
      modifies this
      ensures tileID == Some(id)
      ensures r.Ok? <==> ParsedTile(tile, id, project).Ok?
      ensures r.Raised? ==> r.fault == ParsedTile(tile, id, project).fault
      ensures r.Ok? ==> Parsed(edges, drivablePaths) == ParsedTile(tile, id, project).value
    {
      tileID := Some(id);
      edges, drivablePaths := [], [];
      var layers := tile.layers;
      var l := 0;
      while l < |layers|
        invariant l <= |layers| && tileID == Some(id)
        invariant ParsedTile(tile, id, project) == LayersAdded(Parsed(edges, drivablePaths), layers[l..], id, project)
        decreases |layers| - l
      {
        assert layers[l..][1..] == layers[l + 1..];
        var layer := layers[l];
        var f := 0;
        while f < |layer.features|
          invariant f <= |layer.features| && tileID == Some(id)
          invariant ParsedTile(tile, id, project)
                    == ThenLayers(FeaturesAdded(Parsed(edges, drivablePaths), layer, layer.features[f..], id, project),
                                  layers[l + 1..], id, project)
          decreases |layer.features| - f
        {
          assert layer.features[f..][1..] == layer.features[f + 1..];
          var step := ParseFeature(layer, layer.features[f], project);
          if step.Raised? {
            return Raised(step.fault);
          }
          f := f + 1;
        }
        l := l + 1;
      }
      r := Ok(());
    }

    /** `parseFeature` for the current tile. */
    method ParseFeature(layer: Layer, feature: Feature, project: Projection) returns (r: Outcome<()>)
      requires tileID.Some?
      modifies this
      ensures tileID == old(tileID)
      ensures var added := FeatureAdded(old(Parsed(edges, drivablePaths)), layer, feature, tileID.value, project);
              (r.Ok? <==> added.Ok?) && (r.Raised? ==> r.fault == added.fault)
              && (r.Ok? ==> Parsed(edges, drivablePaths) == added.value)
    {
      if layer.name == "drivablePaths" {
        var path := ParseDrivablePath(layer, feature, project);
        if path.Raised? {
          return Raised(path.fault);
        }
        if path.value.Some? {
          drivablePaths := drivablePaths + [path.value.value];
        }
      } else if layer.name == "edges" {
        var edge := ParseEdge(layer, feature, project);
        if edge.Raised? {
          return Raised(edge.fault);
        }
        if edge.value.Some? {
          edges := WithEdge(edges, edge.value.value);
        }
      }
      r := Ok(());
    }

    /** The decoding part of `parseDrivablePath`: the path it would add, if any. */
    method ParseDrivablePath(layer: Layer, feature: Feature, project: Projection) returns (r: Outcome<Option<DrivablePath>>)
      requires tileID.Some?
      ensures r == PathOf(layer, feature, tileID.value, project)
    {
      var geometry := DecodeGeometry(feature.geometry);
      if geometry.None? {
        return Ok(None);
      }
      var tags := ReadPathTags(layer, feature);
      if tags.Raised? {
        return Raised(tags.fault);
      }
      var t := tags.value;
      if t.edgeIds.None? {
        return Ok(None);
      }
      if t.osmWayId.None? || t.osmMaxSpeed.None? {
        return Raised(NullPointer);
      }
      var points := Projected(layer.extent, tileID.value, project, geometry.value);
      r := Ok(Some(DrivablePath(t.id, (set id | id in t.edgeIds.value), points,
                                t.name, ValueOfOptional(t.wayType), t.osmWayId.value, t.osmMaxSpeed.value)));
    }

    /** The decoding part of `parseEdge`: the edge it would add, if any. */
    method ParseEdge(layer: Layer, feature: Feature, project: Projection) returns (r: Outcome<Option<EdgeFields>>)
      requires tileID.Some?
      ensures r == EdgeOf(layer, feature, tileID.value, project)
    {
      var geometry := DecodeGeometry(feature.geometry);
      if geometry.None? {
        return Ok(None);
      }
      var tags := ReadEdgeTags(layer, feature);
      if tags.Raised? {
        return Raised(tags.fault);
      }
      var t := tags.value;
      var points := Projected(layer.extent, tileID.value, project, geometry.value);
      if |points| < 4 {
        return Raised(IndexOutOfBounds);
      }
      r := Ok(Some(EdgeFields(t.id, t.length, t.nodeIdIn, t.nodeIdOut, t.counterpartId, t.inverse,
                              t.osmWayId, 0, None, None, Some(BoundingBox(points[3], points[1])))));
    }
  }
}
