/**
 * Slippy-map tile coordinates: unwrapped ids (x may lie outside the world), their
 * canonical form (x wrapped round the globe, y clamped to the map), and the tile
 * cover of a bounding box. Java's 32-bit int arithmetic is modelled exactly.
 */
module Tiles {
  import opened Util
  import opened Geo

  /** A tile coordinate inside the world at zoom level z. */
  datatype CanonicalTileID = CanonicalTileID(z: Int32, x: Int32, y: Int32)
  {
    /** `CanonicalTileID.hashCode`: 31·(31·z + x) + y in wrapping int arithmetic. */
    function HashCode(): (h: Int32)
      ensures (h - (31 * (31 * z + x) + y)) % TWO_32 == 0
    {
      var first := Wrap32(31 * z + x);
      WrapCongruent(first, 31 * z + x, 31, y);
      Wrap32(31 * first + y)
    }
  }

  /** A tile coordinate whose x may lie outside the world (it goes round the globe). */
  datatype UnwrappedTileID = UnwrappedTileID(z: Int32, x: Int32, y: Int32)
  {
    /**
     * `toCanonicalTileID`: the canonical tile built from this one, by the corrected
     * constructor; it is the tile the code as written builds wherever that code does
     * not overflow.
     */
    function ToCanonical(): (c: CanonicalTileID)
      ensures 0 <= z <= 30 && x >= INT32_MIN + Pow2(z as nat) - 1 ==> c == CanonicalOfAsWritten(this)
    {
      if 0 <= z <= 30 && x >= INT32_MIN + Pow2(z as nat) - 1 then CanonicalOfAgrees(this); CanonicalOf(this)
      else CanonicalOf(this)
    }
  }

  function MinInt(a: int, b: int): int { if a < b then a else b }

  /**
   * The canonical constructor exactly as written: the wrap count is the truncating
   * quotient of x, shifted down by 2^z - 1 when negative, and every step wraps to 32 bits.
   */
  function CanonicalOfAsWritten(u: UnwrappedTileID): (c: CanonicalTileID)
    ensures c.z == u.z
    ensures 0 <= u.z <= 30 ==> (c.x - u.x) % Pow2(u.z as nat) == 0
    ensures 0 <= u.z <= 30 ==>
              c.y == (if u.y < 0 then 0 else if u.y > Pow2(u.z as nat) - 1 then Pow2(u.z as nat) - 1 else u.y)
  {
    var d := Shl1(u.z);
    Shl1NonZero(u.z);
    Shl1WhenSmall(u.z);
    var c := CanonicalTileID(u.z, WrapColumnAsWritten(u.x, d), if u.y < 0 then 0 else MinInt(u.y, Wrap32(d - 1)));
    if 0 <= u.z <= 30 then
      Pow2Divides(u.z as nat);
      WrapColumnCongruent(u.x, d, Pow2(32 - u.z as nat));
      c
    else c
  }

  /**
   * Every step of the column wrap is exact modulo 2^32, a multiple of 2^z, so even
   * where it overflows the wrapped column stays congruent to x modulo 2^z.
   */
  lemma WrapColumnCongruent(x: Int32, d: Int32, e: int)
    requires d > 0 && d * e == TWO_32
    ensures (WrapColumnAsWritten(x, d) - x) % d == 0
  {
    var wrap := Wrap32(JavaDiv(if x < 0 then Wrap32(Wrap32(x - d) + 1) else x, d));
    CongruentModFactor(x, wrap, Wrap32(wrap * d), WrapColumnAsWritten(x, d), d, e);
  }

  /** 2^z divides 2^32 for z <= 32. */
  lemma Pow2Divides(z: nat)
    requires z <= 32
    ensures Pow2(z) * Pow2(32 - z) == TWO_32
  {
    Pow2Add(z, 32 - z);
    Pow2ThirtyTwo();
  }

  /** Differences that are multiples of d·e, plus a multiple of d, leave x unchanged modulo d. */
  lemma CongruentModFactor(x: int, w: int, p: int, c: int, d: int, e: int)
    requires d > 0 && TWO_32 == d * e
    requires (p - w * d) % TWO_32 == 0 && (c - (x - p)) % TWO_32 == 0
    ensures (c - x) % d == 0
  {
    var k1 := (p - w * d) / TWO_32;
    var k2 := (c - (x - p)) / TWO_32;
    assert p - w * d == TWO_32 * k1;
    assert c - (x - p) == TWO_32 * k2;
    MultipleOfFactor(c - x, p, w, d, e, k1, k2);
    DivUnique(c - x, d, e * k2 - e * k1 - w, 0);
  }

  /** A sum of multiples of d·e and of d is a multiple of d. */
  lemma MultipleOfFactor(m: int, p: int, w: int, d: int, e: int, k1: int, k2: int)
    requires p - w * d == (d * e) * k1 && m + p == (d * e) * k2
    ensures m == (e * k2 - e * k1 - w) * d
  {
    assert (d * e) * k1 == (e * k1) * d;
    assert (d * e) * k2 == (e * k2) * d;
    assert (e * k2 - e * k1 - w) * d == (e * k2) * d - (e * k1) * d - w * d;
  }

  /** `x - wrap * (1 << z)` with `wrap = (x < 0 ? x - (1 << z) + 1 : x) / (1 << z)`, all in int arithmetic. */
  function WrapColumnAsWritten(x: Int32, d: Int32): Int32
    requires d != 0
  {
    var wrap := Wrap32(JavaDiv(if x < 0 then Wrap32(Wrap32(x - d) + 1) else x, d));
    Wrap32(x - Wrap32(wrap * d))
  }

  /** The counterexample: at zoom 1, x = Integer.MIN_VALUE lands on x = 2, outside [0, 2). */
  lemma CanonicalOfAsWrittenOverflows()
    ensures CanonicalOfAsWritten(UnwrappedTileID(1, INT32_MIN, 0)).x == 2
  {
    assert Pow2(1) == 2;
    assert Shl1(1) == 2;
    assert Wrap32(INT32_MIN - 2) == INT32_MAX - 1;
    assert Wrap32(INT32_MAX) == INT32_MAX;
    assert JavaDiv(INT32_MAX, 2) == 0x3fff_ffff;
    assert Wrap32(0x3fff_ffff * 2) == INT32_MAX - 1;
    assert Wrap32(INT32_MIN - (INT32_MAX - 1)) == 2;
  }

  /**
   * The canonical constructor as intended: x reduced modulo 2^z (floor modulo, so a
   * negative x wraps westwards) and y clamped to [0, 2^z - 1].
   */
  function CanonicalOf(u: UnwrappedTileID): (c: CanonicalTileID)
    ensures c.z == u.z
    ensures 0 <= u.z <= 30 ==> 0 <= c.x < Pow2(u.z as nat) && 0 <= c.y < Pow2(u.z as nat)
    ensures 0 <= u.z <= 30 ==> (c.x - u.x) % Pow2(u.z as nat) == 0
    ensures 0 <= u.z <= 30 && 0 <= u.x < Pow2(u.z as nat) ==> c.x == u.x
    ensures 0 <= u.z <= 30 ==>
              c.y == (if u.y < 0 then 0 else if u.y > Pow2(u.z as nat) - 1 then Pow2(u.z as nat) - 1 else u.y)
  {
    var d := Shl1(u.z);
    Shl1NonZero(u.z);
    Shl1WhenSmall(u.z);
    ModFacts(u.x, d);
    CanonicalTileID(u.z, u.x % d, if u.y < 0 then 0 else MinInt(u.y, Wrap32(d - 1)))
  }

  /** Floor modulo lands in [0, |d|), differs from x by a multiple of d, and keeps an x already in range. */
  lemma ModFacts(x: int, d: int)
    requires d != 0
    ensures 0 <= x % d < (if d > 0 then d else -d)
    ensures d > 0 ==> (x % d - x) % d == 0
    ensures d > 0 && 0 <= x < d ==> x % d == x
  {
    if d > 0 {
      assert x == (x / d) * d + x % d;
      DivUnique(x % d - x, d, -(x / d), 0);
      if 0 <= x < d {
        DivUnique(x, d, 0, x);
      }
    }
  }

  lemma {:induction false} MulAtLeast(a: int, d: int)
    requires a >= 1 && d > 0
    ensures a * d >= d
  {
    if a > 1 {
      MulAtLeast(a - 1, d);
      assert a * d == (a - 1) * d + d;
    }
  }

  /** Multiples of d that differ differ by at least d. */
  lemma MultiplesApart(a: int, b: int, d: int)
    requires a > b && d > 0
    ensures a * d - b * d >= d
  {
    MulAtLeast(a - b, d);
    assert (a - b) * d == a * d - b * d;
  }

  /** Euclidean division is unique: a quotient and a remainder in [0, d) are the ones `/` and `%` give. */
  lemma DivUnique(m: int, d: int, q: int, r: int)
    requires d > 0 && m == q * d + r && 0 <= r < d
    ensures m / d == q && m % d == r
  {
    var q' := m / d;
    assert m == q' * d + m % d;
    if q' > q {
      MultiplesApart(q', q, d);
    } else if q' < q {
      MultiplesApart(q, q', d);
    }
  }

  /**
   * Where no intermediate value overflows, the code as written computes the intended
   * floor modulo: x = q·2^z + r with 0 <= r < 2^z gives back r.
   */
  lemma {:induction false} CanonicalOfAgrees(u: UnwrappedTileID)
    requires 0 <= u.z <= 30
    requires u.x >= INT32_MIN + Pow2(u.z as nat) - 1
    ensures CanonicalOfAsWritten(u) == CanonicalOf(u)
  {
    Shl1Exact(u.z as int);
    WrapColumnAgrees(u.x, Pow2(u.z as nat));
  }

  lemma WrapColumnAgrees(x: Int32, d: int)
    requires 0 < d <= 0x4000_0000 && x >= INT32_MIN + d - 1
    ensures WrapColumnAsWritten(x, d) == x % d
  {
    var q := x / d;
    var qd := q * d;
    WrapQuotient(x, d);
    ModFacts(x, d);
    DivMod(x, d);
    QuotientRange(x, d, q, qd);
    calc {
      WrapColumnAsWritten(x, d);
      Wrap32(x - Wrap32(Wrap32(q) * d));
      { WrapInRange(q); }
      Wrap32(x - Wrap32(qd));
      { WrapInRange(qd); }
      Wrap32(x - qd);
      { WrapInRange(x - qd); }
      x - qd;
      x % d;
    }
  }

  lemma DivMod(x: int, d: int)
    requires d > 0
    ensures x == (x / d) * d + x % d
  {}

  /** The multiple of d below an int x that leaves room for d is itself an int, as is its factor. */
  lemma QuotientRange(x: int, d: int, q: int, qd: int)
    requires 0 < d && qd == q * d && x - d < qd <= x
    requires INT32_MIN + d - 1 <= x <= INT32_MAX
    ensures INT32_MIN <= q <= INT32_MAX && INT32_MIN <= qd <= INT32_MAX
  {
    if q >= 0 {
      ScaleUp(q, d);
    } else {
      ScaleDown(q, d);
    }
  }

  lemma ScaleUp(q: int, d: int)
    requires q >= 0 && d >= 1
    ensures q * d >= q
  {
    assert q * d == q + q * (d - 1);
  }

  lemma ScaleDown(q: int, d: int)
    requires q < 0 && d >= 1
    ensures q * d <= q
  {
    assert q * d == q + q * (d - 1);
  }

  /** The truncating quotient of the shifted x is the floor quotient of x. */
  lemma WrapQuotient(x: Int32, d: int)
    requires 0 < d <= 0x4000_0000 && x >= INT32_MIN + d - 1
    ensures JavaDiv(if x < 0 then Wrap32(Wrap32(x - d) + 1) else x, d) == x / d
  {
    var q := x / d;
    var r := x % d;
    assert x == q * d + r;
    if x < 0 {
      var a := x - d + 1;
      WrapCongruentInRange(Wrap32(x - d) + 1, a);
      var nq := -q;
      assert nq * d == -(q * d);
      assert -a == nq * d + (d - 1 - r);
      DivUnique(-a, d, nq, d - 1 - r);
    } else {
      DivUnique(x, d, q, r);
    }
  }

  /**
   * `new UnwrappedTileID(point, zoom)`: `raw` is the (x, y) the slippy-map formulas
   * give for the point, already cast to int; the constructor then clamps it.
   */
  function UnwrappedOfPoint(raw: (Int32, Int32), zoom: Int32): (u: UnwrappedTileID)
    ensures u.z == zoom
    ensures 0 <= zoom <= 30 ==> 0 <= u.x < Pow2(zoom as nat) && 0 <= u.y < Pow2(zoom as nat)
    ensures 0 <= zoom <= 30 && 0 <= raw.0 < Pow2(zoom as nat) ==> u.x == raw.0
    ensures 0 <= zoom <= 30 && 0 <= raw.1 < Pow2(zoom as nat) ==> u.y == raw.1
    ensures 0 <= zoom <= 30 && raw.0 < 0 ==> u.x == 0
    ensures 0 <= zoom <= 30 && raw.0 >= Pow2(zoom as nat) ==> u.x == Pow2(zoom as nat) - 1
    ensures 0 <= zoom <= 30 && raw.1 < 0 ==> u.y == 0
    ensures 0 <= zoom <= 30 && raw.1 >= Pow2(zoom as nat) ==> u.y == Pow2(zoom as nat) - 1
  {
    Shl1WhenSmall(zoom);
    var x := ClampTile(raw.0, zoom);
    var y := ClampTile(raw.1, zoom);
    UnwrappedTileID(zoom, x, y)
  }

  /** The two clamping steps the point constructor applies to each coordinate. */
  function ClampTile(v: Int32, zoom: Int32): Int32
  {
    var v1 := if v < 0 then 0 else v;
    if v1 >= Shl1(zoom) then Wrap32(Shl1(zoom) - 1) else v1
  }

  /** The canonical tiles of the scan-lines x0..x1 by y0..y1 at one zoom level. */
  function Scan(zoom: Int32, x0: int, x1: int, y0: int, y1: int): set<CanonicalTileID>
    requires INT32_MIN <= x0 && x1 <= INT32_MAX && INT32_MIN <= y0 && y1 <= INT32_MAX
  {
    set x: int, y: int | x0 <= x <= x1 && y0 <= y <= y1 :: UnwrappedTileID(zoom, x, y).ToCanonical()
  }

  /**
   * The corner tiles `TileCover.get` scans between, or None when it returns at once
   * (an empty box, a box wholly north of the map, or a west edge below -85.0511).
   */
  function CoverCorners(bounds: BoundingBox, zoom: Int32, project: (LngLat, Int32) -> (Int32, Int32))
    : Option<(UnwrappedTileID, UnwrappedTileID)>
  {
    if IsEmpty(bounds) || bounds.South() > LATITUDE_MAX || bounds.West() < -LATITUDE_MAX then None
    else
      var hull := FromCoordinates(LngLat(bounds.West(), Max(bounds.South(), -LATITUDE_MAX)),
                                  LngLat(bounds.East(), Min(bounds.North(), LATITUDE_MAX)));
      Some((UnwrappedOfPoint(project(hull.southwest, zoom), zoom),
            UnwrappedOfPoint(project(hull.northeast, zoom), zoom)))
  }

  /** The set `TileCover.get` returns. */
  function CoverSpec(bounds: BoundingBox, zoom: Int32, project: (LngLat, Int32) -> (Int32, Int32))
    : set<CanonicalTileID>
  {
    match CoverCorners(bounds, zoom, project)
    case None => {}
    case Some((sw, ne)) => Scan(zoom, sw.x, ne.x, ne.y, sw.y)
  }

  /**
   * `TileCover.get`: scan-lines from the south-west tile's x to the north-east tile's x,
   * and from the north-east tile's y down to the south-west tile's y. `project` is the
   * slippy-map projection of a point at a zoom level, cast to int.
   */
  method Cover(bounds: BoundingBox, zoom: Int32, project: (LngLat, Int32) -> (Int32, Int32))
    returns (tiles: set<CanonicalTileID>)
    requires 0 <= zoom <= 30
    ensures tiles == CoverSpec(bounds, zoom, project)
  {
    tiles := {};
    var corners := CoverCorners(bounds, zoom, project);
    if corners.None? {
      return;
    }
    var sw := corners.value.0;
    var ne := corners.value.1;
    tiles := ScanLines(zoom, sw.x, ne.x, ne.y, sw.y);
  }

  /** The two nested for-loops of `TileCover.get`, x outermost. */
  method ScanLines(zoom: Int32, x0: Int32, x1: Int32, y0: Int32, y1: Int32) returns (tiles: set<CanonicalTileID>)
    ensures tiles == Scan(zoom, x0, x1, y0, y1)
  {
    tiles := {};
    var x := x0 as int;
    ScanEmpty(zoom, x0, x - 1, y0, y1);
    while x <= x1
      invariant x0 <= x && (x <= x1 + 1 || x == x0)
      invariant tiles == Scan(zoom, x0, x - 1, y0, y1)
    {
      var column := ScanColumn(zoom, x, y0, y1);
      ScanGrowX(zoom, x0, x, y0, y1);
      tiles := tiles + column;
      x := x + 1;
    }
    if x == x0 {
      ScanEmpty(zoom, x0, x1, y0, y1);
    }
  }

  /** The inner for-loop of `TileCover.get`: one column of tiles. */
  method ScanColumn(zoom: Int32, x: Int32, y0: Int32, y1: Int32) returns (tiles: set<CanonicalTileID>)
    ensures tiles == Scan(zoom, x, x, y0, y1)
  {
    tiles := {};
    var y := y0 as int;
    ScanEmpty(zoom, x, x, y0, y - 1);
    while y <= y1
      invariant y0 <= y && (y <= y1 + 1 || y == y0)
      invariant tiles == Scan(zoom, x, x, y0, y - 1)
    {
      ScanGrowY(zoom, x, y0, y);
      tiles := tiles + {UnwrappedTileID(zoom, x, y).ToCanonical()};
      y := y + 1;
    }
    if y == y0 {
      ScanEmpty(zoom, x, x, y0, y1);
    }
  }

  lemma ScanEmpty(zoom: Int32, x0: int, x1: int, y0: int, y1: int)
    requires INT32_MIN <= x0 && x1 <= INT32_MAX && INT32_MIN <= y0 && y1 <= INT32_MAX
    requires x1 < x0 || y1 < y0
    ensures Scan(zoom, x0, x1, y0, y1) == {}
  {}

  lemma ScanGrowY(zoom: Int32, x: Int32, y0: int, y: Int32)
    requires INT32_MIN <= y0 <= y
    ensures Scan(zoom, x, x, y0, y) == Scan(zoom, x, x, y0, y - 1) + {UnwrappedTileID(zoom, x, y).ToCanonical()}
  {
    var t := UnwrappedTileID(zoom, x, y).ToCanonical();
    assert t in Scan(zoom, x, x, y0, y);
  }

  lemma ScanGrowX(zoom: Int32, x0: int, x: Int32, y0: int, y1: int)
    requires INT32_MIN <= x0 <= x && INT32_MIN <= y0 && y1 <= INT32_MAX
    ensures Scan(zoom, x0, x, y0, y1) == Scan(zoom, x0, x - 1, y0, y1) + Scan(zoom, x, x, y0, y1)
  {}

  /** Every tile of a cover lies inside the world at the requested zoom. */
  lemma CoverTilesInWorld(bounds: BoundingBox, zoom: Int32, project: (LngLat, Int32) -> (Int32, Int32),
                          t: CanonicalTileID)
    requires 0 <= zoom <= 30
    requires t in CoverSpec(bounds, zoom, project)
    ensures t.z == zoom && 0 <= t.x < Pow2(zoom as nat) && 0 <= t.y < Pow2(zoom as nat)
  {}

  /** The early returns: an empty box, or one north of the map or west of -85.0511, has no tiles. */
  lemma CoverEmptyCases(bounds: BoundingBox, zoom: Int32, project: (LngLat, Int32) -> (Int32, Int32))
    requires IsEmpty(bounds) || bounds.South() > LATITUDE_MAX || bounds.West() < -LATITUDE_MAX
    ensures CoverSpec(bounds, zoom, project) == {}
  {}

  /** When the scan ranges are non-empty, both corner tiles are in the cover. */
  lemma CoverHasCorners(bounds: BoundingBox, zoom: Int32, project: (LngLat, Int32) -> (Int32, Int32))
    requires 0 <= zoom <= 30
    requires CoverCorners(bounds, zoom, project).Some?
    requires CoverCorners(bounds, zoom, project).value.0.x <= CoverCorners(bounds, zoom, project).value.1.x
    requires CoverCorners(bounds, zoom, project).value.1.y <= CoverCorners(bounds, zoom, project).value.0.y
    ensures CoverCorners(bounds, zoom, project).value.0.ToCanonical() in CoverSpec(bounds, zoom, project)
    ensures CoverCorners(bounds, zoom, project).value.1.ToCanonical() in CoverSpec(bounds, zoom, project)
  {
    var sw := CoverCorners(bounds, zoom, project).value.0;
    var ne := CoverCorners(bounds, zoom, project).value.1;
    assert UnwrappedTileID(zoom, sw.x, sw.y) == sw;
    assert UnwrappedTileID(zoom, ne.x, ne.y) == ne;
  }
}
