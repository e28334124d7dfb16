/**
 * Shared vocabulary: optional values, the unchecked Java exceptions the engine can
 * raise, Java's 32- and 64-bit integer arithmetic, ASCII case folding, and the
 * "first extreme element" choice made by java.util.stream's min and max.
 */
module Util {

  /** A Java reference that may be null. */
  datatype Option<T> = None | Some(value: T)

  /** The unchecked exceptions that escape from the modelled code. */
  datatype Fault =
    | NullPointer        // a null reference is dereferenced or unboxed
    | IndexOutOfBounds   // List.get or a protobuf repeated field outside its range
    | IllegalArgument    // Guava's network rejects an edge
    | NumberFormat       // Long.parseLong on a malformed string
    | Arithmetic         // Math.toIntExact outside the int range

  /** The outcome of a Java call: a returned value or an exception that escaped. */
  datatype Outcome<T> = Ok(value: T) | Raised(fault: Fault)

  const INT32_MIN: int := -0x8000_0000
  const INT32_MAX: int := 0x7fff_ffff
  const INT64_MIN: int := -0x8000_0000_0000_0000
  const INT64_MAX: int := 0x7fff_ffff_ffff_ffff
  const TWO_32: int := 0x1_0000_0000

  type Int32 = v: int | INT32_MIN <= v <= INT32_MAX
  type Int64 = v: int | INT64_MIN <= v <= INT64_MAX

  /** Java's two's-complement reduction of an exact result to an int. */
  function Wrap32(v: int): (r: Int32)
    ensures (r - v) % TWO_32 == 0
    ensures INT32_MIN <= v <= INT32_MAX ==> r == v
  {
    var m := (v - INT32_MIN) % TWO_32;
    m + INT32_MIN
  }

  /** Wrapping a value congruent to an int already in range gives that int. */
  lemma WrapCongruentInRange(v: int, w: int)
    requires (v - w) % TWO_32 == 0 && INT32_MIN <= w <= INT32_MAX
    ensures Wrap32(v) == w
  {
    var k := (v - w) / TWO_32;
    assert v - w == k * TWO_32;
    assert (v - INT32_MIN) == k * TWO_32 + (w - INT32_MIN);
    assert (v - INT32_MIN) % TWO_32 == w - INT32_MIN;
  }

  /** Congruence modulo 2^32 is transitive. */
  lemma CongruentTrans(x: int, y: int, z: int)
    requires (x - y) % TWO_32 == 0 && (y - z) % TWO_32 == 0
    ensures (x - z) % TWO_32 == 0
  {
    var k1, k2 := (x - y) / TWO_32, (y - z) / TWO_32;
    assert x - z == TWO_32 * (k1 + k2);
  }

  /** Wrapping modulo 2^32 commutes with `m·w + c`. */
  lemma WrapCongruent(w: int, v: int, m: int, c: int)
    requires (w - v) % TWO_32 == 0
    ensures ((m * w + c) - (m * v + c)) % TWO_32 == 0
  {
    var k := (w - v) / TWO_32;
    assert w - v == TWO_32 * k;
    assert (m * w + c) - (m * v + c) == TWO_32 * (m * k);
  }

  function Pow2(n: nat): (r: nat)
    ensures r >= 1
  {
    if n == 0 then 1 else 2 * Pow2(n - 1)
  }

  lemma {:induction false} Pow2Monotone(m: nat, n: nat)
    requires m <= n
    ensures Pow2(m) <= Pow2(n)
  {
    if m < n {
      Pow2Monotone(m, n - 1);
    }
  }

  /** Java's `1 << z` on ints: the shift distance is taken modulo 32. */
  function Shl1(z: int): Int32
  {
    Wrap32(Pow2(z % 32))
  }

  lemma {:induction false} Pow2Add(m: nat, n: nat)
    ensures Pow2(m + n) == Pow2(m) * Pow2(n)
  {
    if n > 0 {
      Pow2Add(m, n - 1);
    }
  }

  lemma Pow2ThirtyTwo()
    ensures Pow2(32) == TWO_32
  {
    Pow2Thirty();
    assert Pow2(32) == 4 * Pow2(30);
  }

  lemma Pow2Thirty()
    ensures Pow2(30) == 0x4000_0000
  {
    assert Pow2(5) == 32;
    Pow2Add(5, 5);
    Pow2Add(10, 10);
    Pow2Add(20, 10);
  }

  lemma Shl1Exact(z: int)
    requires 0 <= z <= 30
    ensures Shl1(z) == Pow2(z)
    ensures Pow2(z) <= 0x4000_0000
  {
    Pow2Monotone(z, 30);
    Pow2Thirty();
    SmallDistance(z);
    WrapInRange(Pow2(z));
  }

  lemma SmallDistance(z: int)
    requires 0 <= z < 32
    ensures z % 32 == z
  {}

  /** Wrapping a value already in range leaves it alone. */
  lemma WrapInRange(v: int)
    requires INT32_MIN <= v <= INT32_MAX
    ensures Wrap32(v) == v
  {}

  lemma Shl1WhenSmall(z: int)
    ensures 0 <= z <= 30 ==> Shl1(z) == Pow2(z) && Pow2(z) <= 0x4000_0000
  {
    if 0 <= z <= 30 {
      Shl1Exact(z);
    }
  }

  /** `1 << z` is never zero: it is a power of two, or Integer.MIN_VALUE for a distance of 31. */
  lemma Shl1NonZero(z: int)
    ensures Shl1(z) != 0
  {
    var k := z % 32;
    if k <= 30 {
      Shl1Exact(k);
      assert Shl1(z) == Shl1(k);
    } else {
      Pow2Thirty();
      assert Pow2(31) == 2 * Pow2(30);
    }
  }

  /** Java's integer division, which truncates toward zero. */
  function JavaDiv(a: int, b: int): int
    requires b != 0
  {
    if a >= 0 then
      (if b > 0 then a / b else -(a / -b))
    else
      (if b > 0 then -((-a) / b) else (-a) / (-b))
  }

  /** Java's remainder on doubles: the sign follows the dividend. */
  function Trunc(x: real): int
  {
    if x >= 0.0 then x.Floor else -((-x).Floor)
  }

  function JavaRem(a: real, b: real): (r: real)
    requires b > 0.0
    ensures a >= 0.0 ==> 0.0 <= r < b
    ensures a < 0.0 ==> -b < r <= 0.0
  {
    TruncBounds(a, b);
    a - b * (Trunc(a / b) as real)
  }

  lemma TruncBounds(a: real, b: real)
    requires b > 0.0
    ensures a >= 0.0 ==> a - b < b * (Trunc(a / b) as real) <= a
    ensures a < 0.0 ==> a <= b * (Trunc(a / b) as real) < a + b
  {
    var y := a / b;
    var q := Trunc(y) as real;
    QuotientTimesDivisor(a, b);
    TruncRange(y);
    ScaledQuotient(a, b, y, q);
  }

  /** The bounds on `b * q` for a quotient `y` of `a` by `b` and its truncation `q`. */
  lemma ScaledQuotient(a: real, b: real, y: real, q: real)
    requires b > 0.0 && b * y == a
    requires a >= 0.0 ==> y - 1.0 < q <= y
    requires a < 0.0 ==> y <= q < y + 1.0
    ensures a >= 0.0 ==> a - b < b * q <= a
    ensures a < 0.0 ==> a <= b * q < a + b
  {
    if a >= 0.0 {
      ScaledBelow(b, y, q);
      calc { a - b; == b * y - b; < b * q; }
      calc { b * q; <= b * y; == a; }
    } else {
      ScaledAbove(b, y, q);
      calc { a; == b * y; <= b * q; }
      calc { b * q; < b * y + b; == a + b; }
    }
  }

  /** Scaling `y - 1 < q <= y` by a positive `b`. */
  lemma ScaledBelow(b: real, y: real, q: real)
    requires b > 0.0 && y - 1.0 < q <= y
    ensures b * y - b < b * q <= b * y
  {
    PositiveProduct(b, q - y + 1.0);
    Distribute(b, q - y, -1.0);
    Distribute(b, q, y);
    NonNegativeProduct(b, y - q);
    Distribute(b, y, q);
  }

  /** Scaling `y <= q < y + 1` by a positive `b`. */
  lemma ScaledAbove(b: real, y: real, q: real)
    requires b > 0.0 && y <= q < y + 1.0
    ensures b * y <= b * q < b * y + b
  {
    NonNegativeProduct(b, q - y);
    Distribute(b, q, y);
    PositiveProduct(b, y + 1.0 - q);
    Distribute(b, y - q, -1.0);
    Distribute(b, y, q);
  }

  lemma Distribute(b: real, u: real, v: real)
    ensures b * (u - v) == b * u - b * v
  {}

  lemma QuotientTimesDivisor(a: real, b: real)
    requires b > 0.0
    ensures b * (a / b) == a
    ensures a >= 0.0 <==> a / b >= 0.0
  {}

  lemma TruncRange(y: real)
    ensures y >= 0.0 ==> y - 1.0 < Trunc(y) as real <= y
    ensures y < 0.0 ==> y <= Trunc(y) as real < y + 1.0
  {}

  lemma PositiveProduct(a: real, b: real)
    requires a > 0.0 && b > 0.0
    ensures a * b > 0.0
  {}

  lemma NonNegativeProduct(a: real, b: real)
    requires a > 0.0 && b >= 0.0
    ensures a * b >= 0.0
  {}

  function Abs(x: real): (r: real)
    ensures r >= 0.0 && (r == x || r == -x)
  {
    if x < 0.0 then -x else x
  }

  function Min(a: real, b: real): real { if a < b then a else b }
  function Max(a: real, b: real): real { if a > b then a else b }

  /** Upper-casing of the ASCII letters; every other character is kept. */
  function UpperChar(c: char): char
  {
    if 'a' <= c <= 'z' then (c as int - 'a' as int + 'A' as int) as char else c
  }

  function Upper(s: string): (r: string)
    ensures |r| == |s|
    ensures forall i :: 0 <= i < |s| ==> r[i] == UpperChar(s[i])
  {
    if s == [] then [] else [UpperChar(s[0])] + Upper(s[1..])
  }

  function Sum(xs: seq<real>): real
  {
    if xs == [] then 0.0 else Sum(xs[..|xs| - 1]) + xs[|xs| - 1]
  }

  lemma {:induction false} SumAppend(xs: seq<real>, ys: seq<real>)
    ensures Sum(xs + ys) == Sum(xs) + Sum(ys)
  {
    if ys == [] {
      assert xs + ys == xs;
    } else {
      assert (xs + ys)[..|xs + ys| - 1] == xs + ys[..|ys| - 1];
      SumAppend(xs, ys[..|ys| - 1]);
    }
  }

  /**
   * The index of the element `Stream.max(comparator)` returns: a maximal element,
   * the first one when several are maximal.
   */
  function FirstMaxIndex(xs: seq<real>): (i: nat)
    requires |xs| > 0
    ensures i < |xs|
    ensures forall j :: 0 <= j < |xs| ==> xs[j] <= xs[i]
    ensures forall j :: 0 <= j < i ==> xs[j] < xs[i]
  {
    if |xs| == 1 then 0
    else
      var k := FirstMaxIndex(xs[..|xs| - 1]);
      if xs[|xs| - 1] > xs[k] then |xs| - 1 else k
  }

  /** The index of the element `Stream.min(comparator)` returns: the first minimal one. */
  function FirstMinIndex(xs: seq<real>): (i: nat)
    requires |xs| > 0
    ensures i < |xs|
    ensures forall j :: 0 <= j < |xs| ==> xs[i] <= xs[j]
    ensures forall j :: 0 <= j < i ==> xs[i] < xs[j]
  {
    if |xs| == 1 then 0
    else
      var k := FirstMinIndex(xs[..|xs| - 1]);
      if xs[|xs| - 1] < xs[k] then |xs| - 1 else k
  }

  /** No element occurs twice. */
  predicate Distinct<T(==)>(xs: seq<T>)
  {
    forall i, j :: 0 <= i < j < |xs| ==> xs[i] != xs[j]
  }

  /** Every set can be listed, each element once. */
  lemma {:induction false} Listable<T>(s: set<T>)
    ensures exists q :: Lists(s, q)
  {
    if s == {} {
      var l: seq<T> := [];
      assert Lists(s, l);
    } else {
      var x :| x in s;
      Listable(s - {x});
      var q :| Lists(s - {x}, q);
      var l := [x] + q;
      assert forall y :: y in s ==> y in l;
      assert Lists(s, l);
    }
  }

  /** `q` lists the elements of `s`, each once. */
  predicate Lists<T(==)>(s: set<T>, q: seq<T>)
  {
    Distinct(q) && |q| == |s| && (forall x :: x in s ==> x in q) && forall i :: 0 <= i < |q| ==> q[i] in s
  }

  /** Lists the elements of a set in some order, each once, as iterating a hash set does. */
  method ListOf<T>(s: set<T>) returns (q: seq<T>)
    ensures forall x :: x in s <==> x in q
    ensures Distinct(q) && |q| == |s|
  {
    q := [];
    var rest := s;
    while rest != {}
      invariant forall x :: x in s <==> x in q || x in rest
      invariant forall j :: 0 <= j < |q| ==> q[j] !in rest
      invariant Distinct(q) && |q| + |rest| == |s|
      decreases |rest|
    {
      var x :| x in rest;
      q := q + [x];
      rest := rest - {x};
    }
  }

  /**
   * Lists the elements of a collection in some order, as iterating a hash set does:
   * every element once per time it was added, in an order the model leaves open.
   */
  method Shuffled<T>(xs: seq<T>) returns (q: seq<T>)
    ensures multiset(q) == multiset(xs)
  {
    q := [];
    var rest := xs;
    while rest != []
      invariant multiset(q) + multiset(rest) == multiset(xs)
      decreases |rest|
    {
      var j :| 0 <= j < |rest|;
      assert rest == rest[..j] + [rest[j]] + rest[j + 1..];
      q := q + [rest[j]];
      rest := rest[..j] + rest[j + 1..];
    }
  }

  /** A sequence without repeated elements holds each value at most once. */
  lemma {:induction false} DistinctOnce<T>(a: seq<T>, x: T)
    requires Distinct(a)
    ensures multiset(a)[x] <= 1
  {
    if a != [] {
      assert a == [a[0]] + a[1..];
      assert Distinct(a[1..]);
      DistinctOnce(a[1..], x);
      if x == a[0] {
        assert x !in a[1..];
      }
    }
  }

  /** A value at two positions is counted twice. */
  lemma Twice<T>(b: seq<T>, i: nat, j: nat)
    requires i < j < |b| && b[i] == b[j]
    ensures multiset(b)[b[i]] >= 2
  {
    assert b == b[..j] + b[j..];
    assert b[i] in b[..j];
    assert b[j] in b[j..];
  }

  /** A rearrangement of a sequence without repetitions has none either. */
  lemma DistinctPermutation<T>(a: seq<T>, b: seq<T>)
    requires multiset(a) == multiset(b) && Distinct(a)
    ensures Distinct(b)
  {
    forall i, j | 0 <= i < j < |b|
      ensures b[i] != b[j]
    {
      if b[i] == b[j] {
        Twice(b, i, j);
        DistinctOnce(a, b[i]);
      }
    }
  }
}
