/**
 Which bytes of the object a block number asks for: the wrapping range arithmetic shared by
 the Rust client (an inclusive range) and the C++ client (a half-open one).
 */
module Ranges {
  import opened Modular

  const TWO_64: nat := 0x1_0000_0000_0000_0000

  /** Unsigned saturating subtraction, plus one. */
  function Stride(objSize: nat, size: nat): nat {
    (if objSize > size then objSize - size else 0) + 1
  }

  /** 64-bit wrapping multiplication, then the stride. */
  function Start(objSize: nat, size: nat, block: nat): nat {
    (block * size % TWO_64) % Stride(objSize, size)
  }

  datatype Range = Range(first: nat, last: int)

  /** The Rust form: both ends belong to the range. */
  function RustRange(objSize: nat, size: nat, block: nat): Range {
    Range(Start(objSize, size, block), Start(objSize, size, block) + size - 1)
  }

  /** The C++ form: the second end is the first byte past the range. */
  function CppRange(objSize: nat, size: nat, block: nat): (nat, nat) {
    (Start(objSize, size, block), Start(objSize, size, block) + size)
  }

  function Gcd(a: nat, b: nat): nat
    decreases b
  {
    if b == 0 then a else Gcd(b, a % b)
  }

  // ----- divisibility -----

  lemma EuclidStep(g: nat, p: nat, r: nat, q: nat, u: int, v: int)
    ensures (g * p) * q + g * r == g * (p * q + r)
    ensures (p * q + r) * v + p * (u - q * v) == p * u + r * v
  {
    assert (g * p) * q == g * (p * q);
    assert p * (u - q * v) == p * u - (p * q) * v;
  }

  /** Euclid's result divides both numbers and is an integer combination of them. */
  lemma {:induction false} Bezout(a: nat, b: nat) returns (a': nat, b': nat, x: int, y: int)
    requires a > 0
    ensures Gcd(a, b) > 0
    ensures a == Gcd(a, b) * a' && b == Gcd(a, b) * b'
    ensures a' * x + b' * y == 1
    decreases b
  {
    if b == 0 {
      a', b', x, y := 1, 0, 1, 0;
    } else {
      var g, q := Gcd(a, b), a / b;
      var p, r, u, v := Bezout(b, a % b);
      EuclidStep(g, p, r, q, u, v);
      a', b', x, y := p * q + r, p, v, u - q * v;
      assert a == b * q + a % b;
    }
  }

  /** The number of blocks after which the offsets start to repeat. */
  function Period(objSize: nat, size: nat): nat
    requires size > 0
  {
    Bezout0(Stride(objSize, size), size);
    Stride(objSize, size) / Gcd(Stride(objSize, size), size)
  }

  lemma Bezout0(a: nat, b: nat)
    requires a > 0
    ensures Gcd(a, b) > 0
  {
    var _, _, _, _ := Bezout(a, b);
  }

  /** Coprime `s` and `b`: what divides a product with `b` divides the other factor. */
  lemma Coprime(s: nat, b: nat, x: int, y: int, d: int, k: int)
    requires s * x + b * y == 1 && d * b == s * k
    ensures d == s * (d * x + k * y)
  {
    assert d * (s * x + b * y) == s * (d * x) + (d * b) * y;
    assert (s * k) * y == s * (k * y);
  }

  lemma Regroup(g: nat, s: nat, b: nat, d: int, k: int)
    ensures d * (g * b) == g * (d * b)
    ensures (g * s) * k == g * (s * k)
    ensures (s * k) * (g * b) == (g * s) * (k * b)
  {
    assert (s * k) * (g * b) == s * (k * (g * b)) == s * (g * (k * b));
  }

  lemma DividesProduct(s: nat, size: nat, d: int)
    requires s > 0
    ensures Gcd(s, size) > 0 && s / Gcd(s, size) > 0
    ensures (d * size) % s == 0 <==> d % (s / Gcd(s, size)) == 0
  {
    var g := Gcd(s, size);
    var s', b, x, y := Bezout(s, size);
    assert s' >= 1;
    QuotientIs(g, s');
    if (d * size) % s == 0 {
      var k := Quotient(s, d * size);
      Regroup(g, s', b, d, k);
      Cancel(g, d * b, s' * k);
      Coprime(s', b, x, y, d, k);
      MulMod(s', d * x + k * y);
    }
    if d % s' == 0 {
      var m := Quotient(s', d);
      Regroup(g, s', b, d, m);
      MulMod(s, m * b);
    }
  }

  lemma QuotientIs(g: nat, q: nat)
    requires g > 0
    ensures (g * q) / g == q
  {
    var e := (g * q) / g - q;
    assert g * q == g * ((g * q) / g) + (g * q) % g;
    MulMod(g, q);
    assert g * e == 0;
  }

  lemma Cancel(g: nat, a: int, b: int)
    requires g > 0 && g * a == g * b
    ensures a == b
  {
    assert g * (a - b) == 0;
  }

  // ----- the properties of the ranges -----

  lemma Spread(i: int, j: int, size: int)
    ensures i * size - j * size == (i - j) * size
  {
  }

  predicate NoWrap(size: nat, block: nat) { block * size < 0x1_0000_0000_0000_0000 }

  /** A product that does not fit 64 bits starts where what is left of it starts. */
  lemma StartWraps(objSize: nat, size: nat, block: nat, k: nat, r: nat)
    requires r < 0x1_0000_0000_0000_0000 && block * size == k * 0x1_0000_0000_0000_0000 + r
    ensures Start(objSize, size, block) == r % if size <= objSize then objSize - size + 1 else 1
  {
  }

  lemma StartNoWrap(objSize: nat, size: nat, block: nat)
    requires NoWrap(size, block)
    ensures Start(objSize, size, block) == (block * size) % Stride(objSize, size)
  {
    var product := block * size;
    assert product % TWO_64 == product;
  }

  /** Two blocks share an offset exactly when their distance is a multiple of the period. */
  lemma SameOffset(objSize: nat, size: nat, i: nat, j: nat)
    requires size > 0 && NoWrap(size, i) && NoWrap(size, j)
    ensures Period(objSize, size) > 0
    ensures Start(objSize, size, i) == Start(objSize, size, j) <==> (i - j) % Period(objSize, size) == 0
  {
    var s := Stride(objSize, size);
    StartNoWrap(objSize, size, i);
    StartNoWrap(objSize, size, j);
    SameRemainder(i * size, j * size, s);
    Spread(i, j, size);
    DividesProduct(s, size, i - j);
  }

  ghost predicate AllDistinct(objSize: nat, size: nat, n: nat) {
    forall i: nat, j: nat :: i < j < n ==> Start(objSize, size, i) != Start(objSize, size, j)
  }

  /**
   Distinct connections read distinct offsets if and only if there are no more blocks than
   the period.
   */
  lemma DistinctOffsets(objSize: nat, size: nat, n: nat)
    requires size > 0 && n * size < TWO_64
    ensures AllDistinct(objSize, size, n) <==> n <= Period(objSize, size)
  {
    var p := Period(objSize, size);
    forall i: nat | i < n ensures NoWrap(size, i) {
      assert i * size <= n * size;
    }
    SameOffset(objSize, size, 0, 0);
    if n <= p {
      forall i: nat, j: nat | i < j < n ensures Start(objSize, size, i) != Start(objSize, size, j) {
        SameOffset(objSize, size, j, i);
        Below(p, j - i);
      }
    } else {
      SameOffset(objSize, size, p, 0);
      MulMod(p, 1);
      assert Start(objSize, size, 0) == Start(objSize, size, p);
    }
  }

  // ----- which offsets are read -----

  lemma {:induction false} GcdDivides(a: nat, b: nat)
    requires a > 0
    ensures Gcd(a, b) > 0 && a % Gcd(a, b) == 0 && b % Gcd(a, b) == 0
  {
    var a', b', _, _ := Bezout(a, b);
    MulMod(Gcd(a, b), a');
    MulMod(Gcd(a, b), b');
  }

  /** What divides `p` and `s` divides `p % s`. */
  lemma RemainderMultiple(g: nat, p: nat, s: nat)
    requires g > 0 && s > 0 && p % g == 0 && s % g == 0
    ensures (p % s) % g == 0
  {
    var a := Quotient(g, p);
    var b := Quotient(g, s);
    var q := p / s;
    assert p == s * q + p % s;
    assert p % s == g * a - g * b * q == g * (a - b * q) by {
      assert g * (b * q) == g * b * q;
    }
    MulMod(g, a - b * q);
  }

  lemma ProductMultiple(g: nat, block: nat, size: nat)
    requires g > 0 && size % g == 0
    ensures (block * size) % g == 0
  {
    var k := Quotient(g, size);
    assert block * size == g * (block * k);
    MulMod(g, block * k);
  }

  /**
   In an object with room for a block, blocks start only at multiples of the greatest common
   divisor of the last start plus one and the block size, and the last start is not exceeded.
   */
  lemma StartsAreMultiples(objSize: nat, size: nat, block: nat)
    requires 0 < size <= objSize && block * size < TWO_64
    ensures Gcd(objSize - size + 1, size) > 0
    ensures Start(objSize, size, block) <= objSize - size
    ensures Start(objSize, size, block) % Gcd(objSize - size + 1, size) == 0
  {
    var g := Gcd(objSize - size + 1, size);
    GcdDivides(objSize - size + 1, size);
    StartNoWrap(objSize, size, block);
    ProductMultiple(g, block, size);
    RemainderMultiple(g, block * size, objSize - size + 1);
  }

  lemma Residue(s: nat, size: nat, x: int, y: int, t: nat, block: nat)
    requires s > 0 && s * x + size * y == 1 && t < s && block == (t * y) % s
    ensures (block * size) % s == t
  {
    var q := (t * y) / s;
    assert t * y == s * q + block;
    assert block * size == (t * y - s * q) * size == t * (size * y) - s * (q * size) by {
      assert (t * y) * size == t * (size * y);
      assert (s * q) * size == s * (q * size);
    }
    assert t * (size * y) == t * (1 - s * x) == t - s * (t * x) by {
      assert t * (s * x) == s * (t * x);
    }
    SameClass(s, block * size, t, -(t * x) - q * size);
  }

  lemma SameClass(s: nat, a: int, t: nat, k: int)
    requires t < s && a == t + s * k
    ensures a % s == t
  {
    Shift(t, s, k);
    Below(s, t);
  }

  /** Where that divisor is 1, every start from 0 to the last is some block's. */
  lemma EveryStart(objSize: nat, size: nat, t: nat) returns (block: nat)
    requires 0 < size <= objSize && Gcd(objSize - size + 1, size) == 1 && t <= objSize - size
    requires (objSize - size + 1) * size <= TWO_64
    ensures block <= objSize - size && Start(objSize, size, block) == t
  {
    var s := objSize - size + 1;
    var a, b, x, y := Bezout(s, size);
    block := (t * y) % s;
    Residue(s, size, x, y, t, block);
    assert block * size < s * size by { Shrinks(block, s, size); }
    StartNoWrap(objSize, size, block);
  }

  lemma Shrinks(a: nat, b: nat, c: nat)
    requires a < b && c > 0
    ensures a * c < b * c
  {
  }

  /** Three blocks of 4 bytes of an object of 11: the third reads where the first does. */
  lemma OffsetsMeet()
    ensures Start(11, 4, 0) == Start(11, 4, 2) && !AllDistinct(11, 4, 3)
  {
    assert Start(11, 4, 0) == 0 && Start(11, 4, 2) == 0;
  }

  predicate InRust(r: Range, byte: int) { r.first <= byte <= r.last }

  predicate InCpp(r: (nat, nat), byte: int) { r.0 <= byte < r.1 }

  /**
   From the block's start both clients ask for the same `size` bytes, inside the object exactly when
   it can hold a block.
   */
  lemma SameBytes(objSize: nat, size: nat, block: nat)
    requires size > 0
    ensures
      var r, c := RustRange(objSize, size, block), CppRange(objSize, size, block);
      && (forall byte: int :: InRust(r, byte) <==> InCpp(c, byte))
      && r.first == Start(objSize, size, block) && r.last - r.first + 1 == c.1 - c.0 == size
      && (r.last < objSize <==> size <= objSize)
  {
  }
}
