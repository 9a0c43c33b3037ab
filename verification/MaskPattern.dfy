/** The module matrix: the triangular mask of function patterns and the eight data masks of
    section 7.8.2 of ISO/IEC 18004:2015. */
module MaskPattern {

  // ---------------------------------------------------------------- the triangular mask

  /** Where the mask keeps the bit of column x and row y, in either order. */
  function MaskBit(x: int, y: int): int {
    var t, e := if x > y then y else x, if x > y then x else y;
    (e + e * e) / 2 + t
  }

  /** A bit outside the array reads as clear. */
  predicate IsMasked(mask: seq<bool>, x: int, y: int) {
    var i := MaskBit(x, y);
    0 <= i < |mask| && mask[i]
  }

  lemma NextSquare(e: nat)
    ensures (e + 1) * (e + 1) == e * e + 2 * e + 1
  {
  }

  lemma {:induction false} Triangle(e: nat)
    ensures (e + e * e) % 2 == 0
    ensures (e + 1 + (e + 1) * (e + 1)) / 2 == (e + e * e) / 2 + e + 1
  {
    NextSquare(e);
    if e > 0 {
      Triangle(e - 1);
      NextSquare(e - 1);
    }
  }

  lemma {:induction false} TrianglesIncrease(a: nat, b: nat)
    requires a < b
    ensures (a + a * a) / 2 + a < (b + b * b) / 2
    decreases b
  {
    Triangle(b - 1);
    if a < b - 1 {
      TrianglesIncrease(a, b - 1);
    }
  }

  /** The mask has one bit for each unordered pair of coordinates. */
  lemma MaskBitInjective(x: nat, y: nat, x': nat, y': nat)
    ensures MaskBit(x, y) == MaskBit(x', y') <==> (x == x' && y == y') || (x == y' && y == x')
  {
    var t, e := if x > y then y else x, if x > y then x else y;
    var t', e' := if x' > y' then y' else x', if x' > y' then x' else y';
    Ordered(t, e, t', e');
    Ordered(t', e', t, e);
  }

  /** Pairs with a smaller larger coordinate come first. */
  lemma Ordered(t: nat, e: nat, t': nat, e': nat)
    requires t <= e && t' <= e'
    ensures e < e' ==> (e + e * e) / 2 + t < (e' + e' * e') / 2 + t'
  {
    if e < e' {
      TrianglesIncrease(e, e');
    }
  }

  /** The bits of a symbol of width w fill a triangle. */
  lemma MaskBitInBounds(x: nat, y: nat, w: nat)
    requires x < w && y < w
    ensures 0 <= MaskBit(x, y) < (w + w * w) / 2
  {
    var e := if x > y then x else y;
    TrianglesIncrease(e, w);
  }

  // ---------------------------------------------------------------- the data masks

  /** Whether a data mask inverts the module in row i and column j. */
  predicate Inverts(pattern: nat, i: nat, j: nat) {
    match pattern
    case 0 => (i + j) % 2 == 0
    case 1 => i % 2 == 0
    case 2 => j % 3 == 0
    case 3 => (i + j) % 3 == 0
    case 4 => (i / 2 + j / 3) % 2 == 0
    case 5 => (i * j) % 2 + (i * j) % 3 == 0
    case 6 => ((i * j) % 2 + (i * j) % 3) % 2 == 0
    case 7 => ((i + j) % 2 + (i * j) % 3) % 2 == 0
    case _ => false
  }

  lemma Sixth(x: nat)
    ensures x % 2 + x % 3 == 0 <==> x % 6 == 0
    ensures (x % 2 + x % 3) % 2 == 0 <==> x % 6 < 3
  {
    var q, r := x / 6, x % 6;
    assert x == 6 * q + r;
    Rests(q, r);
  }

  lemma Rests(q: nat, r: nat)
    requires r < 6
    ensures (6 * q + r) % 2 == r % 2 && (6 * q + r) % 3 == r % 3
  {
    Drop2(3 * q, r);
    Drop3(2 * q, r);
  }

  lemma HalfOf(x: nat)
    ensures x / 2 % 2 == 0 <==> x % 4 < 2
  {
    var q, r := x / 4, x % 4;
    assert x == 4 * q + r;
    assert x / 2 == 2 * q + r / 2;
  }

  lemma ThirdOf(x: nat)
    ensures x / 3 % 2 == 0 <==> x % 6 < 3
  {
    var q, r := x / 6, x % 6;
    assert x == 6 * q + r;
    assert x / 3 == 2 * q + r / 3;
  }

  /** The masks as pictures: a chessboard, every other row, every third column, every third diagonal, a
      chessboard of fields two high and three wide, and three that go by the product of row and column. */
  lemma Pictures(i: nat, j: nat)
    ensures Inverts(0, i, j) <==> i % 2 == j % 2
    ensures Inverts(1, i, j) <==> exists k :: i == 2 * k
    ensures Inverts(2, i, j) <==> exists k :: j == 3 * k
    ensures Inverts(3, i, j) <==> exists k :: i + j == 3 * k
    ensures Inverts(4, i, j) <==> (i % 4 < 2 <==> j % 6 < 3)
    ensures Inverts(5, i, j) <==> i * j % 6 == 0
    ensures Inverts(6, i, j) <==> i * j % 6 < 3
    ensures Inverts(7, i, j) <==> (i % 2 == j % 2 <==> i * j % 3 != 1)
  {
    hide Inverts;
    Lines(i, j);
    Fields(i, j);
    Products(i, j);
  }

  lemma Lines(i: nat, j: nat)
    ensures Inverts(0, i, j) <==> i % 2 == j % 2
    ensures Inverts(1, i, j) <==> exists k :: i == 2 * k
    ensures Inverts(2, i, j) <==> exists k :: j == 3 * k
    ensures Inverts(3, i, j) <==> exists k :: i + j == 3 * k
  {
    ThirdPart(i + j);
    ThirdPart(j);
    Half(i);
    SumsOfParities(i, j);
  }

  lemma Fields(i: nat, j: nat)
    ensures Inverts(4, i, j) <==> (i % 4 < 2 <==> j % 6 < 3)
  {
    SumsOfParities(i / 2, j / 3);
    HalfOf(i);
    ThirdOf(j);
  }

  lemma Products(i: nat, j: nat)
    ensures Inverts(5, i, j) <==> i * j % 6 == 0
    ensures Inverts(6, i, j) <==> i * j % 6 < 3
    ensures Inverts(7, i, j) <==> (i % 2 == j % 2 <==> i * j % 3 != 1)
  {
    var p := i * j;
    assert Inverts(5, i, j) <==> p % 2 + p % 3 == 0;
    assert Inverts(6, i, j) <==> (p % 2 + p % 3) % 2 == 0;
    assert Inverts(7, i, j) <==> ((i + j) % 2 + p % 3) % 2 == 0;
    hide Inverts;
    Sixth(p);
    SumsOfParities(i, j);
    OneThird(i + j, p);
  }

  lemma OneThird(s: nat, p: nat)
    ensures (s % 2 + p % 3) % 2 == 0 <==> (s % 2 == 0 <==> p % 3 != 1)
  {
  }

  lemma ThirdPart(x: nat)
    ensures x % 3 == 0 <==> exists k :: x == 3 * k
  {
    if x % 3 == 0 {
      assert x == 3 * (x / 3);
    }
  }

  lemma Half(x: nat)
    ensures x % 2 == 0 <==> exists k :: x == 2 * k
  {
    if x % 2 == 0 {
      assert x == 2 * (x / 2);
    }
  }

  lemma SumsOfParities(x: nat, y: nat)
    ensures (x + y) % 2 == 0 <==> x % 2 == y % 2
  {
  }

  lemma Distribute(a: nat, n: nat, r: nat, j: nat)
    ensures (n * a + r) * j == n * (a * j) + r * j
  {
  }

  lemma Drop3(k: nat, x: nat)
    ensures (3 * k + x) % 3 == x % 3
  {
  }

  lemma Drop2(k: nat, x: nat)
    ensures (2 * k + x) % 2 == x % 2
  {
  }

  /** The product modulo 3 from the two remainders. */
  lemma ProductMod3(i: nat, j: nat)
    ensures (i * j) % 3 == (if i % 3 == 0 then 0 else if i % 3 == 1 then j % 3 else (2 * j) % 3)
  {
    Distribute(i / 3, 3, i % 3, j);
    var r := i % 3;
    if r == 0 {
      Drop3((i / 3) * j, 0);
    } else if r == 1 {
      Drop3((i / 3) * j, j);
    } else {
      Drop3((i / 3) * j, 2 * j);
    }
  }

  lemma ProductMod2(i: nat, j: nat)
    ensures (i * j) % 2 == (if i % 2 == 0 then 0 else j % 2)
  {
    Distribute(i / 2, 2, i % 2, j);
    if i % 2 == 0 {
      Drop2((i / 2) * j, 0);
    } else {
      Drop2((i / 2) * j, j);
    }
  }

  lemma Twice(j: nat)
    ensures (2 * j) % 3 == if j % 3 == 0 then 0 else 3 - j % 3
  {
    var q, r := j / 3, j % 3;
    assert 2 * j == 3 * (2 * q) + 2 * r;
    Drop3(2 * q, 2 * r);
    assert r == 0 || r == 1 || r == 2;
  }

  /** The products modulo 2 and 3 in terms of the two running counters. */
  lemma Counters(i: nat, j: nat, e: nat, c: nat)
    requires e == j % 3 && c == i % 3
    ensures (i * j) % 3 == if e == 0 || c == 0 then 0 else if e == c then 1 else 2
    ensures (i * j) % 2 == if i % 2 == 1 && j % 2 == 1 then 1 else 0
  {
    ProductMod3(i, j);
    ProductMod2(i, j);
    Twice(j);
    var p := i * j;
    assert p % 3 == if e == 0 || c == 0 then 0 else if e == c then 1 else 2;
  }

  // ---------------------------------------------------------------- masking a whole symbol

  /** The matrix with one data mask applied to the modules outside the function patterns. */
  ghost function Masked(pattern: nat, w: nat, mask: seq<bool>, m: seq<bool>): (r: seq<bool>)
    requires w > 0
    ensures |r| == |m|
    ensures forall k :: 0 <= k < |m| ==>
      r[k] == (m[k] != (Inverts(pattern, k / w, k % w) && !IsMasked(mask, k % w, k / w)))
  {
    seq(|m|, k requires 0 <= k < |m| =>
      m[k] != (Inverts(pattern, k / w, k % w) && !IsMasked(mask, k % w, k / w)))
  }

  /** Applying a mask twice restores the matrix. */
  lemma MaskedTwice(pattern: nat, w: nat, mask: seq<bool>, m: seq<bool>)
    requires w > 0
    ensures Masked(pattern, w, mask, Masked(pattern, w, mask, m)) == m
  {
    hide Inverts, IsMasked;
  }
}
