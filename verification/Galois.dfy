/** GF(256) as a field: powers of the generator, the product the encoder computes through its
    tables, and the field laws. The tables stay behind the two lookup methods at the end. */
module Galois {
  import opened Bytes
  import opened GaloisTables

  /** The n-th power of the generator. */
  function Alpha(n: nat): bv8 {
    if n == 0 then 1 else Double(Alpha(n - 1))
  }

  lemma {:induction false} AlphaTable(i: nat)
    requires i < 255
    ensures Alpha(i) == Exponent(i) && Log(Alpha(i)) == i && Alpha(i) != 0
  {
    hide Exponent, LogAt, Double;
    Ends();
    TableEntry(i);
    if i > 0 {
      AlphaTable(i - 1);
      TableEntry(i - 1);
    }
  }

  /** The generator has order 255. */
  lemma {:induction false} AlphaWraps(n: nat)
    ensures Alpha(n + 255) == Alpha(n)
  {
    hide Exponent, LogAt, Double;
    if n == 0 {
      AlphaTable(254);
      Ends();
    } else {
      AlphaWraps(n - 1);
    }
  }

  lemma {:induction false} AlphaMod(n: nat)
    ensures Alpha(n) == Alpha(n % 255)
  {
    hide Double;
    if n >= 255 {
      AlphaMod(n - 255);
      AlphaWraps(n - 255);
    }
  }

  lemma AlphaNonzero(n: nat)
    ensures Alpha(n) != 0
  {
    AlphaMod(n);
    AlphaTable(n % 255);
  }

  lemma AlphaInjective(m: nat, n: nat)
    requires Alpha(m) == Alpha(n)
    ensures m % 255 == n % 255
  {
    hide Alpha, Log;
    AlphaMod(m);
    AlphaMod(n);
    AlphaTable(m % 255);
    AlphaTable(n % 255);
  }

  // ---------------------------------------------------------------- logarithms

  ghost function AlphaNat(n: nat): nat {
    Alpha(n) as nat
  }

  lemma AlphaNatInjective(m: nat, n: nat)
    ensures 1 <= AlphaNat(n) <= 255
    ensures AlphaNat(m) == AlphaNat(n) ==> m % 255 == n % 255
  {
    hide Alpha;
    AlphaNonzero(n);
    if AlphaNat(m) == AlphaNat(n) {
      AlphaInjective(m, n);
    }
  }

  ghost function Powers(n: nat): set<nat> {
    if n == 0 then {} else Powers(n - 1) + {AlphaNat(n - 1)}
  }

  ghost function Units(n: nat): set<nat> {
    if n == 0 then {} else Units(n - 1) + {n}
  }

  lemma {:induction false} PowerOf(v: nat, n: nat) returns (k: nat)
    requires v in Powers(n)
    ensures k < n && AlphaNat(k) == v && 1 <= v <= 255
  {
    hide AlphaNat;
    if v == AlphaNat(n - 1) {
      AlphaNatInjective(n - 1, n - 1);
      k := n - 1;
    } else {
      k := PowerOf(v, n - 1);
    }
  }

  lemma {:induction false} PowersSize(n: nat)
    requires n <= 255
    ensures |Powers(n)| == n
  {
    hide AlphaNat;
    if n > 0 {
      PowersSize(n - 1);
      if AlphaNat(n - 1) in Powers(n - 1) {
        var k := PowerOf(AlphaNat(n - 1), n - 1);
        AlphaNatInjective(k, n - 1);
      }
    }
  }

  lemma {:induction false} UnitsSize(n: nat)
    ensures |Units(n)| == n
    ensures forall v :: v in Units(n) <==> 1 <= v <= n
  {
    if n > 0 {
      UnitsSize(n - 1);
    }
  }

  /** Every nonzero byte is a power: the 255 powers are distinct and there are 255 nonzero bytes. */
  lemma EveryUnitIsAPower(v: bv8)
    requires v != 0
    ensures exists k: nat :: k < 255 && Alpha(k) == v
  {
    hide Alpha, Powers, Units;
    PowersSize(255);
    UnitsSize(255);
    forall u | u in Powers(255)
      ensures u in Units(255)
    {
      var _ := PowerOf(u, 255);
    }
    assert Units(255) == Powers(255) + (Units(255) - Powers(255));
    var k := PowerOf(v as nat, 255);
    assert Alpha(k) == v;
  }

  ghost function LogOf(v: bv8): (k: nat)
    requires v != 0
    ensures k < 255 && Alpha(k) == v
  {
    EveryUnitIsAPower(v);
    var k: nat :| k < 255 && Alpha(k) == v;
    k
  }

  lemma LogOfAlpha(n: nat)
    ensures Alpha(n) != 0 && LogOf(Alpha(n)) == n % 255
  {
    hide Alpha;
    AlphaNonzero(n);
    AlphaInjective(LogOf(Alpha(n)), n);
  }

  // ---------------------------------------------------------------- the field

  /** The sum of two bytes; every byte is its own negative. */
  function Add(a: bv8, b: bv8): bv8 {
    a ^ b
  }

  lemma AddLaws(a: bv8, b: bv8, c: bv8)
    ensures Add(a, b) == Add(b, a)
    ensures Add(Add(a, b), c) == Add(a, Add(b, c))
    ensures Add(a, 0) == Add(0, a) == a && Add(a, a) == 0
  {
  }

  lemma AddPairs(a: bv8, b: bv8, c: bv8, d: bv8)
    ensures Add(Add(a, b), Add(c, d)) == Add(Add(a, c), Add(b, d))
  {
    hide Add;
    AddLaws(a, b, Add(c, d));
    AddLaws(b, c, d);
    AddLaws(c, b, d);
    AddLaws(a, c, Add(b, d));
  }

  lemma AddCancels(a: bv8, b: bv8)
    ensures Add(a, b) == 0 <==> a == b
  {
  }

  /** The product of two bytes: exponents add. */
  ghost function Mul(a: bv8, b: bv8): bv8 {
    if a == 0 || b == 0 then 0 else Alpha(LogOf(a) + LogOf(b))
  }

  lemma AlphaMul(m: nat, n: nat)
    ensures Mul(Alpha(m), Alpha(n)) == Alpha(m + n)
  {
    hide Alpha, LogOf;
    LogOfAlpha(m);
    LogOfAlpha(n);
    AlphaMod(m % 255 + n % 255);
    AlphaMod(m + n);
    ModSum(m, n);
  }

  lemma ModSum(m: nat, n: nat)
    ensures (m % 255 + n % 255) % 255 == (m + n) % 255
  {
  }

  lemma MulOne(a: bv8)
    ensures Mul(1, a) == a && Mul(a, 1) == a
  {
    assert Alpha(0) == 1;
    if a != 0 {
      AlphaMul(0, LogOf(a));
      AlphaMul(LogOf(a), 0);
    }
  }

  lemma MulCommutes(a: bv8, b: bv8)
    ensures Mul(a, b) == Mul(b, a)
  {
  }

  lemma MulAssociates(a: bv8, b: bv8, c: bv8)
    ensures Mul(Mul(a, b), c) == Mul(a, Mul(b, c))
  {
    hide Alpha;
    if a != 0 && b != 0 && c != 0 {
      AlphaNonzero(LogOf(a) + LogOf(b));
      AlphaNonzero(LogOf(b) + LogOf(c));
      AlphaMul(LogOf(a) + LogOf(b), LogOf(c));
      AlphaMul(LogOf(a), LogOf(b) + LogOf(c));
    }
  }

  lemma MulNonzero(a: bv8, b: bv8)
    requires a != 0 && b != 0
    ensures Mul(a, b) != 0
  {
    AlphaNonzero(LogOf(a) + LogOf(b));
  }

  ghost function Doubles(k: nat, a: bv8): bv8 {
    if k == 0 then a else Double(Doubles(k - 1, a))
  }

  lemma {:induction false} MulAlpha(k: nat, a: bv8)
    ensures Mul(Alpha(k), a) == Doubles(k, a)
  {
    hide Double;
    if k == 0 {
      MulOne(a);
    } else {
      MulAlpha(k - 1, a);
      if a == 0 {
        assert Double(0) == 0 by {
          DoubleXor(0, 0);
        }
      } else {
        AlphaMul(k, LogOf(a));
        AlphaMul(k - 1, LogOf(a));
      }
    }
  }

  lemma DoubleXor(a: bv8, b: bv8)
    ensures Double(a ^ b) == Double(a) ^ Double(b)
  {
    var c := a ^ b;
    if a & 0x80 != 0 {
      if b & 0x80 != 0 {
        assert c & 0x80 == 0;
      } else {
        assert c & 0x80 != 0;
      }
    } else {
      if b & 0x80 != 0 {
        assert c & 0x80 != 0;
      } else {
        assert c & 0x80 == 0;
      }
    }
  }

  lemma {:induction false} DoublesXor(k: nat, a: bv8, b: bv8)
    ensures Doubles(k, a ^ b) == Doubles(k, a) ^ Doubles(k, b)
  {
    hide Double;
    if k > 0 {
      DoublesXor(k - 1, a, b);
      DoubleXor(Doubles(k - 1, a), Doubles(k - 1, b));
    }
  }

  /** Adding exponents modulo 255 distributes over exclusive-or: (bytes, ^, Mul) is a field. */
  lemma MulDistributes(a: bv8, b: bv8, c: bv8)
    ensures Mul(a, Add(b, c)) == Add(Mul(a, b), Mul(a, c))
  {
    hide Doubles, Mul, Alpha;
    if a == 0 {
      MulZero(b ^ c);
      MulZero(b);
      MulZero(c);
    } else {
      MulAlpha(LogOf(a), b ^ c);
      MulAlpha(LogOf(a), b);
      MulAlpha(LogOf(a), c);
      DoublesXor(LogOf(a), b, c);
    }
  }

  lemma MulDistributesRight(a: bv8, b: bv8, c: bv8)
    ensures Mul(Add(b, c), a) == Add(Mul(b, a), Mul(c, a))
  {
    hide Add;
    MulDistributes(a, b, c);
  }

  lemma MulZero(a: bv8)
    ensures Mul(0, a) == 0 == Mul(a, 0)
  {
  }

  // ---------------------------------------------------------------- what the encoder calls

  /** Reduces an exponent modulo 255 by folding the high byte of the excess onto the low byte. */
  method ModN(t: nat) returns (r: nat)
    ensures r == t % 255
  {
    r := t;
    while r >= 255
      invariant r % 255 == t % 255
    {
      r := r - 255;
      r := r / 256 + r % 256;
    }
  }

  method LookupExponent(i: nat) returns (v: bv8)
    requires i < 255
    ensures v == Alpha(i)
  {
    hide Exponent;
    AlphaTable(i);
    v := Exponent(i);
  }

  method LookupLog(v: bv8) returns (i: nat)
    ensures i == if v == 0 then 255 else LogOf(v)
  {
    hide LogAt;
    Ends();
    if v != 0 {
      AlphaTable(LogOf(v));
    }
    i := Log(v);
  }

  /** A logarithm as the byte the encoder stores. */
  ghost function LogByte(v: bv8): (l: bv8)
    requires v != 0
    ensures l as nat == LogOf(v)
  {
    ByteRoundTrip(LogOf(v));
    LogOf(v) as bv8
  }

  method LookupLogByte(v: bv8) returns (l: bv8)
    requires v != 0
    ensures l == LogByte(v)
  {
    hide LogAt;
    var i := LookupLog(v);
    l := i as bv8;
  }
}
