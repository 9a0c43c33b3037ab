/** Numbers as digits in some radix, most significant digit first. */
module Numerals {
  import Arithmetic

  function Quot(n: nat, r: nat): nat
    requires r > 0
  {
    n / r
  }

  function Rest(n: nat, r: nat): (d: nat)
    requires r > 0
    ensures d < r
  {
    n % r
  }

  function Pow(r: nat, k: nat): (p: nat)
    requires r > 0
  {
    if k == 0 then 1 else Pow(r, k - 1) * r
  }

  /** Every element is a digit. */
  predicate Below(ds: seq<nat>, r: nat) {
    forall d :: d in ds ==> d < r
  }

  function Value(ds: seq<nat>, r: nat): nat
    requires r > 0
  {
    if ds == [] then 0 else Value(ds[..|ds| - 1], r) * r + ds[|ds| - 1]
  }

  /** The lowest k digits of a number. */
  function Digits(n: nat, r: nat, k: nat): (ds: seq<nat>)
    requires r > 0
    ensures |ds| == k && Below(ds, r)
    decreases k
  {
    if k == 0 then [] else Digits(Quot(n, r), r, k - 1) + [Rest(n, r)]
  }

  /** Dividing k times. */
  function DivPow(n: nat, r: nat, k: nat): nat
    requires r > 0
    decreases k
  {
    if k == 0 then n else DivPow(Quot(n, r), r, k - 1)
  }

  lemma Unfold(n: nat, r: nat)
    requires r > 0
    ensures Quot(n, r) * r + Rest(n, r) == n
  {
  }

  lemma Undo(q: nat, d: nat, r: nat)
    requires d < r
    ensures Quot(q * r + d, r) == q && Rest(q * r + d, r) == d
  {
    Arithmetic.DivMod(q, r, d);
  }

  lemma QuotBelow(n: nat, p: nat, r: nat)
    requires r > 0 && n < p * r
    ensures Quot(n, r) < p
  {
    Arithmetic.Quotient(n, p, r);
  }

  lemma LastValue(ds: seq<nat>, d: nat, r: nat)
    requires r > 0
    ensures Value(ds + [d], r) == Value(ds, r) * r + d
  {
    assert (ds + [d])[..|ds|] == ds;
  }

  lemma Shorter(ds: seq<nat>, r: nat)
    requires ds != [] && Below(ds, r)
    ensures Below(ds[..|ds| - 1], r) && ds[|ds| - 1] < r && ds == ds[..|ds| - 1] + [ds[|ds| - 1]]
  {
    var h := ds[..|ds| - 1];
    assert ds[|ds| - 1] in ds;
    forall d | d in h
      ensures d < r
    {
      assert d in ds;
    }
  }

  /** A number below r^k is the value of its k digits. */
  lemma {:induction false} ValueOfDigits(n: nat, r: nat, k: nat)
    requires r > 0 && n < Pow(r, k)
    ensures Value(Digits(n, r, k), r) == n
    decreases k
  {
    hide Quot, Rest, Value, Digits;
    if k == 0 {
      NoDigits(n, r);
    } else {
      QuotBelow(n, Pow(r, k - 1), r);
      ValueOfDigits(Quot(n, r), r, k - 1);
      DigitsStep(n, r, k);
      LastValue(Digits(Quot(n, r), r, k - 1), Rest(n, r), r);
      Unfold(n, r);
    }
  }

  lemma NoDigits(n: nat, r: nat)
    requires r > 0
    ensures Digits(n, r, 0) == [] && Value([], r) == 0
  {
  }

  lemma DigitsStep(n: nat, r: nat, k: nat)
    requires r > 0 && k > 0
    ensures Digits(n, r, k) == Digits(Quot(n, r), r, k - 1) + [Rest(n, r)]
  {
  }

  /** Digits are the digits of their value. */
  lemma {:induction false} DigitsOfValue(ds: seq<nat>, r: nat)
    requires r > 0 && Below(ds, r)
    ensures Digits(Value(ds, r), r, |ds|) == ds
  {
    hide Quot, Rest, Value, Digits, Below;
    if ds == [] {
      NoDigits(0, r);
    } else {
      var h, d := ds[..|ds| - 1], ds[|ds| - 1];
      Shorter(ds, r);
      DigitsOfValue(h, r);
      Undo(Value(h, r), d, r);
      LastValue(h, d, r);
      DigitsStep(Value(ds, r), r, |ds|);
    }
  }

  lemma {:induction false} ValueBelow(ds: seq<nat>, r: nat)
    requires r > 0 && Below(ds, r)
    ensures Value(ds, r) < Pow(r, |ds|)
  {
    hide Below, Value;
    if ds == [] {
      NoDigits(0, r);
    } else {
      var h, d := ds[..|ds| - 1], ds[|ds| - 1];
      Shorter(ds, r);
      ValueBelow(h, r);
      LastValue(h, d, r);
      Arithmetic.Below(Value(h, r), Pow(r, |h|), r, d);
    }
  }

  /** The first digits are the digits of a quotient. */
  lemma {:induction false} PrefixOfDigits(n: nat, r: nat, k: nat, j: nat)
    requires r > 0 && j <= k
    ensures Digits(n, r, k)[..j] == Digits(DivPow(n, r, k - j), r, j)
    decreases k - j
  {
    hide Digits, Quot, Rest;
    var ds := Digits(n, r, k);
    if j == k {
      assert ds[..k] == ds;
    } else {
      PrefixOfDigits(Quot(n, r), r, k - 1, j);
      DigitsStep(n, r, k);
      assert ds[..j] == Digits(Quot(n, r), r, k - 1)[..j];
    }
  }

  lemma {:induction false} DivPowBelow(n: nat, r: nat, k: nat, j: nat)
    requires r > 0 && n < Pow(r, j + k)
    ensures DivPow(n, r, k) < Pow(r, j)
    decreases k
  {
    hide Quot;
    if k > 0 {
      QuotBelow(n, Pow(r, j + k - 1), r);
      DivPowBelow(Quot(n, r), r, k - 1, j);
    }
  }

  lemma QuotQuot(n: nat, a: nat, b: nat)
    requires a > 0 && b > 0 && b * a > 0
    ensures Quot(Quot(n, a), b) == Quot(n, b * a)
  {
    hide Quot, Rest;
    var q := Quot(Quot(n, a), b);
    var d := Rest(Quot(n, a), b);
    Unfold(n, a);
    Unfold(Quot(n, a), b);
    Arithmetic.Below(d, b, a, Rest(n, a));
    assert n == (q * b + d) * a + Rest(n, a);
    Regroup(q, b, d, a);
    Undo(q, d * a + Rest(n, a), b * a);
  }

  lemma Regroup(q: nat, b: nat, d: nat, a: nat)
    ensures (q * b + d) * a == q * (b * a) + d * a
  {
  }

  lemma PowPositive(r: nat, k: nat)
    requires r > 0
    ensures Pow(r, k) > 0
  {
    if k > 0 {
      PowPositive(r, k - 1);
      Product(Pow(r, k - 1), r);
    }
  }

  lemma Product(a: nat, b: nat)
    requires a > 0 && b > 0
    ensures a * b > 0
  {
  }

  /** Dividing k times is dividing by the power. */
  lemma {:induction false} DivPowIs(n: nat, r: nat, k: nat)
    requires r > 0
    ensures Pow(r, k) > 0 && DivPow(n, r, k) == Quot(n, Pow(r, k))
    decreases k
  {
    hide Quot;
    PowPositive(r, k);
    if k == 0 {
      DivOne(n);
    } else {
      DivPowIs(Quot(n, r), r, k - 1);
      QuotQuot(n, r, Pow(r, k - 1));
    }
  }

  lemma DivOne(n: nat)
    ensures Quot(n, 1) == n
  {
  }

  /** One digit by itself. */
  lemma {:induction false} DigitAt(n: nat, r: nat, k: nat, j: nat)
    requires r > 0 && j < k
    ensures Pow(r, k - 1 - j) > 0 && Digits(n, r, k)[j] == Rest(Quot(n, Pow(r, k - 1 - j)), r)
  {
    hide Quot, Rest, Digits, Pow;
    var ds := Digits(n, r, k);
    PrefixOfDigits(n, r, k, j + 1);
    DivPowIs(n, r, k - 1 - j);
    DigitsStep(DivPow(n, r, k - 1 - j), r, j + 1);
    assert ds[..j + 1][j] == ds[j];
  }

  lemma {:induction false} PowAdd(r: nat, j: nat, k: nat)
    requires r > 0
    ensures Pow(r, j + k) == Pow(r, j) * Pow(r, k)
    decreases k
  {
    if k > 0 {
      PowAdd(r, j, k - 1);
      Associate(Pow(r, j), Pow(r, k - 1), r);
    }
  }

  lemma Associate(a: nat, b: nat, c: nat)
    ensures (a * b) * c == a * (b * c)
  {
  }

  lemma QuotExact(q: nat, r: nat)
    requires r > 0
    ensures Quot(q * r, r) == q
  {
    Undo(q, 0, r);
  }

  lemma ProductBelow(v: nat, a: nat, b: nat)
    requires v < a && b > 0
    ensures v * b < a * b
  {
  }
}
