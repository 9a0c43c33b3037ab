/** The encoder's in-place arithmetic: the generator polynomial and the feedback shift register. */
module ErrorCorrection {
  import opened Galois
  import opened BlockCode

  lemma PowerProduct(v: bv8, t: nat)
    requires v != 0
    ensures Alpha((LogOf(v) + t) % 255) == Mul(Alpha(t), v)
  {
    hide Alpha, Mul;
    AlphaMul(t, LogOf(v));
    AlphaMod(LogOf(v) + t);
  }

  /** A product, from the logarithms of its factors. */
  method Product(s: nat, l: bv8, ghost f: bv8, ghost c: bv8) returns (x: bv8)
    requires f != 0 && c != 0 && s == LogOf(f) && l == LogByte(c)
    ensures x == Mul(f, c)
  {
    hide Alpha;
    AlphaMod(LogOf(f) + LogOf(c));
    var m := ModN(s + l as nat);
    x := LookupExponent(m);
  }

  // ---------------------------------------------------------------- the generator polynomial

  /** The array holds the generator polynomial with n roots, constant coefficient first. */
  ghost predicate Holds(a: array<bv8>, n: nat)
    reads a
  {
    n < a.Length && forall e :: 0 <= e <= n ==> a[e] == Coefficient(n, e)
  }

  /** The array holds the logarithms of those coefficients. */
  ghost predicate HoldsLogs(a: array<bv8>, n: nat)
    reads a
  {
    n < a.Length && forall e :: 0 <= e <= n ==> Coefficient(n, e) != 0 && a[e] == LogByte(Coefficient(n, e))
  }

  method MultiplyByRoot(a: array<bv8>, t: nat)
    requires t + 1 < a.Length && t < 254 && Holds(a, t)
    modifies a
    ensures Holds(a, t + 1)
  {
    hide Alpha, Mul, Coefficient, LogOf;
    a[t + 1] := 1;
    CoefficientStep(t, t + 1);
    var e := t;
    while e > 0
      invariant 0 <= e <= t
      invariant forall k :: 0 <= k <= e ==> a[k] == Coefficient(t, k)
      invariant forall k :: e < k <= t + 1 ==> a[k] == Coefficient(t + 1, k)
    {
      CoefficientStep(t, e);
      if a[e] != 0 {
        var l := LookupLog(a[e]);
        var m := ModN(l + t);
        var x := LookupExponent(m);
        PowerProduct(a[e], t);
        a[e] := a[e - 1] ^ x;
      } else {
        MulZero(Alpha(t));
        AddLaws(a[e - 1], 0, 0);
        a[e] := a[e - 1];
      }
      e := e - 1;
    }
    CoefficientNonzero(t, 0);
    CoefficientStep(t, 0);
    var l := LookupLog(a[0]);
    var m := ModN(l + t);
    var x := LookupExponent(m);
    PowerProduct(a[0], t);
    a[0] := x;
  }

  method TakeLogs(a: array<bv8>, n: nat)
    requires n < 255 && Holds(a, n)
    modifies a
    ensures HoldsLogs(a, n)
  {
    hide Coefficient, LogByte;
    var t := 0;
    while t <= n
      invariant t <= n + 1
      invariant forall e :: t <= e <= n ==> a[e] == Coefficient(n, e)
      invariant forall e :: 0 <= e < t ==> Coefficient(n, e) != 0 && a[e] == LogByte(Coefficient(n, e))
    {
      CoefficientNonzero(n, t);
      var l := LookupLogByte(a[t]);
      a[t] := l;
      t := t + 1;
    }
  }

  // ---------------------------------------------------------------- the shift register

  /** Only the n bytes from position i on may have changed since `was`. */
  ghost predicate OnlyRegister(h: array<bv8>, was: seq<bv8>, i: nat, n: nat)
    reads h
  {
    |was| == h.Length && forall j :: 0 <= j < |was| && !(i <= j < i + n) ==> h[j] == was[j]
  }

  /** The bytes from position i on are r. */
  ghost predicate RegisterIs(h: array<bv8>, r: seq<bv8>, i: nat)
    reads h
  {
    i + |r| <= h.Length && forall j :: i <= j < i + |r| ==> h[j] == r[j - i]
  }

  /** The branch of a nonzero feedback byte f: shift left and add the generator times f. */
  method FeedByte(h: array<bv8>, a: array<bv8>, i: nat, n: nat, f: bv8, s: nat, ghost r: seq<bv8>, ghost b: bv8)
    requires a != h && a.Length == n + 1 && HoldsLogs(a, n)
    requires |r| == n > 0 && RegisterIs(h, r, i) && f == Add(b, r[0]) && f != 0 && s == LogOf(f)
    modifies h
    ensures RegisterIs(h, Feed(r, b), i) && OnlyRegister(h, old(h[..]), i, n)
  {
    hide Alpha, Mul, Coefficient, LogByte, LogOf, Feed;
    ghost var was := h[..];
    ghost var r' := Feed(r, b);
    var o := 1;
    while o < n
      invariant 1 <= o <= n
      invariant forall j :: i <= j < i + o - 1 ==> h[j] == r'[j - i]
      invariant forall j :: i + o - 1 <= j < i + n ==> h[j] == r[j - i]
      invariant OnlyRegister(h, was, i, n)
    {
      var x := Product(s, a[n - o], f, Coefficient(n, n - o));
      FeedAt(r, b, o - 1);
      h[i + o - 1] := h[i + o] ^ x;
      o := o + 1;
    }
    var x := Product(s, a[0], f, Coefficient(n, 0));
    FeedAt(r, b, n - 1);
    AddLaws(x, 0, 0);
    h[i + n - 1] := x;
  }

  /** The branch of a zero feedback byte: shift left. */
  method ShiftByte(h: array<bv8>, i: nat, n: nat, ghost r: seq<bv8>, ghost b: bv8)
    requires |r| == n > 0 && RegisterIs(h, r, i) && Add(b, r[0]) == 0 && i + n < h.Length
    modifies h
    ensures RegisterIs(h, Feed(r, b), i) && OnlyRegister(h, old(h[..]), i, n)
  {
    hide Feed, Add;
    ghost var was := h[..];
    ghost var r' := Feed(r, b);
    var o := i;
    while o < i + n
      invariant i <= o <= i + n
      invariant forall j :: i <= j < o && j < i + n - 1 ==> h[j] == r'[j - i]
      invariant forall j :: o <= j < i + n ==> h[j] == r[j - i]
      invariant OnlyRegister(h, was, i, n)
    {
      FeedShift(r, b, o - i);
      h[o] := h[o + 1];
      o := o + 1;
    }
    FeedShift(r, b, n - 1);
    h[i + n - 1] := 0;
  }

  /** Writes at position i of h the n error-correction codewords of the e data codewords at t. */
  method AppendData(h: array<bv8>, a: array<bv8>, t: nat, e: nat, i: nat, n: nat)
    requires a != h && a.Length == n + 1 && HoldsLogs(a, n)
    requires n > 0 && t + e <= i && i + n < h.Length
    modifies h
    ensures h[i..i + n] == Register(h[t..t + e], n)
    ensures OnlyRegister(h, old(h[..]), i, n)
  {
    hide Coefficient, Feed, LogByte, LogOf, Register;
    ghost var was := h[..];
    ghost var d := was[t..t + e];
    ClearRegister(h, i, n);
    var r := 0;
    while r < e
      invariant r <= e
      invariant RegisterIs(h, Register(d[..r], n), i)
      invariant OnlyRegister(h, was, i, n)
    {
      ghost var reg := Register(d[..r], n);
      var b := h[t + r];
      var f := b ^ h[i];
      var s := LookupLog(f);
      RegisterAppend(d[..r], b, n);
      assert d[..r + 1] == d[..r] + [b];
      if s != 255 {
        FeedByte(h, a, i, n, f, s, reg, b);
      } else {
        ShiftByte(h, i, n, reg, b);
      }
      r := r + 1;
    }
    assert d[..e] == d;
    assert h[t..t + e] == d;
  }

  method ClearRegister(h: array<bv8>, i: nat, n: nat)
    requires n > 0 && i + n < h.Length
    modifies h
    ensures RegisterIs(h, Register([], n), i) && OnlyRegister(h, old(h[..]), i, n)
  {
    ghost var was := h[..];
    var r := 0;
    while r < n
      invariant r <= n
      invariant forall j :: i <= j < i + r ==> h[j] == 0
      invariant OnlyRegister(h, was, i, n)
    {
      h[i + r] := 0;
      r := r + 1;
    }
  }
}
