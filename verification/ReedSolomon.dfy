/** Reed-Solomon codes over GF(256). A polynomial is a sequence of bytes, highest degree first. */
module ReedSolomon {
  import opened Galois

  ghost function Zeros(n: nat): (z: seq<bv8>)
    ensures |z| == n && forall k :: 0 <= k < n ==> z[k] == 0
  {
    seq(n, _ => 0)
  }

  ghost function Xor(p: seq<bv8>, q: seq<bv8>): (r: seq<bv8>)
    requires |p| == |q|
    ensures |r| == |p| && forall k :: 0 <= k < |r| ==> r[k] == Add(p[k], q[k])
  {
    seq(|p|, k requires 0 <= k < |p| => Add(p[k], q[k]))
  }

  ghost function Scale(f: bv8, p: seq<bv8>): (r: seq<bv8>)
    ensures |r| == |p| && forall k :: 0 <= k < |r| ==> r[k] == Mul(f, p[k])
  {
    seq(|p|, k requires 0 <= k < |p| => Mul(f, p[k]))
  }

  /** Horner's rule. */
  ghost function Eval(p: seq<bv8>, x: bv8): bv8 {
    if p == [] then 0 else Add(Mul(Eval(p[..|p| - 1], x), x), p[|p| - 1])
  }

  /** The product of two polynomials; `g` is not empty. */
  ghost function Times(q: seq<bv8>, g: seq<bv8>): (r: seq<bv8>)
    requires |g| > 0
    ensures |r| == |q| + |g| - 1
  {
    if q == [] then Zeros(|g| - 1)
    else Xor(Times(q[..|q| - 1], g) + [0], Zeros(|q| - 1) + Scale(q[|q| - 1], g))
  }

  // ---------------------------------------------------------------- evaluation is a ring morphism

  lemma EvalAppend(p: seq<bv8>, c: bv8, x: bv8)
    ensures Eval(p + [c], x) == Add(Mul(Eval(p, x), x), c)
  {
    assert (p + [c])[..|p|] == p;
  }

  lemma {:induction false} EvalZeros(n: nat, x: bv8)
    ensures Eval(Zeros(n), x) == 0
  {
    hide Mul, Add;
    if n > 0 {
      EvalZeros(n - 1, x);
      assert Zeros(n)[..n - 1] == Zeros(n - 1);
      MulZero(x);
      AddLaws(0, 0, 0);
    }
  }

  lemma {:induction false} EvalPadded(n: nat, p: seq<bv8>, x: bv8)
    ensures Eval(Zeros(n) + p, x) == Eval(p, x)
  {
    hide Mul, Add;
    if p == [] {
      EvalZeros(n, x);
      assert Zeros(n) + p == Zeros(n);
    } else {
      var m := |p| - 1;
      EvalPadded(n, p[..m], x);
      assert Zeros(n) + p == (Zeros(n) + p[..m]) + [p[m]];
      EvalAppend(Zeros(n) + p[..m], p[m], x);
    }
  }

  lemma {:induction false} EvalXor(p: seq<bv8>, q: seq<bv8>, x: bv8)
    requires |p| == |q|
    ensures Eval(Xor(p, q), x) == Add(Eval(p, x), Eval(q, x))
  {
    hide Mul, Add;
    if p == [] {
      AddLaws(0, 0, 0);
    } else {
      var m := |p| - 1;
      EvalXor(p[..m], q[..m], x);
      assert Xor(p, q)[..m] == Xor(p[..m], q[..m]);
      var a, b := Eval(p[..m], x), Eval(q[..m], x);
      MulDistributesRight(x, a, b);
      AddPairs(Mul(a, x), Mul(b, x), p[m], q[m]);
    }
  }

  lemma {:induction false} EvalScale(f: bv8, p: seq<bv8>, x: bv8)
    ensures Eval(Scale(f, p), x) == Mul(f, Eval(p, x))
  {
    hide Mul, Add;
    if p == [] {
      MulZero(f);
    } else {
      var m := |p| - 1;
      EvalScale(f, p[..m], x);
      assert Scale(f, p)[..m] == Scale(f, p[..m]);
      MulAssociates(f, Eval(p[..m], x), x);
      MulDistributes(f, Mul(Eval(p[..m], x), x), p[m]);
    }
  }

  /** The value of a product is the product of the values. */
  lemma {:induction false} EvalTimes(q: seq<bv8>, g: seq<bv8>, x: bv8)
    requires |g| > 0
    ensures Eval(Times(q, g), x) == Mul(Eval(q, x), Eval(g, x))
  {
    hide Mul, Add, Eval;
    if q == [] {
      EvalZeros(|g| - 1, x);
      assert Eval([], x) == 0 by {
        EvalZeros(0, x);
        assert Zeros(0) == [];
      }
      MulZero(Eval(g, x));
    } else {
      var m := |q| - 1;
      var h, f := q[..m], q[m];
      EvalTimes(h, g, x);
      EvalXor(Times(h, g) + [0], Zeros(m) + Scale(f, g), x);
      EvalAppend(Times(h, g), 0, x);
      EvalPadded(m, Scale(f, g), x);
      EvalScale(f, g, x);
      assert q == h + [f];
      EvalAppend(h, f, x);
      var a, b := Eval(h, x), Eval(g, x);
      var ax, fb := Mul(a, x), Mul(f, b);
      assert Mul(Mul(a, b), x) == Mul(ax, b) by {
        MulAssociates(a, b, x);
        MulCommutes(b, x);
        MulAssociates(a, x, b);
      }
      MulDistributesRight(b, ax, f);
      AddLaws(Mul(ax, b), fb, 0);
    }
  }

  // ---------------------------------------------------------------- the generator polynomial

  /** (x + 1)(x + alpha)...(x + alpha^(n-1)) */
  ghost function Generator(n: nat): (g: seq<bv8>)
    ensures |g| == n + 1
  {
    if n == 0 then [1] else Times(Generator(n - 1), [1, Alpha(n - 1)])
  }

  /** A word that vanishes at the first n powers of the generator. */
  ghost predicate IsCodeword(w: seq<bv8>, n: nat) {
    forall t: nat :: t < n ==> Eval(w, Alpha(t)) == 0
  }

  lemma EvalLinear(a: bv8, x: bv8)
    ensures Eval([1, a], x) == Add(x, a)
  {
    hide Mul, Add, Eval;
    assert [1, a] == [1] + [a];
    EvalAppend([1], a, x);
    assert [1] == Zeros(0) + [1];
    EvalAppend(Zeros(0), 1, x);
    EvalZeros(0, x);
    MulZero(x);
    AddLaws(1, 0, 0);
    MulOne(x);
  }

  lemma {:induction false} GeneratorRoots(n: nat)
    ensures IsCodeword(Generator(n), n)
  {
    hide Mul, Add, Eval, Times, Alpha;
    forall t: nat | t < n
      ensures Eval(Generator(n), Alpha(t)) == 0
    {
      var x := Alpha(t);
      EvalTimes(Generator(n - 1), [1, Alpha(n - 1)], x);
      EvalLinear(Alpha(n - 1), x);
      AddCancels(x, Alpha(n - 1));
      if t == n - 1 {
        MulZero(Eval(Generator(n - 1), x));
      } else {
        GeneratorRoots(n - 1);
        MulZero(Add(x, Alpha(n - 1)));
      }
    }
  }
}
