/** What the error-correction codewords of a block are worth: the distance of the code, the
    generator's coefficients, and the division that yields the codewords. */
module BlockCode {
  import opened Galois
  import opened ReedSolomon

  // ---------------------------------------------------------------- sparse power sums

  datatype Term = Term(c: bv8, e: nat)

  /** The sum of c * alpha^(e * t) over the terms. */
  ghost function PowerSum(ts: seq<Term>, t: nat): bv8 {
    if ts == [] then 0
    else Add(PowerSum(ts[..|ts| - 1], t), Mul(ts[|ts| - 1].c, Alpha(ts[|ts| - 1].e * t)))
  }

  ghost predicate DistinctExponents(ts: seq<Term>) {
    forall i, j :: 0 <= i < j < |ts| ==> ts[i].e % 255 != ts[j].e % 255
  }

  /** The terms that remain when the equation of t + 1 is reduced by x times the equation of t. */
  ghost function Eliminate(ts: seq<Term>, x: bv8): (r: seq<Term>)
    ensures |r| == |ts|
    ensures forall k :: 0 <= k < |r| ==> r[k] == Term(Mul(ts[k].c, Add(Alpha(ts[k].e), x)), ts[k].e)
  {
    seq(|ts|, k requires 0 <= k < |ts| => Term(Mul(ts[k].c, Add(Alpha(ts[k].e), x)), ts[k].e))
  }

  lemma TermStep(c: bv8, e: nat, x: bv8, t: nat)
    ensures Mul(Mul(c, Add(Alpha(e), x)), Alpha(e * t))
         == Add(Mul(c, Alpha(e * (t + 1))), Mul(x, Mul(c, Alpha(e * t))))
  {
    hide Mul, Add, Alpha;
    var y := Alpha(e * t);
    assert e * (t + 1) == e + e * t;
    AlphaMul(e, e * t);
    MulDistributes(c, Alpha(e), x);
    MulDistributesRight(y, Mul(c, Alpha(e)), Mul(c, x));
    MulAssociates(c, Alpha(e), y);
    MulCommutes(c, x);
    MulAssociates(x, c, y);
  }

  lemma {:induction false} EliminateSum(ts: seq<Term>, x: bv8, t: nat)
    ensures PowerSum(Eliminate(ts, x), t) == Add(PowerSum(ts, t + 1), Mul(x, PowerSum(ts, t)))
  {
    hide Mul, Add, Alpha;
    if ts == [] {
      MulZero(x);
      AddLaws(0, 0, 0);
    } else {
      var m := |ts| - 1;
      var u, c, e := ts[..m], ts[m].c, ts[m].e;
      EliminateSum(u, x, t);
      assert Eliminate(ts, x)[..m] == Eliminate(u, x);
      TermStep(c, e, x, t);
      MulDistributes(x, PowerSum(u, t), Mul(c, Alpha(e * t)));
      AddPairs(PowerSum(u, t + 1), Mul(x, PowerSum(u, t)), Mul(c, Alpha(e * (t + 1))), Mul(x, Mul(c, Alpha(e * t))));
    }
  }

  /** As many equations as unknowns: distinct powers are independent. */
  lemma {:induction false} PowersIndependent(ts: seq<Term>, n: nat)
    requires |ts| <= n && DistinctExponents(ts)
    requires forall t: nat :: t < n ==> PowerSum(ts, t) == 0
    ensures forall k :: 0 <= k < |ts| ==> ts[k].c == 0
    decreases |ts|
  {
    hide Mul, Add, Alpha, PowerSum;
    if ts != [] {
      var m := |ts| - 1;
      var x := Alpha(ts[m].e);
      var full := Eliminate(ts, x);
      assert Eliminate(ts[..m], x) == full[..m];
      forall t: nat | t < n - 1
        ensures PowerSum(full[..m], t) == 0
      {
        EliminateSum(ts, x, t);
        MulZero(x);
        AddLaws(0, 0, 0);
        LastTermGone(ts, t);
      }
      PowersIndependent(full[..m], n - 1);
      forall k | 0 <= k < m
        ensures ts[k].c == 0
      {
        var d := Add(Alpha(ts[k].e), x);
        AddCancels(Alpha(ts[k].e), x);
        if d == 0 {
          AlphaInjective(ts[k].e, ts[m].e);
        }
        assert Mul(ts[k].c, d) == full[..m][k].c;
        if ts[k].c != 0 {
          MulNonzero(ts[k].c, d);
        }
      }
      OnlyLastTerm(ts);
    }
  }

  lemma LastTermGone(ts: seq<Term>, t: nat)
    requires ts != []
    ensures var full := Eliminate(ts, Alpha(ts[|ts| - 1].e));
            PowerSum(full, t) == PowerSum(full[..|ts| - 1], t)
  {
    hide Mul, Add, Alpha;
    var m := |ts| - 1;
    var x := Alpha(ts[m].e);
    AddLaws(x, x, x);
    MulZero(ts[m].c);
    MulZero(Alpha(ts[m].e * t));
    AddLaws(PowerSum(Eliminate(ts, x)[..m], t), 0, 0);
  }

  lemma {:induction false} ZeroTerms(ts: seq<Term>, t: nat)
    requires forall k :: 0 <= k < |ts| ==> ts[k].c == 0
    ensures PowerSum(ts, t) == 0
  {
    hide Mul, Add, Alpha;
    if ts != [] {
      ZeroTerms(ts[..|ts| - 1], t);
      MulZero(Alpha(ts[|ts| - 1].e * t));
      AddLaws(0, 0, 0);
    }
  }

  lemma OnlyLastTerm(ts: seq<Term>)
    requires ts != [] && PowerSum(ts, 0) == 0
    requires forall k :: 0 <= k < |ts| - 1 ==> ts[k].c == 0
    ensures ts[|ts| - 1].c == 0
  {
    hide Mul, Add;
    var c := ts[|ts| - 1].c;
    ZeroTerms(ts[..|ts| - 1], 0);
    assert ts[|ts| - 1].e * 0 == 0;
    MulOne(c);
    AddLaws(c, 0, 0);
  }

  // ---------------------------------------------------------------- words as power sums

  /** The nonzero coefficients among the first k of p, with their exponents. */
  ghost function Terms(p: seq<bv8>, k: nat): (ts: seq<Term>)
    requires k <= |p|
  {
    if k == 0 then []
    else Terms(p, k - 1) + (if p[k - 1] == 0 then [] else [Term(p[k - 1], |p| - k)])
  }

  /** The number of nonzero bytes. */
  ghost function Weight(p: seq<bv8>): nat {
    if p == [] then 0 else Weight(p[..|p| - 1]) + (if p[|p| - 1] == 0 then 0 else 1)
  }

  lemma {:induction false} TermsShape(p: seq<bv8>, k: nat)
    requires k <= |p|
    ensures |Terms(p, k)| == Weight(p[..k])
    ensures forall i :: 0 <= i < |Terms(p, k)| ==> Terms(p, k)[i].c != 0 && |p| - k <= Terms(p, k)[i].e < |p|
    ensures forall i, j :: 0 <= i < j < |Terms(p, k)| ==> Terms(p, k)[i].e > Terms(p, k)[j].e
  {
    if k > 0 {
      TermsShape(p, k - 1);
      assert p[..k][..k - 1] == p[..k - 1];
    }
  }

  /** One more coefficient, zero or not. */
  lemma TermsStep(p: seq<bv8>, k: nat, t: nat)
    requires 0 < k <= |p|
    ensures PowerSum(Terms(p, k), t) == Add(PowerSum(Terms(p, k - 1), t), Mul(p[k - 1], Alpha((|p| - k) * t)))
  {
    hide Mul, Add, Alpha, PowerSum;
    var c := p[k - 1];
    if c == 0 {
      MulZero(Alpha((|p| - k) * t));
      AddLaws(PowerSum(Terms(p, k - 1), t), 0, 0);
      assert Terms(p, k) == Terms(p, k - 1);
    } else {
      LastTerm(Terms(p, k - 1), Term(c, |p| - k), t);
    }
  }

  lemma {:induction false} TermsSum(p: seq<bv8>, k: nat, t: nat)
    requires k <= |p|
    ensures PowerSum(Terms(p, k), t) == Mul(Eval(p[..k], Alpha(t)), Alpha((|p| - k) * t))
  {
    hide Mul, Add, Alpha, PowerSum, Terms, Eval;
    if k == 0 {
      NoTerms(p, t);
    } else {
      var c, x := p[k - 1], Alpha(t);
      TermsSum(p, k - 1, t);
      assert p[..k] == p[..k - 1] + [c];
      EvalAppend(p[..k - 1], c, x);
      HornerTerm(Eval(p[..k - 1], x), c, |p| - k, t);
      TermsStep(p, k, t);
    }
  }

  lemma NoTerms(p: seq<bv8>, t: nat)
    ensures PowerSum(Terms(p, 0), t) == Mul(Eval(p[..0], Alpha(t)), Alpha((|p| - 0) * t))
  {
    hide Mul, Add, Alpha;
    MulZero(Alpha((|p| - 0) * t));
    ZeroTerms([], t);
  }

  lemma HornerTerm(h: bv8, c: bv8, e: nat, t: nat)
    ensures Mul(Add(Mul(h, Alpha(t)), c), Alpha(e * t)) == Add(Mul(h, Alpha((e + 1) * t)), Mul(c, Alpha(e * t)))
  {
    hide Mul, Add, Alpha;
    var x, y := Alpha(t), Alpha(e * t);
    assert (e + 1) * t == t + e * t;
    AlphaMul(t, e * t);
    MulDistributesRight(y, Mul(h, x), c);
    MulAssociates(h, x, y);
  }

  lemma LastTerm(ts: seq<Term>, a: Term, t: nat)
    ensures PowerSum(ts + [a], t) == Add(PowerSum(ts, t), Mul(a.c, Alpha(a.e * t)))
  {
    assert (ts + [a])[..|ts|] == ts;
  }

  /** A codeword of at most 255 bytes with at most n nonzero bytes is zero. */
  lemma LightCodewordIsZero(w: seq<bv8>, n: nat)
    requires IsCodeword(w, n) && |w| <= 255 && Weight(w) <= n
    ensures Weight(w) == 0
  {
    hide Mul, Add, Alpha, PowerSum, Terms, Eval;
    var ts := Terms(w, |w|);
    assert w[..|w|] == w;
    TermsShape(w, |w|);
    forall t: nat | t < n
      ensures PowerSum(ts, t) == 0
    {
      TermsSum(w, |w|, t);
      MulZero(Alpha((|w| - |w|) * t));
    }
    if ts != [] {
      assert ts[0].c != 0;
      PowersIndependent(ts, n);
      assert false;
    }
  }

  lemma {:induction false} ZeroWeight(w: seq<bv8>)
    ensures Weight(w) == 0 <==> w == Zeros(|w|)
  {
    if w != [] {
      var m := |w| - 1;
      ZeroWeight(w[..m]);
      if w == Zeros(|w|) {
        assert w[..m] == Zeros(m);
      }
    }
  }

  // ---------------------------------------------------------------- distance

  /** The number of places in which two words of one length differ. */
  ghost function Distance(u: seq<bv8>, v: seq<bv8>): nat
    requires |u| == |v|
  {
    if u == [] then 0
    else Distance(u[..|u| - 1], v[..|v| - 1]) + (if u[|u| - 1] == v[|v| - 1] then 0 else 1)
  }

  lemma {:induction false} DistanceIsWeight(u: seq<bv8>, v: seq<bv8>)
    requires |u| == |v|
    ensures Distance(u, v) == Weight(Xor(u, v))
  {
    if u != [] {
      var m := |u| - 1;
      DistanceIsWeight(u[..m], v[..m]);
      assert Xor(u, v)[..m] == Xor(u[..m], v[..m]);
      AddCancels(u[m], v[m]);
    }
  }

  lemma {:induction false} DistanceTriangle(u: seq<bv8>, v: seq<bv8>, w: seq<bv8>)
    requires |u| == |v| == |w|
    ensures Distance(u, w) <= Distance(u, v) + Distance(v, w)
    ensures Distance(u, v) == Distance(v, u)
  {
    if u != [] {
      var m := |u| - 1;
      DistanceTriangle(u[..m], v[..m], w[..m]);
    }
  }

  lemma {:induction false} DistanceZero(u: seq<bv8>, v: seq<bv8>)
    requires |u| == |v|
    ensures Distance(u, v) == 0 <==> u == v
  {
    if u != [] {
      var m := |u| - 1;
      DistanceZero(u[..m], v[..m]);
      assert u == u[..m] + [u[m]] && v == v[..m] + [v[m]];
    }
  }

  lemma CodewordSum(u: seq<bv8>, v: seq<bv8>, n: nat)
    requires |u| == |v| && IsCodeword(u, n) && IsCodeword(v, n)
    ensures IsCodeword(Xor(u, v), n)
  {
    hide Eval, Alpha, Add;
    forall t: nat | t < n
      ensures Eval(Xor(u, v), Alpha(t)) == 0
    {
      EvalXor(u, v, Alpha(t));
      AddLaws(0, 0, 0);
    }
  }

  /** Two different codewords of one block differ in more than n places, n being the number of
      error-correction codewords. */
  lemma MinimumDistance(u: seq<bv8>, v: seq<bv8>, n: nat)
    requires |u| == |v| <= 255 && IsCodeword(u, n) && IsCodeword(v, n) && u != v
    ensures Distance(u, v) > n
  {
    hide Weight, Distance, IsCodeword;
    DistanceIsWeight(u, v);
    CodewordSum(u, v, n);
    DistanceZero(u, v);
    if Distance(u, v) <= n {
      LightCodewordIsZero(Xor(u, v), n);
      assert false;
    }
  }

  /** A received block with at most n / 2 wrong codewords has one possible original. */
  lemma ErrorsCorrectable(u: seq<bv8>, v: seq<bv8>, received: seq<bv8>, n: nat)
    requires |u| == |v| == |received| <= 255 && IsCodeword(u, n) && IsCodeword(v, n)
    requires 2 * Distance(u, received) <= n && 2 * Distance(v, received) <= n
    ensures u == v
  {
    hide Weight, Distance, IsCodeword;
    DistanceTriangle(u, received, v);
    DistanceTriangle(v, received, u);
    if u != v {
      MinimumDistance(u, v, n);
    }
  }

  // ---------------------------------------------------------------- coefficients of the generator

  /** Coefficient k from the left, 0 outside the polynomial. */
  function At(p: seq<bv8>, k: int): bv8 {
    if 0 <= k < |p| then p[k] else 0
  }

  lemma {:induction false} TimesLinear(p: seq<bv8>, a: bv8, k: nat)
    requires k <= |p| && p != []
    ensures |Times(p, [1, a])| == |p| + 1
    ensures Times(p, [1, a])[k] == Add(At(p, k), Mul(a, At(p, k - 1)))
  {
    hide Mul, Add;
    var m := |p| - 1;
    var h, f := p[..m], p[m];
    var low, high := Times(h, [1, a]) + [0], Zeros(m) + Scale(f, [1, a]);
    assert Times(p, [1, a]) == Xor(low, high);
    MulOne(f);
    MulCommutes(f, a);
    AddLaws(low[k], 0, 0);
    AddLaws(high[k], low[k], 0);
    if k <= m {
      if h == [] {
        MulZero(a);
        AddLaws(f, 0, 0);
      } else {
        TimesLinear(h, a, k);
        AddLaws(Mul(a, p[m - 1]), 0, 0);
        AddLaws(p[m], Mul(a, p[m - 1]), 0);
      }
    }
  }

  lemma {:induction false} GeneratorLeads(n: nat)
    ensures Generator(n)[0] == 1
  {
    hide Mul, Times, Alpha;
    if n > 0 {
      GeneratorLeads(n - 1);
      TimesLinear(Generator(n - 1), Alpha(n - 1), 0);
      MulZero(Alpha(n - 1));
      AddLaws(1, 0, 0);
    }
  }

  lemma {:induction false} WeightBounds(p: seq<bv8>)
    ensures Weight(p) <= |p|
    ensures Weight(p) == |p| ==> forall k :: 0 <= k < |p| ==> p[k] != 0
  {
    if p != [] {
      WeightBounds(p[..|p| - 1]);
    }
  }

  /** No coefficient of a generator polynomial is zero, so every one has a logarithm. */
  lemma GeneratorHasNoZero(n: nat, k: nat)
    requires k <= n < 255
    ensures Generator(n)[k] != 0
  {
    hide Weight, Generator, IsCodeword;
    var g := Generator(n);
    GeneratorRoots(n);
    GeneratorLeads(n);
    WeightBounds(g);
    ZeroWeight(g);
    if Weight(g) <= n {
      assert g[0] == 1;
      LightCodewordIsZero(g, n);
      assert false;
    }
  }

  /** The coefficient of x^e in the generator polynomial with n roots. */
  ghost function Coefficient(n: nat, e: nat): bv8
    requires e <= n
  {
    Generator(n)[n - e]
  }

  lemma CoefficientNonzero(n: nat, e: nat)
    requires e <= n < 255
    ensures Coefficient(n, e) != 0
  {
    hide Generator;
    GeneratorHasNoZero(n, n - e);
  }

  /** Multiplying by x + alpha^t adds each coefficient, alpha^t times, to the next higher one. */
  lemma CoefficientStep(t: nat, e: nat)
    requires e <= t + 1
    ensures e == t + 1 ==> Coefficient(t + 1, e) == 1
    ensures 0 < e <= t ==> Coefficient(t + 1, e) == Add(Coefficient(t, e - 1), Mul(Alpha(t), Coefficient(t, e)))
    ensures e == 0 ==> Coefficient(t + 1, e) == Mul(Alpha(t), Coefficient(t, e))
  {
    hide Mul, Add, Alpha, Times;
    if e == t + 1 {
      GeneratorLeads(t + 1);
    } else {
      TimesLinear(Generator(t), Alpha(t), t + 1 - e);
      AddLaws(Mul(Alpha(t), Coefficient(t, e)), 0, 0);
    }
  }

  // ---------------------------------------------------------------- the division

  /** The register shifted left, with the feedback byte times the generator added to it. */
  ghost function Fed(r: seq<bv8>, b: bv8): (s: seq<bv8>)
    requires r != []
    ensures |s| == |r| + 1
  {
    Xor(r + [0], Scale(Add(b, r[0]), Generator(|r|)))
  }

  /** One step of the feedback shift register for the data byte `b`. */
  ghost function Feed(r: seq<bv8>, b: bv8): (r': seq<bv8>)
    requires r != []
    ensures |r'| == |r|
  {
    Fed(r, b)[1..]
  }

  lemma FeedAt(r: seq<bv8>, b: bv8, k: nat)
    requires k < |r|
    ensures Feed(r, b)[k] == Add(At(r, k + 1), Mul(Add(b, r[0]), Coefficient(|r|, |r| - 1 - k)))
  {
    hide Mul, Add, Generator;
  }

  /** A zero feedback byte only shifts. */
  lemma FeedShift(r: seq<bv8>, b: bv8, k: nat)
    requires k < |r| && Add(b, r[0]) == 0
    ensures Feed(r, b)[k] == At(r, k + 1)
  {
    hide Mul, Add, Feed;
    FeedAt(r, b, k);
    MulZero(Coefficient(|r|, |r| - 1 - k));
    AddLaws(At(r, k + 1), 0, 0);
  }

  /** The register after the data bytes `d`. */
  ghost function Register(d: seq<bv8>, n: nat): (r: seq<bv8>)
    requires n > 0
    ensures |r| == n
  {
    if d == [] then Zeros(n) else Feed(Register(d[..|d| - 1], n), d[|d| - 1])
  }

  /** The feedback bytes along the way. */
  ghost function Quotient(d: seq<bv8>, n: nat): (q: seq<bv8>)
    requires n > 0
    ensures |q| == |d|
  {
    if d == [] then []
    else
      var m := |d| - 1;
      Quotient(d[..m], n) + [Add(d[m], Register(d[..m], n)[0])]
  }

  lemma RegisterAppend(h: seq<bv8>, b: bv8, n: nat)
    requires n > 0
    ensures Register(h + [b], n) == Feed(Register(h, n), b)
    ensures Quotient(h + [b], n) == Quotient(h, n) + [Add(b, Register(h, n)[0])]
  {
    hide Feed, Add;
    assert (h + [b])[..|h|] == h;
  }

  lemma TimesAppend(q: seq<bv8>, f: bv8, g: seq<bv8>)
    requires |g| > 0
    ensures Times(q + [f], g) == Xor(Times(q, g) + [0], Zeros(|q|) + Scale(f, g))
  {
    hide Xor, Scale, Zeros;
    assert (q + [f])[..|q|] == q;
  }

  /** Data followed by the register is the generator times the feedback bytes. */
  lemma {:induction false} Division(d: seq<bv8>, n: nat)
    requires n > 0
    ensures Times(Quotient(d, n), Generator(n)) == d + Register(d, n)
  {
    hide Mul, Add, Generator, Feed;
    if d == [] {
      assert d + Register(d, n) == Zeros(n);
    } else {
      var m := |d| - 1;
      Division(d[..m], n);
      DivisionAppend(d[..m], d[m], n);
      assert d == d[..m] + [d[m]];
    }
  }

  lemma DivisionAppend(h: seq<bv8>, b: bv8, n: nat)
    requires n > 0
    requires Times(Quotient(h, n), Generator(n)) == h + Register(h, n)
    ensures Times(Quotient(h + [b], n), Generator(n)) == h + [b] + Register(h + [b], n)
  {
    hide *;
    var r := Register(h, n);
    RegisterAppend(h, b, n);
    TimesAppend(Quotient(h, n), Add(b, r[0]), Generator(n));
    DivisionStep(h, r, b);
  }

  lemma DivisionStep(h: seq<bv8>, r: seq<bv8>, b: bv8)
    requires r != []
    ensures Xor(h + r + [0], Zeros(|h|) + Scale(Add(b, r[0]), Generator(|r|))) == h + [b] + Feed(r, b)
  {
    hide *;
    var g := Scale(Add(b, r[0]), Generator(|r|));
    ConcatAssociates(h, r, [0]);
    PrefixedSum(h, r + [0], g);
    FedLeads(r, b);
    Regroup(Xor(h + (r + [0]), Zeros(|h|) + g), h, Xor(r + [0], g), [b], Feed(r, b));
  }

  lemma Regroup(x: seq<bv8>, h: seq<bv8>, t: seq<bv8>, b: seq<bv8>, r: seq<bv8>)
    requires x == h + t && t == b + r
    ensures x == h + b + r
  {
  }

  lemma FedLeads(r: seq<bv8>, b: bv8)
    requires r != []
    ensures Xor(r + [0], Scale(Add(b, r[0]), Generator(|r|))) == [b] + Feed(r, b)
  {
    hide Mul, Add, Generator, Scale, Xor;
    GeneratorLeads(|r|);
    MulOne(Add(b, r[0]));
    AddLaws(b, r[0], r[0]);
    AddLaws(r[0], Add(b, r[0]), 0);
    AddLaws(b, 0, 0);
    HeadAndTail(Fed(r, b), b);
  }

  lemma HeadAndTail(s: seq<bv8>, b: bv8)
    requires s != [] && s[0] == b
    ensures s == [b] + s[1..]
  {
  }

  lemma ConcatAssociates(a: seq<bv8>, b: seq<bv8>, c: seq<bv8>)
    ensures a + b + c == a + (b + c)
  {
  }

  lemma PrefixedSum(h: seq<bv8>, u: seq<bv8>, v: seq<bv8>)
    requires |u| == |v|
    ensures Xor(h + u, Zeros(|h|) + v) == h + Xor(u, v)
  {
    hide Add;
    forall k | 0 <= k < |h|
      ensures Add(h[k], 0) == h[k]
    {
      AddLaws(h[k], 0, 0);
    }
  }

  /** Data followed by the register is a codeword. */
  lemma RegisterMakesCodeword(d: seq<bv8>, n: nat)
    requires n > 0
    ensures IsCodeword(d + Register(d, n), n)
  {
    Division(d, n);
    MultipleIsCodeword(Quotient(d, n), n);
  }

  lemma {:induction false} SamePrefixDistance(d: seq<bv8>, r: seq<bv8>, s: seq<bv8>)
    requires |r| == |s|
    ensures Distance(d + r, d + s) <= |r|
  {
    if r == [] {
      assert d + r == d == d + s;
      DistanceZero(d, d);
    } else {
      var m := |r| - 1;
      SamePrefixDistance(d, r[..m], s[..m]);
      assert (d + r)[..|d| + m] == d + r[..m];
      assert (d + s)[..|d| + m] == d + s[..m];
    }
  }

  /** The register is the only continuation of the data that makes a codeword, and the codewords
      are exactly the multiples of the generator polynomial. */
  lemma ParityIsUnique(d: seq<bv8>, r: seq<bv8>, n: nat)
    requires n > 0 && |r| == n && |d| + n <= 255
    ensures IsCodeword(d + r, n) <==> r == Register(d, n)
    ensures IsCodeword(d + r, n) <==> exists q :: |q| == |d| && Times(q, Generator(n)) == d + r
  {
    hide Mul, Eval, Alpha, Times, Generator, Distance, Register, Quotient;
    var c := Register(d, n);
    RegisterMakesCodeword(d, n);
    if IsCodeword(d + r, n) && r != c {
      assert (d + r)[|d|..] == r && (d + c)[|d|..] == c;
      SamePrefixDistance(d, r, c);
      MinimumDistance(d + r, d + c, n);
      assert false;
    }
    Division(d, n);
    if q :| |q| == |d| && Times(q, Generator(n)) == d + r {
      MultipleIsCodeword(q, n);
    }
  }

  lemma MultipleIsCodeword(q: seq<bv8>, n: nat)
    ensures IsCodeword(Times(q, Generator(n)), n)
  {
    hide Mul, Eval, Alpha, Times, Generator;
    GeneratorRoots(n);
    forall t: nat | t < n
      ensures Eval(Times(q, Generator(n)), Alpha(t)) == 0
    {
      EvalTimes(q, Generator(n), Alpha(t));
      MulZero(Eval(q, Alpha(t)));
    }
  }
}
