/** Facts about multiplication and division that the solver does not find by itself. */
module Arithmetic {

  lemma Multiple(a: nat, b: nat, n: nat)
    requires a <= b
    ensures a * n <= b * n
  {
  }

  lemma DivMod(q: nat, n: nat, e: nat)
    requires e < n
    ensures (q * n + e) / n == q && (q * n + e) % n == e
  {
    var x := q * n + e;
    assert x == (x / n) * n + x % n;
    if x / n < q {
      Multiple(x / n + 1, q, n);
    } else if x / n > q {
      Multiple(q + 1, x / n, n);
    }
  }

  lemma Quotient(x: nat, q: nat, n: nat)
    requires x < q * n
    ensures n > 0 && x / n < q && x % n < n && x == (x / n) * n + x % n
  {
    if n == 0 {
      assert false;
    }
    if x / n >= q {
      Multiple(q, x / n, n);
    }
  }

  /** The quotient and remainder of x, for a quotient below q. */
  lemma Split(x: nat, q: nat, n: nat) returns (b: nat, c: nat)
    requires x < q * n
    ensures n > 0 && b < q && c < n && x == b * n + c && x / n == b && x % n == c
  {
    Quotient(x, q, n);
    b, c := x / n, x % n;
  }

  lemma Below(c: nat, d: nat, n: nat, b: nat)
    requires c < d && b < n
    ensures 0 <= c * n + b < d * n
  {
    Multiple(c + 1, d, n);
  }
}
