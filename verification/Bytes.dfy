/** Bytes as bit vectors and as numbers. */
module Bytes {

  lemma Successor(b: bv8)
    requires b < 255
    ensures (b + 1) as nat == b as nat + 1
  {
  }

  lemma BelowLast(b: bv8)
    requires b as nat < 255
    ensures b < 255
  {
  }

  lemma {:induction false} ByteOf(n: nat) returns (b: bv8)
    requires n < 256
    ensures b as nat == n
  {
    if n == 0 {
      b := 0;
    } else {
      b := ByteOf(n - 1);
      BelowLast(b);
      Successor(b);
      b := b + 1;
    }
  }

  /** Converting a small number to a byte and back changes nothing. */
  lemma ByteRoundTrip(n: nat)
    requires n < 256
    ensures (n as bv8) as nat == n
  {
    var b := ByteOf(n);
    assert (b as nat) as bv8 == b;
  }
}
