/** Hexadecimal text of numbers and buffers. */
module Hex {
  import opened Options
  import opened Numerals

  function HexLetter(d: nat): char
    requires d < 16
  {
    if d < 10 then ('0' as int + d) as char else ('a' as int + d - 10) as char
  }

  lemma LettersAre(d: nat)
    requires d < 16
    ensures HexLetter(d) == "0123456789abcdef"[d]
  {
  }

  function Nibble(c: char): (r: Option<nat>)
    ensures r.Some? ==> r.value < 16
  {
    if '0' <= c <= '9' then Some(c as nat - '0' as nat)
    else if 'a' <= c <= 'f' then Some(c as nat - 'a' as nat + 10)
    else if 'A' <= c <= 'F' then Some(c as nat - 'A' as nat + 10)
    else None
  }

  /** A number in hexadecimal, without leading zeros. */
  function HexOf(n: nat): (s: string)
    ensures s != ""
  {
    if n < 16 then [HexLetter(n)] else HexOf(n / 16) + [HexLetter(n % 16)]
  }

  /** The bytes of a hexadecimal text: pairs of letters, up to the first that are none. */
  function FromHex(s: string): (bs: seq<nat>)
    ensures Below(bs, 256)
  {
    if |s| < 2 || Nibble(s[0]).None? || Nibble(s[1]).None? then []
    else [16 * Nibble(s[0]).value + Nibble(s[1]).value] + FromHex(s[2..])
  }

  function ToHex(bs: seq<nat>): (s: string)
    requires Below(bs, 256)
    ensures |s| == 2 * |bs|
  {
    if bs == [] then ""
    else
      assert bs[0] in bs;
      BelowRest(bs);
      [HexLetter(bs[0] / 16), HexLetter(bs[0] % 16)] + ToHex(bs[1..])
  }

  lemma BelowRest(bs: seq<nat>)
    requires Below(bs, 256) && bs != []
    ensures Below(bs[1..], 256)
  {
    var rest := bs[1..];
    assert forall d :: d in rest ==> d in bs;
  }

  lemma NibbleOfLetter(d: nat)
    requires d < 16
    ensures Nibble(HexLetter(d)) == Some(d)
  {
  }

  /** A printed buffer reads back. */
  lemma {:induction false} FromToHex(bs: seq<nat>)
    requires Below(bs, 256)
    ensures FromHex(ToHex(bs)) == bs
  {
    hide Nibble, HexLetter;
    if bs != [] {
      BelowRest(bs);
      assert bs[0] in bs;
      NibbleOfLetter(bs[0] / 16);
      NibbleOfLetter(bs[0] % 16);
      FromToHex(bs[1..]);
      assert ToHex(bs)[2..] == ToHex(bs[1..]);
    }
  }

  predicate IsHex(s: string) {
    forall k :: 0 <= k < |s| ==> Nibble(s[k]).Some?
  }

  lemma {:induction false} FromHexMore(s: string, t: string)
    requires IsHex(s) && |s| % 2 == 0
    ensures FromHex(s + t) == FromHex(s) + FromHex(t)
  {
    hide Nibble;
    if s == "" {
      assert s + t == t;
    } else {
      FromHexMore(s[2..], t);
      assert (s + t)[2..] == s[2..] + t;
    }
  }

  lemma {:induction false} HexOfIsHex(n: nat)
    ensures IsHex(HexOf(n))
  {
    hide Nibble, HexLetter;
    NibbleOfLetter(n % 16);
    if n >= 16 {
      HexOfIsHex(n / 16);
    }
  }

  lemma {:induction false} FromHexLength(s: string)
    requires IsHex(s)
    ensures |FromHex(s)| == |s| / 2
  {
    hide Nibble;
    if |s| >= 2 {
      FromHexLength(s[2..]);
    }
  }

  /** Two more letters are one more byte. */
  lemma TwoMore(s: string, a: nat, b: nat)
    requires IsHex(s) && |s| % 2 == 0 && a < 16 && b < 16
    ensures FromHex(s + [HexLetter(a), HexLetter(b)]) == FromHex(s) + [16 * a + b]
  {
    hide Nibble, HexLetter, FromHex;
    var t := [HexLetter(a), HexLetter(b)];
    NibbleOfLetter(a);
    NibbleOfLetter(b);
    FromHexMore(s, t);
    PairBytes(t, a, b);
  }

  lemma PairBytes(t: string, a: nat, b: nat)
    requires |t| == 2 && Nibble(t[0]) == Some(a) && Nibble(t[1]) == Some(b)
    ensures FromHex(t) == [16 * a + b]
  {
    hide Nibble;
    NoBytes();
    assert t[2..] == "";
    assert FromHex(t) == [16 * a + b] + FromHex("");
  }

  lemma ByteSplit(n: nat)
    ensures n / 16 / 16 == n / 256 && 16 * (n / 16 % 16) + n % 16 == n % 256
  {
  }

  lemma HexOfTwo(n: nat)
    requires n >= 256
    ensures HexOf(n) == HexOf(n / 256) + [HexLetter(n / 16 % 16), HexLetter(n % 16)]
    ensures |HexOf(n)| == |HexOf(n / 256)| + 2
  {
    hide HexLetter;
    ByteSplit(n);
    assert HexOf(n) == HexOf(n / 16) + [HexLetter(n % 16)];
    assert HexOf(n / 16) == HexOf(n / 256) + [HexLetter(n / 16 % 16)];
  }

  /** The bytes of a number's hexadecimal text have its value, unless a digit is left over. */
  lemma {:induction false} BytesOfNumber(n: nat)
    ensures Value(FromHex(HexOf(n)), 256) == if |HexOf(n)| % 2 == 0 then n else n / 16
    ensures |FromHex(HexOf(n))| == |HexOf(n)| / 2
  {
    hide Nibble, HexLetter, HexOf, FromHex, Value;
    HexOfIsHex(n);
    FromHexLength(HexOf(n));
    if |HexOf(n)| % 2 == 0 {
      EvenNumber(n);
    } else {
      OddNumber(n);
    }
  }

  lemma SmallHex(n: nat)
    ensures n < 16 ==> HexOf(n) == [HexLetter(n)]
    ensures 16 <= n < 256 ==> HexOf(n) == [HexLetter(n / 16), HexLetter(n % 16)]
  {
    hide HexLetter;
    if 16 <= n < 256 {
      assert HexOf(n / 16) == [HexLetter(n / 16)];
    }
  }

  lemma {:induction false} EvenNumber(n: nat)
    requires |HexOf(n)| % 2 == 0
    ensures Value(FromHex(HexOf(n)), 256) == n
  {
    hide Nibble, HexLetter, HexOf, FromHex, Value;
    SmallHex(n);
    if n < 256 {
      assert "" + HexOf(n) == HexOf(n);
      TwoMore("", n / 16, n % 16);
      NoBytes();
      LastValue([], n, 256);
      assert [] + [n] == [n];
      ByteSplit(n);
    } else {
      HexOfTwo(n);
      EvenNumber(n / 256);
      HexOfIsHex(n / 256);
      TwoMore(HexOf(n / 256), n / 16 % 16, n % 16);
      ByteSplit(n);
      LastValue(FromHex(HexOf(n / 256)), n % 256, 256);
    }
  }

  lemma NoBytes()
    ensures FromHex("") == [] && Value([], 256) == 0
  {
  }

  lemma OneMore(s: string, a: char)
    requires IsHex(s) && |s| % 2 == 0
    ensures FromHex(s + [a]) == FromHex(s)
  {
    hide Nibble;
    FromHexMore(s, [a]);
  }

  lemma OddNumber(n: nat)
    requires |HexOf(n)| % 2 == 1
    ensures Value(FromHex(HexOf(n)), 256) == n / 16
  {
    hide Nibble, HexLetter, FromHex, Value;
    if n < 16 {
      OneMore("", HexLetter(n));
      assert "" + HexOf(n) == HexOf(n);
      NoBytes();
    } else {
      EvenNumber(n / 16);
      HexOfIsHex(n / 16);
      OneMore(HexOf(n / 16), HexLetter(n % 16));
    }
  }

  lemma {:induction false} HexLength(n: nat, k: nat)
    requires k > 0
    ensures |HexOf(n)| <= k <==> n < Pow(16, k)
    decreases k
  {
    hide HexLetter, Quot;
    if k == 1 {
      assert Pow(16, 1) == 16 * Pow(16, 0);
    } else if n >= 16 {
      HexLength(n / 16, k - 1);
    } else {
      PowAtLeast(k);
    }
  }

  lemma {:induction false} PowAtLeast(k: nat)
    requires k > 0
    ensures Pow(16, k) >= 16
  {
    if k == 1 {
      assert Pow(16, 1) == Pow(16, 0) * 16;
    } else {
      PowAtLeast(k - 1);
    }
  }
}
