/** Bytes regrouped as digits of 5 or 6 bits, as zbase32 and base64 do. */
module Grouping {
  import opened Numerals

  /** Groups of bytes that make groups of digits; the radix is 2^bits. */
  datatype Scheme = Scheme(bytes: nat, digits: nat, bits: nat, radix: nat)

  const QUINTS := Scheme(5, 8, 5, 32)
  const SEXTETS := Scheme(3, 4, 6, 64)

  predicate Known(c: Scheme) {
    c == QUINTS || c == SEXTETS
  }

  /** The digits that hold b bytes. */
  function DigitsFor(c: Scheme, b: nat): nat
    requires Known(c)
  {
    (8 * b + c.bits - 1) / c.bits
  }

  /** The whole bytes in d digits. */
  function BytesFor(c: Scheme, d: nat): nat
    requires Known(c)
  {
    c.bits * d / 8
  }

  /** The number a group of bytes stands for, filled up with zero bytes. */
  function Filled(c: Scheme, bs: seq<nat>): nat
    requires Known(c) && |bs| <= c.bytes
  {
    Value(bs, 256) * Pow(256, c.bytes - |bs|)
  }

  function FromGroup(c: Scheme, bs: seq<nat>): (ds: seq<nat>)
    requires Known(c) && |bs| <= c.bytes
    ensures |ds| == DigitsFor(c, |bs|) && Below(ds, c.radix)
  {
    var all := Digits(Filled(c, bs), c.radix, c.digits);
    assert forall d :: d in all[..DigitsFor(c, |bs|)] ==> d in all;
    all[..DigitsFor(c, |bs|)]
  }

  /** The number a group of digits stands for, filled up with zero digits. */
  function FilledDigits(c: Scheme, ds: seq<nat>): nat
    requires Known(c) && |ds| <= c.digits
  {
    Value(ds, c.radix) * Pow(c.radix, c.digits - |ds|)
  }

  function ToGroup(c: Scheme, ds: seq<nat>): (bs: seq<nat>)
    requires Known(c) && |ds| <= c.digits
    ensures |bs| == BytesFor(c, |ds|) && Below(bs, 256)
  {
    PowPositive(256, c.bytes - BytesFor(c, |ds|));
    Digits(Quot(FilledDigits(c, ds), Pow(256, c.bytes - BytesFor(c, |ds|))), 256, BytesFor(c, |ds|))
  }

  // ---------------------------------------------------------------- powers that occur

  lemma Powers256()
    ensures Pow(256, 0) == 1 && Pow(256, 1) == 256 && Pow(256, 2) == 0x10000 && Pow(256, 3) == 0x1000000
    ensures Pow(256, 4) == 0x1_0000_0000 && Pow(256, 5) == 0x100_0000_0000
  {
    assert Pow(256, 0) == 1;
    assert Pow(256, 1) == Pow(256, 0) * 256;
    assert Pow(256, 2) == Pow(256, 1) * 256;
    assert Pow(256, 3) == Pow(256, 2) * 256;
    assert Pow(256, 4) == Pow(256, 3) * 256;
    assert Pow(256, 5) == Pow(256, 4) * 256;
  }

  lemma Powers32()
    ensures Pow(32, 0) == 1 && Pow(32, 1) == 32 && Pow(32, 2) == 1024 && Pow(32, 3) == 0x8000
    ensures Pow(32, 4) == 0x100000 && Pow(32, 5) == 0x2000000 && Pow(32, 6) == 0x40000000
    ensures Pow(32, 7) == 0x8_0000_0000 && Pow(32, 8) == 0x100_0000_0000
  {
    assert Pow(32, 0) == 1;
    assert Pow(32, 1) == Pow(32, 0) * 32;
    assert Pow(32, 2) == Pow(32, 1) * 32;
    assert Pow(32, 3) == Pow(32, 2) * 32;
    assert Pow(32, 4) == Pow(32, 3) * 32;
    assert Pow(32, 5) == Pow(32, 4) * 32;
    assert Pow(32, 6) == Pow(32, 5) * 32;
    assert Pow(32, 7) == Pow(32, 6) * 32;
    assert Pow(32, 8) == Pow(32, 7) * 32;
  }

  lemma Powers64()
    ensures Pow(64, 0) == 1 && Pow(64, 1) == 64 && Pow(64, 2) == 4096 && Pow(64, 3) == 0x40000
    ensures Pow(64, 4) == 0x1000000
  {
    assert Pow(64, 0) == 1;
    assert Pow(64, 1) == Pow(64, 0) * 64;
    assert Pow(64, 2) == Pow(64, 1) * 64;
    assert Pow(64, 3) == Pow(64, 2) * 64;
    assert Pow(64, 4) == Pow(64, 3) * 64;
  }

  /** How many values the bits have that a group of d digits has beyond its whole bytes. */
  function Spare(c: Scheme, d: nat): (k: nat)
    requires Known(c)
    ensures k > 0
  {
    var bits := c.bits * d % 8;
    if bits == 0 then 1 else if bits == 1 then 2 else if bits == 2 then 4 else if bits == 3 then 8
    else if bits == 4 then 16 else if bits == 5 then 32 else if bits == 6 then 64 else 128
  }

  /** Filling up with bytes or with digits differs by the spare bits. */
  lemma Fillers(c: Scheme, d: nat)
    requires Known(c) && d <= c.digits
    ensures BytesFor(c, d) <= c.bytes
    ensures Pow(256, c.bytes - BytesFor(c, d)) == Spare(c, d) * Pow(c.radix, c.digits - d)
    ensures Pow(256, c.bytes) == Pow(c.radix, c.digits)
  {
    Powers256();
    Powers32();
    Powers64();
    hide Pow;
    if c == QUINTS {
      FillersOfQuints(d);
    } else {
      FillersOfSextets(d);
    }
  }

  lemma FillersOfQuints(d: nat)
    requires d <= 8
    ensures var c := QUINTS;
            BytesFor(c, d) <= 5 && Pow(256, 5 - BytesFor(c, d)) == Spare(c, d) * Pow(32, 8 - d)
  {
    Powers256();
    Powers32();
    hide Pow;
    if d == 0 {
    } else if d == 1 {
    } else if d == 2 {
    } else if d == 3 {
    } else if d == 4 {
    } else if d == 5 {
    } else if d == 6 {
    } else if d == 7 {
    } else {
    }
  }

  lemma FillersOfSextets(d: nat)
    requires d <= 4
    ensures var c := SEXTETS;
            BytesFor(c, d) <= 3 && Pow(256, 3 - BytesFor(c, d)) == Spare(c, d) * Pow(64, 4 - d)
  {
    Powers256();
    Powers64();
    hide Pow;
    if d == 0 {
    } else if d == 1 {
    } else if d == 2 {
    } else if d == 3 {
    } else {
    }
  }

  /** A group of bytes gets as many digits as it needs, and those hold no further byte. */
  lemma Fits(c: Scheme, b: nat)
    requires Known(c) && b <= c.bytes
    ensures DigitsFor(c, b) <= c.digits && BytesFor(c, DigitsFor(c, b)) == b
    ensures b < c.bytes ==> DigitsFor(c, b) < c.digits
    ensures DigitsFor(c, c.bytes) == c.digits && (b > 0 ==> DigitsFor(c, b) > 0)
  {
  }

  // ---------------------------------------------------------------- groups of bytes come back

  lemma FilledBelow(c: Scheme, bs: seq<nat>)
    requires Known(c) && |bs| <= c.bytes && Below(bs, 256)
    ensures Filled(c, bs) < Pow(c.radix, c.digits)
  {
    hide Pow, Value, BytesFor, Spare, Below;
    ValueBelow(bs, 256);
    PowPositive(256, c.bytes - |bs|);
    ProductBelow(Value(bs, 256), Pow(256, |bs|), Pow(256, c.bytes - |bs|));
    PowAdd(256, |bs|, c.bytes - |bs|);
    Fillers(c, 0);
  }

  /** The value of the first digits of a number. */
  lemma ValueOfPrefix(c: Scheme, n: nat, d: nat)
    requires Known(c) && n < Pow(c.radix, c.digits) && d <= c.digits
    ensures Pow(c.radix, c.digits - d) > 0
    ensures Digits(n, c.radix, c.digits)[..d] == Digits(Quot(n, Pow(c.radix, c.digits - d)), c.radix, d)
    ensures Value(Digits(n, c.radix, c.digits)[..d], c.radix) == Quot(n, Pow(c.radix, c.digits - d))
  {
    hide Pow, Value, Digits, Quot;
    var k := c.digits - d;
    PrefixOfDigits(n, c.radix, c.digits, d);
    DivPowBelow(n, c.radix, k, d);
    DivPowIs(n, c.radix, k);
    ValueOfDigits(DivPow(n, c.radix, k), c.radix, d);
  }

  /** Cutting a filled number off behind its digits and filling it up again changes nothing. */
  lemma Refill(v: nat, s: nat, p: nat)
    requires p > 0 && s > 0
    ensures Quot(v * (s * p), p) == v * s && Quot(v * (s * p), p) * p == v * (s * p)
  {
    hide Quot;
    Associate(v, s, p);
    QuotExact(v * s, p);
  }

  lemma SizeOfGroup(c: Scheme, bs: seq<nat>)
    requires Known(c) && |bs| <= c.bytes
    ensures |FromGroup(c, bs)| == DigitsFor(c, |bs|) <= c.digits && BytesFor(c, |FromGroup(c, bs)|) == |bs|
  {
    Fits(c, |bs|);
  }

  lemma GroupComesBack(c: Scheme, bs: seq<nat>)
    requires Known(c) && |bs| <= c.bytes && Below(bs, 256)
    ensures |FromGroup(c, bs)| <= c.digits && ToGroup(c, FromGroup(c, bs)) == bs
  {
    hide Pow, Value, Digits, Quot, BytesFor, DigitsFor, Spare, Below;
    SizeOfGroup(c, bs);
    var ds := FromGroup(c, bs);
    var d, n, v := |ds|, Filled(c, bs), Value(bs, 256);
    FilledBelow(c, bs);
    Fits(c, |bs|);
    ValueOfPrefix(c, n, d);
    Fillers(c, d);
    Refill(v, Spare(c, d), Pow(c.radix, c.digits - d));
    assert FilledDigits(c, ds) == n;
    PowPositive(256, c.bytes - |bs|);
    QuotExact(v, Pow(256, c.bytes - |bs|));
    DigitsOfValue(bs, 256);
  }

  // ---------------------------------------------------------------- groups of digits come back

  /** The bits of the last digit beyond the whole bytes are zero. */
  predicate Clean(c: Scheme, ds: seq<nat>)
    requires Known(c)
  {
    ds != [] ==> ds[|ds| - 1] % Spare(c, |ds|) == 0
  }

  lemma Cancel(w: nat, s: nat, p: nat)
    requires s > 0 && p > 0 && s * p > 0
    ensures Quot(w * p, s * p) == Quot(w, s)
  {
    hide Quot, Rest;
    var q, e := Quot(w, s), Rest(w, s);
    Unfold(w, s);
    Regroup(q, s, e, p);
    ProductBelow(e, s, p);
    Undo(q, e * p, s * p);
  }

  lemma QuotTimes(w: nat, s: nat)
    requires s > 0
    ensures Quot(w, s) * s == w <==> Rest(w, s) == 0
  {
    hide Quot, Rest;
    Unfold(w, s);
  }

  /** The remainder of a number is that of its last digit. */
  lemma RestOfLast(h: nat, last: nat, s: nat, k: nat)
    requires s > 0
    ensures Rest(h * (s * k) + last, s) == Rest(last, s)
  {
    hide Quot, Rest;
    Unfold(last, s);
    var q, e := Quot(last, s), Rest(last, s);
    Reorder(h, s, k, q);
    Undo(h * k + q, e, s);
  }

  lemma Reorder(h: nat, s: nat, k: nat, q: nat)
    ensures h * (s * k) + q * s == (h * k + q) * s
  {
    assert h * (s * k) == (h * k) * s;
  }

  lemma SpareDivides(c: Scheme, d: nat) returns (k: nat)
    requires Known(c) && d <= c.digits && DigitsFor(c, BytesFor(c, d)) == d
    ensures c.radix == Spare(c, d) * k
  {
    k := c.radix / Spare(c, d);
  }

  lemma CleanIs(c: Scheme, ds: seq<nat>)
    requires Known(c) && |ds| <= c.digits && DigitsFor(c, BytesFor(c, |ds|)) == |ds|
    ensures Clean(c, ds) <==> Rest(Value(ds, c.radix), Spare(c, |ds|)) == 0
  {
    hide Value, BytesFor, DigitsFor, Spare, Known;
    Radix(c);
    if ds == [] {
      NoDigits(0, c.radix);
      RestOfZero(Spare(c, 0));
    } else {
      var h, last := ds[..|ds| - 1], ds[|ds| - 1];
      var k := SpareDivides(c, |ds|);
      LastValue(h, last, c.radix);
      assert ds == h + [last];
      RestOfLast(Value(h, c.radix), last, Spare(c, |ds|), k);
    }
  }

  lemma RestOfZero(s: nat)
    requires s > 0
    ensures Rest(0, s) == 0
  {
  }

  lemma SameDigits(c: Scheme, ds: seq<nat>, v: nat)
    requires Known(c) && Below(ds, c.radix)
    ensures Digits(v, c.radix, |ds|) == ds ==> v < Pow(c.radix, |ds|) ==> v == Value(ds, c.radix)
    ensures v == Value(ds, c.radix) ==> Digits(v, c.radix, |ds|) == ds
  {
    hide Value, Digits, Pow, Below;
    DigitsOfValue(ds, c.radix);
    if v < Pow(c.radix, |ds|) {
      ValueOfDigits(v, c.radix, |ds|);
    }
  }

  /** A group of digits comes back exactly if it has the length of a group of bytes and is clean. */
  lemma DigitsComeBack(c: Scheme, ds: seq<nat>)
    requires Known(c) && |ds| <= c.digits && Below(ds, c.radix)
    ensures BytesFor(c, |ds|) <= c.bytes
    ensures FromGroup(c, ToGroup(c, ds)) == ds <==> DigitsFor(c, BytesFor(c, |ds|)) == |ds| && Clean(c, ds)
  {
    hide Pow, Value, Digits, Quot, Rest, BytesFor, DigitsFor, Spare, Below, Clean, Known;
    var d := |ds|;
    Radix(c);
    Fillers(c, d);
    var bs := ToGroup(c, ds);
    if DigitsFor(c, BytesFor(c, d)) == d {
      var w, s, p := Value(ds, c.radix), Spare(c, d), Pow(c.radix, c.digits - d);
      PowPositive(256, c.bytes - |bs|);
      PowPositive(c.radix, c.digits - d);
      Cancel(w, s, p);
      var v := Quot(w, s);
      assert bs == Digits(v, 256, |bs|);
      ToGroupBelow(c, ds);
      ValueOfDigits(v, 256, |bs|);
      assert Filled(c, bs) == v * (s * p);
      FilledBelow(c, bs);
      ValueOfPrefix(c, v * (s * p), d);
      Refill(v, s, p);
      assert FromGroup(c, bs) == Digits(v * s, c.radix, d);
      BelowAgain(c, v, s, w, d);
      ValueBelow(ds, c.radix);
      SameDigits(c, ds, v * s);
      QuotTimes(w, s);
      CleanIs(c, ds);
    }
  }

  lemma Radix(c: Scheme)
    requires Known(c)
    ensures c.radix > 0
  {
  }

  lemma BelowAgain(c: Scheme, v: nat, s: nat, w: nat, d: nat)
    requires Known(c) && s > 0 && v == Quot(w, s)
    ensures v * s <= w
  {
    hide Quot, Rest;
    Unfold(w, s);
  }

  lemma ToGroupBelow(c: Scheme, ds: seq<nat>)
    requires Known(c) && |ds| <= c.digits && Below(ds, c.radix)
    ensures Quot(Value(ds, c.radix), Spare(c, |ds|)) < Pow(256, BytesFor(c, |ds|))
  {
    hide Pow, Value, Quot, Rest, BytesFor, Spare, Below;
    var d := |ds|;
    ValueBelow(ds, c.radix);
    Fillers(c, d);
    var s, p, b := Spare(c, d), Pow(c.radix, c.digits - d), BytesFor(c, d);
    PowPositive(c.radix, c.digits - d);
    PowAdd(c.radix, d, c.digits - d);
    PowAdd(256, b, c.bytes - b);
    Associate(Pow(256, b), s, p);
    CancelEqual(Pow(c.radix, d), Pow(256, b) * s, p);
    QuotBelow(Value(ds, c.radix), Pow(256, b), s);
  }

  lemma CancelEqual(a: nat, b: nat, p: nat)
    requires p > 0 && a * p == b * p
    ensures a == b
  {
    if a < b {
      ProductBelow(a, b, p);
    } else if b < a {
      ProductBelow(b, a, p);
    }
  }

  // ---------------------------------------------------------------- whole byte strings

  function Pack(c: Scheme, bs: seq<nat>): (ds: seq<nat>)
    requires Known(c)
    ensures Below(ds, c.radix)
  {
    if |bs| <= c.bytes then FromGroup(c, bs) else FromGroup(c, bs[..c.bytes]) + Pack(c, bs[c.bytes..])
  }

  function Unpack(c: Scheme, ds: seq<nat>): (bs: seq<nat>)
    requires Known(c)
    ensures Below(bs, 256)
  {
    if |ds| <= c.digits then ToGroup(c, ds) else ToGroup(c, ds[..c.digits]) + Unpack(c, ds[c.digits..])
  }

  lemma BelowParts(ds: seq<nat>, r: nat, k: nat)
    requires k <= |ds| && Below(ds, r)
    ensures Below(ds[..k], r) && Below(ds[k..], r) && ds == ds[..k] + ds[k..]
  {
    var a, b := ds[..k], ds[k..];
    assert forall d :: d in a ==> d in ds;
    assert forall d :: d in b ==> d in ds;
  }

  lemma UnpackMore(c: Scheme, g: seq<nat>, rest: seq<nat>)
    requires Known(c) && |g| == c.digits
    ensures Unpack(c, g + rest) == ToGroup(c, g) + Unpack(c, rest)
  {
    hide ToGroup;
    if rest == [] {
      assert g + rest == g;
      EmptyGroup(c);
    } else {
      assert (g + rest)[..c.digits] == g && (g + rest)[c.digits..] == rest;
    }
  }

  lemma PackMore(c: Scheme, g: seq<nat>, rest: seq<nat>)
    requires Known(c) && |g| == c.bytes
    ensures Pack(c, g + rest) == FromGroup(c, g) + Pack(c, rest)
  {
    hide FromGroup;
    if rest == [] {
      assert g + rest == g;
      EmptyGroup(c);
    } else {
      assert (g + rest)[..c.bytes] == g && (g + rest)[c.bytes..] == rest;
    }
  }

  lemma EmptyGroup(c: Scheme)
    requires Known(c)
    ensures FromGroup(c, []) == [] && ToGroup(c, []) == []
    ensures Pack(c, []) == [] && Unpack(c, []) == []
  {
  }

  lemma WholeGroup(c: Scheme, bs: seq<nat>)
    requires Known(c) && |bs| == c.bytes
    ensures |FromGroup(c, bs)| == c.digits
  {
  }

  /** Every byte string comes back. */
  lemma {:induction false} BytesComeBack(c: Scheme, bs: seq<nat>)
    requires Known(c) && Below(bs, 256)
    ensures Unpack(c, Pack(c, bs)) == bs
    decreases |bs|
  {
    hide FromGroup, ToGroup, Below;
    if |bs| <= c.bytes {
      GroupComesBack(c, bs);
    } else {
      BelowParts(bs, 256, c.bytes);
      GroupComesBack(c, bs[..c.bytes]);
      BytesComeBack(c, bs[c.bytes..]);
      WholeGroup(c, bs[..c.bytes]);
      UnpackMore(c, FromGroup(c, bs[..c.bytes]), Pack(c, bs[c.bytes..]));
    }
  }

  /** The lengths that digits of whole byte strings have. */
  predicate Length(c: Scheme, d: nat)
    requires Known(c)
  {
    if c == QUINTS then d % 8 != 1 && d % 8 != 3 && d % 8 != 6 else d % 4 != 1
  }

  lemma LengthIs(c: Scheme, d: nat)
    requires Known(c) && d <= c.digits
    ensures Length(c, d) <==> DigitsFor(c, BytesFor(c, d)) == d
  {
  }

  lemma Period(c: Scheme, d: nat)
    requires Known(c)
    ensures Length(c, d + c.digits) == Length(c, d) && Spare(c, d + c.digits) == Spare(c, d)
  {
    if c == QUINTS {
      PeriodOfQuints(d);
    } else {
      PeriodOfSextets(d);
    }
  }

  lemma PeriodOfQuints(d: nat)
    ensures (d + 8) % 8 == d % 8 && 5 * (d + 8) % 8 == 5 * d % 8
  {
    var x := 5 * d;
    assert 5 * (d + 8) == x + 40;
    Around8(d, 1);
    Around8(x, 5);
  }

  lemma PeriodOfSextets(d: nat)
    ensures (d + 4) % 4 == d % 4 && 6 * (d + 4) % 8 == 6 * d % 8
  {
    var x := 6 * d;
    assert 6 * (d + 4) == x + 24;
    Around4(d);
    Around8(x, 3);
  }

  lemma Around8(x: nat, k: nat)
    ensures (x + 8 * k) % 8 == x % 8
  {
    var q := x / 8;
    assert x + 8 * k == 8 * (q + k) + x % 8;
  }

  lemma Around4(x: nat)
    ensures (x + 4) % 4 == x % 4
  {
  }

  lemma CleanTail(c: Scheme, ds: seq<nat>)
    requires Known(c) && |ds| > c.digits
    ensures Clean(c, ds) <==> Clean(c, ds[c.digits..])
  {
    hide Spare, Known;
    Period(c, |ds| - c.digits);
  }

  lemma WholeDigits(c: Scheme, g: seq<nat>)
    requires Known(c) && |g| == c.digits && Below(g, c.radix)
    ensures |ToGroup(c, g)| == c.bytes && FromGroup(c, ToGroup(c, g)) == g
  {
    hide FromGroup, ToGroup, Below;
    DigitsComeBack(c, g);
  }

  lemma SameTail(g: seq<nat>, a: seq<nat>, b: seq<nat>)
    ensures g + a == g + b <==> a == b
  {
    assert (g + a)[|g|..] == a && (g + b)[|g|..] == b;
  }

  /** Digits come back if and only if they have such a length and no spare bit is set. */
  lemma {:induction false} DigitsReturn(c: Scheme, ds: seq<nat>)
    requires Known(c) && Below(ds, c.radix)
    ensures Pack(c, Unpack(c, ds)) == ds <==> Length(c, |ds|) && Clean(c, ds)
    decreases |ds|
  {
    hide FromGroup, ToGroup, Below, Clean, Length;
    if |ds| <= c.digits {
      ShortGroup(c, ds);
      LengthIs(c, |ds|);
      DigitsComeBack(c, ds);
    } else {
      var g, rest := ds[..c.digits], ds[c.digits..];
      BelowParts(ds, c.radix, c.digits);
      WholeDigits(c, g);
      DigitsReturn(c, rest);
      PackMore(c, ToGroup(c, g), Unpack(c, rest));
      SameTail(g, Pack(c, Unpack(c, rest)), rest);
      CleanTail(c, ds);
      Period(c, |rest|);
    }
  }

  lemma ShortGroup(c: Scheme, ds: seq<nat>)
    requires Known(c) && |ds| <= c.digits
    ensures |ToGroup(c, ds)| <= c.bytes && Unpack(c, ds) == ToGroup(c, ds)
    ensures Pack(c, Unpack(c, ds)) == FromGroup(c, ToGroup(c, ds))
  {
    hide FromGroup, ToGroup, Below;
    Fillers(c, |ds|);
  }
}
