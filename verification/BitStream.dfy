/** The data bit stream of a symbol in byte mode, sections 7.4.5, 7.4.9 and 7.4.10 of
    ISO/IEC 18004:2015: mode 0100, the character count, the bytes, a zero nibble, padding. */
module BitStream {
  import opened Bytes
  import opened Options

  /** The low nibble of one byte followed by the high nibble of the next. */
  function Join(a: bv8, b: bv8): bv8 {
    (a << 4) | (b >> 4)
  }

  /** A byte count as a 16-bit word. */
  function Word(t: nat): bv16
    requires t < 65536
  {
    (((t / 256) as bv16) << 8) | ((t % 256) as bv16)
  }

  function High(t: nat): bv8
    requires t < 65536
  {
    (t / 256) as bv8
  }

  function Low(t: nat): bv8 {
    (t % 256) as bv8
  }

  lemma WordParts(t: nat)
    requires t < 4096
    ensures Word(t) >> 4 <= 0xFF && Word(t) >> 12 == 0
    ensures 0x40 | (Word(t) >> 12) as bv8 == Join(4, High(t))
    ensures (Word(t) >> 4) as bv8 == Join(High(t), Low(t))
    ensures ((Word(t) << 4) & 0xFF) as bv8 == Low(t) << 4
  {
  }

  lemma WordShort(t: nat)
    requires t < 256
    ensures Word(t) >> 4 <= 0xF
    ensures 0x40 | (Word(t) >> 4) as bv8 == Join(4, Low(t))
    ensures ((Word(t) << 4) & 0xFF) as bv8 == Low(t) << 4
  {
  }

  // ---------------------------------------------------------------- the stream

  /** The mode indicator, in the low nibble of the first byte, and the character count. */
  function Header(version: nat, t: nat): (h: seq<bv8>)
    requires t < 65536
    ensures |h| == if version > 9 then 3 else 2
  {
    if version > 9 then [4, High(t), Low(t)] else [4, Low(t)]
  }

  /** The stream before it is moved up by the four bits that the mode indicator leaves free. */
  function Unshifted(version: nat, value: seq<bv8>): (x: seq<bv8>)
    requires |value| < 65536
    ensures |x| == |value| + if version > 9 then 4 else 3
  {
    Header(version, |value|) + value + [0]
  }

  function Shifted(x: seq<bv8>): (s: seq<bv8>)
    requires x != []
    ensures |s| == |x| - 1
    ensures forall k :: 0 <= k < |s| ==> s[k] == Join(x[k], x[k + 1])
  {
    seq(|x| - 1, k requires 0 <= k < |x| - 1 => Join(x[k], x[k + 1]))
  }

  function PadByte(k: int): bv8 {
    if k % 2 == 0 then 236 else 17
  }

  /** The data codewords of a symbol with the given capacity. */
  function Codewords(version: nat, value: seq<bv8>, capacity: nat): (s: seq<bv8>)
    requires |value| < 65536 && |value| + 3 <= capacity + (if version > 9 then 0 else 1)
    ensures |s| == capacity
  {
    var s := Shifted(Unshifted(version, value));
    s + seq(capacity - |s|, k requires 0 <= k < capacity - |s| => PadByte(k))
  }

  // ---------------------------------------------------------------- as bits

  function BitsOfByte(b: bv8): (s: seq<bool>)
    ensures |s| == 8
  {
    [b & 0x80 != 0, b & 0x40 != 0, b & 0x20 != 0, b & 0x10 != 0, b & 8 != 0, b & 4 != 0, b & 2 != 0, b & 1 != 0]
  }

  /** The bits of a byte sequence, most significant bit of each byte first. */
  function Bits(s: seq<bv8>): (r: seq<bool>)
    ensures |r| == 8 * |s|
  {
    if s == [] then [] else Bits(s[..|s| - 1]) + BitsOfByte(s[|s| - 1])
  }

  lemma JoinBitValues(a: bv8, b: bv8)
    ensures var c := Join(a, b);
            && (c & 0x80 != 0) == (a & 8 != 0) && (c & 0x40 != 0) == (a & 4 != 0)
            && (c & 0x20 != 0) == (a & 2 != 0) && (c & 0x10 != 0) == (a & 1 != 0)
            && (c & 8 != 0) == (b & 0x80 != 0) && (c & 4 != 0) == (b & 0x40 != 0)
            && (c & 2 != 0) == (b & 0x20 != 0) && (c & 1 != 0) == (b & 0x10 != 0)
  {
  }

  lemma JoinBits(a: bv8, b: bv8)
    ensures BitsOfByte(Join(a, b)) == BitsOfByte(a)[4..] + BitsOfByte(b)[..4]
  {
    hide Join, BitsOfByte;
    JoinBitValues(a, b);
    EightBits(a);
    EightBits(b);
    EightBits(Join(a, b));
    Halves(BitsOfByte(Join(a, b)), BitsOfByte(a), BitsOfByte(b));
  }

  lemma EightBits(b: bv8)
    ensures var s := BitsOfByte(b);
            && s[0] == (b & 0x80 != 0) && s[1] == (b & 0x40 != 0) && s[2] == (b & 0x20 != 0)
            && s[3] == (b & 0x10 != 0) && s[4] == (b & 8 != 0) && s[5] == (b & 4 != 0)
            && s[6] == (b & 2 != 0) && s[7] == (b & 1 != 0)
  {
  }

  lemma Halves(c: seq<bool>, a: seq<bool>, b: seq<bool>)
    requires |c| == 8 && |a| == 8 && |b| == 8
    requires c[0] == a[4] && c[1] == a[5] && c[2] == a[6] && c[3] == a[7]
    requires c[4] == b[0] && c[5] == b[1] && c[6] == b[2] && c[7] == b[3]
    ensures c == a[4..] + b[..4]
  {
  }

  lemma {:induction false} ShiftedBits(x: seq<bv8>)
    requires x != []
    ensures Bits(x)[4..8 * |x| - 4] == Bits(Shifted(x))
  {
    hide Bits, Shifted, BitsOfByte, Join;
    var m := |x| - 1;
    if m == 0 {
      assert Shifted(x) == [];
    } else {
      ShiftedBits(x[..m]);
      ShiftedLast(x);
      BitsLast(x);
      BitsLast(x[..m]);
      assert x[..m][..m - 1] == x[..m - 1];
      JoinBits(x[m - 1], x[m]);
      BitsAppend(Shifted(x[..m]), Join(x[m - 1], x[m]));
      MoveUp(Bits(x[..m - 1]), BitsOfByte(x[m - 1]), BitsOfByte(x[m]));
    }
  }

  lemma ShiftedLast(x: seq<bv8>)
    requires |x| > 1
    ensures Shifted(x) == Shifted(x[..|x| - 1]) + [Join(x[|x| - 2], x[|x| - 1])]
  {
    hide Join;
  }

  lemma BitsLast(x: seq<bv8>)
    requires x != []
    ensures Bits(x) == Bits(x[..|x| - 1]) + BitsOfByte(x[|x| - 1])
  {
    hide BitsOfByte;
  }

  lemma MoveUp(p: seq<bool>, a: seq<bool>, b: seq<bool>)
    requires |a| == 8 && |b| == 8
    ensures (p + a + b)[4..|p| + 12] == (p + a)[4..|p| + 4] + (a[4..] + b[..4])
  {
  }

  lemma BitsAppend(s: seq<bv8>, b: bv8)
    ensures Bits(s + [b]) == Bits(s) + BitsOfByte(b)
  {
    hide BitsOfByte;
    assert (s + [b])[..|s|] == s;
  }

  lemma {:induction false} BitsConcat(s: seq<bv8>, u: seq<bv8>)
    ensures Bits(s + u) == Bits(s) + Bits(u)
  {
    hide BitsOfByte;
    if u == [] {
      assert s + u == s;
    } else {
      var m := |u| - 1;
      var v, b := u[..m], u[m];
      BitsConcat(s, v);
      BitsConcatOne(s, v, b);
      assert u == v + [b];
    }
  }

  lemma BitsConcatOne(s: seq<bv8>, v: seq<bv8>, b: bv8)
    requires Bits(s + v) == Bits(s) + Bits(v)
    ensures Bits(s + (v + [b])) == Bits(s) + Bits(v + [b])
  {
    hide *;
    BitsAppend(s + v, b);
    BitsAppend(v, b);
    Associate(s, v, [b]);
    Associate(Bits(s), Bits(v), BitsOfByte(b));
  }

  lemma Associate<T>(a: seq<T>, b: seq<T>, c: seq<T>)
    ensures (a + b) + c == a + (b + c)
  {
  }

  function PadBytes(n: nat): seq<bv8> {
    seq(n, k => PadByte(k))
  }

  lemma CodewordsSplit(version: nat, value: seq<bv8>, capacity: nat)
    requires |value| < 65536 && |value| + 3 <= capacity + (if version > 9 then 0 else 1)
    ensures Codewords(version, value, capacity) ==
            Shifted(Unshifted(version, value)) + PadBytes(capacity - |value| - (if version > 9 then 3 else 2))
  {
    hide PadByte, Join;
  }

  lemma UnshiftedBits(version: nat, value: seq<bv8>)
    requires |value| < 65536
    ensures Bits(Unshifted(version, value)) ==
            BitsOfByte(4) + Bits(Header(version, |value|)[1..]) + Bits(value) + BitsOfByte(0)
  {
    hide Bits, BitsOfByte;
    var h := Header(version, |value|);
    HeaderSplit(version, |value|);
    hide Header;
    BitsAppend(h + value, 0);
    BitsConcat(h, value);
    BitsConcat([4], h[1..]);
    OneByte(4);
  }

  lemma HeaderSplit(version: nat, t: nat)
    requires t < 65536
    ensures Header(version, t) == [4] + Header(version, t)[1..]
  {
  }

  lemma OneByte(b: bv8)
    ensures Bits([b]) == BitsOfByte(b)
  {
    hide BitsOfByte;
    BitsAppend([], b);
    assert [] + [b] == [b];
    assert Bits([]) + BitsOfByte(b) == BitsOfByte(b);
  }

  /** Bit for bit, the codewords are the mode 0100, the count, the bytes, four zero bits and the
      padding. */
  lemma CodewordBits(version: nat, value: seq<bv8>, capacity: nat)
    requires |value| < 65536 && |value| + 3 <= capacity + (if version > 9 then 0 else 1)
    ensures Bits(Codewords(version, value, capacity)) ==
            [false, true, false, false] + Bits(Header(version, |value|)[1..]) + Bits(value)
            + [false, false, false, false]
            + Bits(PadBytes(capacity - |value| - (if version > 9 then 3 else 2)))
  {
    hide Bits, BitsOfByte, Codewords, Shifted, Unshifted, Header, PadBytes;
    var x := Unshifted(version, value);
    CodewordsSplit(version, value, capacity);
    BitsConcat(Shifted(x), PadBytes(capacity - |value| - (if version > 9 then 3 else 2)));
    ShiftedBits(x);
    UnshiftedBits(version, value);
    Middle(Bits(x), BitsOfByte(4), Bits(Header(version, |value|)[1..]), Bits(value), BitsOfByte(0));
    ModeBits();
  }

  lemma ModeBits()
    ensures BitsOfByte(4)[4..] == [false, true, false, false]
    ensures BitsOfByte(0)[..4] == [false, false, false, false]
  {
  }

  lemma Middle(x: seq<bool>, m: seq<bool>, c: seq<bool>, v: seq<bool>, z: seq<bool>)
    requires |m| == 8 && |z| == 8 && x == m + c + v + z
    ensures x[4..|x| - 4] == m[4..] + c + v + z[..4]
  {
  }

  // ---------------------------------------------------------------- reading it back

  lemma JoinRestores(a: bv8, b: bv8, c: bv8)
    ensures Join(Join(a, b), Join(b, c)) == b
  {
  }

  /** What a reader makes of data codewords in byte mode. */
  function Decode(version: nat, s: seq<bv8>): Option<seq<bv8>> {
    if |s| < 3 || s[0] >> 4 != 4 then None
    else
      var start := if version > 9 then 2 else 1;
      var count := if version > 9 then 256 * (Join(s[0], s[1]) as nat) + Join(s[1], s[2]) as nat
                   else Join(s[0], s[1]) as nat;
      if |s| <= start + count then None
      else Some(Body(s, start, count))
  }

  /** The bytes that straddle codewords from one place on. */
  function Body(s: seq<bv8>, start: nat, count: nat): (value: seq<bv8>)
    requires start + count < |s|
    ensures |value| == count
  {
    seq(count, k requires 0 <= k < count => Join(s[start + k], s[start + k + 1]))
  }

  lemma JoinFirst(b: bv8)
    ensures Join(4, b) >> 4 == 4
  {
  }

  lemma CodewordJoins(version: nat, value: seq<bv8>, capacity: nat, k: nat)
    requires |value| < 65536 && |value| + 3 <= capacity + (if version > 9 then 0 else 1)
    requires k + 2 < |Unshifted(version, value)|
    ensures var s, x := Codewords(version, value, capacity), Unshifted(version, value);
            Join(s[k], s[k + 1]) == x[k + 1] && (x[k] == 4 ==> s[k] >> 4 == 4)
  {
    hide Join, Unshifted;
    var x := Unshifted(version, value);
    JoinRestores(x[k], x[k + 1], x[k + 2]);
    JoinFirst(x[k + 1]);
  }

  lemma CountBytes(t: nat)
    requires t < 65536
    ensures 256 * (High(t) as nat) + Low(t) as nat == t
    ensures t < 256 ==> Low(t) as nat == t
  {
    ByteRoundTrip(t / 256);
    ByteRoundTrip(t % 256);
  }

  lemma DecodeBody(version: nat, value: seq<bv8>, capacity: nat, start: nat)
    requires |value| < 65536 && start == if version > 9 then 2 else 1
    requires |value| + 3 <= capacity + (if version > 9 then 0 else 1)
    ensures start + |value| < |Codewords(version, value, capacity)|
    ensures Body(Codewords(version, value, capacity), start, |value|) == value
  {
    hide Join, Codewords, High, Low;
    var s := Codewords(version, value, capacity);
    forall k | 0 <= k < |value|
      ensures Join(s[start + k], s[start + k + 1]) == value[k]
    {
      CodewordJoins(version, value, capacity, start + k);
    }
  }

  lemma DecodeCount(version: nat, value: seq<bv8>, capacity: nat)
    requires |value| < (if version > 9 then 65536 else 256) && 3 <= capacity
    requires |value| + 3 <= capacity + (if version > 9 then 0 else 1)
    ensures var s := Codewords(version, value, capacity);
            && |s| >= 3 && s[0] >> 4 == 4
            && |value| == if version > 9 then 256 * (Join(s[0], s[1]) as nat) + Join(s[1], s[2]) as nat
                          else Join(s[0], s[1]) as nat
  {
    hide Join, Codewords, High, Low;
    CountBytes(|value|);
    CodewordJoins(version, value, capacity, 0);
    if version > 9 {
      CodewordJoins(version, value, capacity, 1);
    }
  }

  /** Reading the codewords gives back the encoded bytes. */
  lemma DecodeCodewords(version: nat, value: seq<bv8>, capacity: nat)
    requires |value| < (if version > 9 then 65536 else 256) && 3 <= capacity
    requires |value| + 3 <= capacity + (if version > 9 then 0 else 1)
    ensures Decode(version, Codewords(version, value, capacity)) == Some(value)
  {
    hide Join, Codewords, Body;
    DecodeCount(version, value, capacity);
    DecodeBody(version, value, capacity, if version > 9 then 2 else 1);
  }
}
