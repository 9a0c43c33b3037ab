/** Short channel ids: 64 bits printed as block height, transaction and output. */
module ShortChannelIds {
  import opened Options
  import opened Text

  predicate SignBit(x: bv64) {
    x & 0x8000_0000_0000_0000 != 0
  }

  /** Shifting right as the 64-bit library does it for unsigned numbers too: the sign bit stays. */
  function BlockHeight(x: bv64): bv64 {
    if SignBit(x) then (x >> 40) | 0xffff_ffff_ff00_0000 else x >> 40
  }

  function TxIndex(x: bv64): bv64 {
    (if SignBit(x) then (x >> 16) | 0xffff_0000_0000_0000 else x >> 16) & 0xff_ffff
  }

  function TxPosition(x: bv64): bv64 {
    x & 0xffff
  }

  function Compose(block: bv64, tx: bv64, position: bv64): bv64 {
    (block << 40) | (tx << 16) | position
  }

  lemma ShiftBack(x: bv64)
    ensures (x >> 40) << 40 == x & 0xffff_ff00_0000_0000
  {
  }

  lemma SignShiftedOut(y: bv64)
    ensures (y | 0xffff_ffff_ff00_0000) << 40 == y << 40
  {
  }

  lemma HeightBack(x: bv64)
    ensures BlockHeight(x) << 40 == x & 0xffff_ff00_0000_0000
  {
    hide SignBit;
    ShiftBack(x);
    SignShiftedOut(x >> 40);
  }

  lemma TxBack(x: bv64)
    ensures TxIndex(x) << 16 == x & 0xff_ffff_0000
  {
  }

  lemma Masks(x: bv64)
    ensures (x & 0xffff_ff00_0000_0000) | (x & 0xff_ffff_0000) | (x & 0xffff) == x
  {
  }

  /** Block 600000, transaction 5, output 1. */
  lemma Example()
    ensures BlockHeight(0x0927_C000_0005_0001) == 600000
    ensures TxIndex(0x0927_C000_0005_0001) == 5 && TxPosition(0x0927_C000_0005_0001) == 1
  {
  }

  /** The three fields put together again are the id. */
  lemma ComposeFields(x: bv64)
    ensures Compose(BlockHeight(x), TxIndex(x), TxPosition(x)) == x
  {
    hide BlockHeight, TxIndex;
    HeightBack(x);
    TxBack(x);
    Masks(x);
  }

  /** The block height printed is the upper 24 bits of the id if and only if it is below 2^23. */
  lemma HeightIs(x: bv64)
    ensures BlockHeight(x) == x >> 40 <==> x >> 40 < 0x80_0000
  {
  }

  // ---------------------------------------------------------------- as text

  const LIMIT := 0x1_0000_0000_0000_0000

  function Nat(x: bv64): (n: nat)
    ensures n < LIMIT
  {
    x as nat
  }

  function Bits(n: nat): bv64 {
    if n < LIMIT then n as bv64 else (n % LIMIT) as bv64
  }

  lemma BitsOfNat(x: bv64)
    ensures Bits(Nat(x)) == x
  {
  }

  function Show(x: bv64): string {
    Decimal(Nat(x))
  }

  /** A number read from digits, its lower 64 bits; None stands for an exception. */
  function FromString(s: string): Option<bv64> {
    if s == "" || DigitPrefix(s) != s then None else Some(Bits(DigitsValue(DigitPrefix(s))))
  }

  function Separator(greenlight: bool): char {
    if greenlight then 'x' else ':'
  }

  /** An id given as a decimal number, printed as block height, transaction and output. */
  function FromInt64(id: string, greenlight: bool): Option<string> {
    var l := FromString(id);
    if l.None? then None
    else
      var sep := [Separator(greenlight)];
      Some(Show(BlockHeight(l.value)) + sep + Show(TxIndex(l.value)) + sep + Show(TxPosition(l.value)))
  }

  /** The parts of a printed id: the last separator that occurs wins. */
  function Parts(cid: string): seq<string> {
    if 'x' in cid then Split(cid, 'x') else if ':' in cid then Split(cid, ':') else []
  }

  /** The decimal number of a printed id; the empty text for a malformed one, None for an exception. */
  function ToInt64(cid: string): Option<string> {
    var a := Parts(cid);
    if |a| != 3 then Some("")
    else
      var b, t, p := FromString(a[0]), FromString(a[1]), FromString(a[2]);
      if b.None? || t.None? || p.None? then None else Some(Show(Compose(b.value, t.value, p.value)))
  }

  method ShortChanIdToInt64(cid: string) returns (r: Option<string>)
    ensures r == ToInt64(cid)
  {
    hide Compose, FromString, Show, Split;
    if !(':' in cid || 'x' in cid) {
      return Some("");
    }
    var a: seq<string> := [];
    var seps := [':', 'x'];
    var k := 0;
    while k < 2
      invariant 0 <= k <= 2
      invariant k == 0 ==> a == []
      invariant k == 1 ==> a == if ':' in cid then Split(cid, ':') else []
      invariant k == 2 ==> a == Parts(cid)
    {
      if seps[k] in cid {
        a := Split(cid, seps[k]);
      }
      k := k + 1;
    }
    if |a| != 3 {
      return Some("");
    }
    var b, t, p := FromString(a[0]), FromString(a[1]), FromString(a[2]);
    if b.None? || t.None? || p.None? {
      return None;
    }
    r := Some(Show(Compose(b.value, t.value, p.value)));
  }

  lemma ShownReads(x: bv64)
    ensures FromString(Show(x)) == Some(x)
  {
    hide Bits, Nat, Decimal, DigitPrefix, DigitsValue;
    BitsOfNat(x);
    AllDigits(Decimal(Nat(x)));
    DecimalValue(Nat(x));
  }

  lemma ThreeParts(a: string, b: string, c: string, sep: char)
    requires sep !in a && sep !in b && sep !in c
    ensures Split(a + [sep] + b + [sep] + c, sep) == [a, b, c]
  {
    assert a + [sep] + b + [sep] + c == a + [sep] + (b + [sep] + c);
    SplitFirst(a, b + [sep] + c, sep);
    SplitFirst(b, c, sep);
    SplitWhole(c, sep);
  }

  lemma NoSeparator(x: bv64)
    ensures 'x' !in Show(x) && ':' !in Show(x)
  {
    hide Decimal, Nat;
    assert !IsDigit('x') && !IsDigit(':');
  }

  lemma PrintedParts(x: bv64, y: bv64, z: bv64, greenlight: bool)
    ensures var sep := Separator(greenlight);
            Parts(Show(x) + [sep] + Show(y) + [sep] + Show(z)) == [Show(x), Show(y), Show(z)]
  {
    hide Show, Split;
    NoSeparator(x);
    NoSeparator(y);
    NoSeparator(z);
    var sep := Separator(greenlight);
    ThreeParts(Show(x), Show(y), Show(z), sep);
    var s := Show(x) + [sep] + Show(y) + [sep] + Show(z);
    assert s[|Show(x)|] == sep;
  }

  /** Every 64-bit id comes back from its printed form, also when its block height is misprinted. */
  lemma IdComesBack(x: bv64, greenlight: bool)
    ensures FromInt64(Show(x), greenlight).Some?
    ensures ToInt64(FromInt64(Show(x), greenlight).value) == Some(Show(x))
  {
    hide BlockHeight, TxIndex, TxPosition, Compose, FromString, Parts, Separator, Show;
    ShownReads(x);
    ShownReads(BlockHeight(x));
    ShownReads(TxIndex(x));
    ShownReads(TxPosition(x));
    PrintedParts(BlockHeight(x), TxIndex(x), TxPosition(x), greenlight);
    ComposeFields(x);
  }
}
