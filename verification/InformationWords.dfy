/** How far apart the words of the format and version information are: what their error-correction
    bits are for, sections 7.9 and 7.10 of ISO/IEC 18004:2015. */
module InformationWords {
  import opened Finishing
  import Drawing

  function One(b: bool): nat {
    if b then 1 else 0
  }

  /** The number of bits below n in which two words differ. */
  function Differing(u: nat, v: nat, n: nat): nat {
    if n == 0 then 0 else One(FormatBit(u, 0) != FormatBit(v, 0)) + Differing(u / 2, v / 2, n - 1)
  }

  // ---------------------------------------------------------------- words as sums of data bits

  /** Six data bits, most significant first; a format word has five of them, and a is clear. */
  datatype Data = Data(a: bool, b: bool, c: bool, d: bool, e: bool, f: bool)

  function Plus(x: Data, y: Data): Data {
    Data(x.a != y.a, x.b != y.b, x.c != y.c, x.d != y.d, x.e != y.e, x.f != y.f)
  }

  datatype Code = Format | Version

  function Length(k: Code): nat {
    if k.Format? then 15 else 18
  }

  predicate FormatParity(i: nat, x: Data) {
    match i
    case 0 => (x.b != x.d) != x.f
    case 1 => (((x.b != x.c) != x.d) != x.e) != x.f
    case 2 => (x.c != x.e) != x.f
    case 3 => (x.b != x.d) != x.e
    case 4 => (x.b != x.c) != x.f
    case 5 => (x.d != x.e) != x.f
    case 6 => (x.c != x.d) != x.e
    case 7 => (x.b != x.c) != x.d
    case 8 => (x.c != x.d) != x.f
    case 9 => (x.b != x.c) != x.e
    case 10 => x.f
    case 11 => x.e
    case 12 => x.d
    case 13 => x.c
    case 14 => x.b
    case _ => false
  }

  predicate VersionLow(i: nat, x: Data) {
    match i
    case 0 => (x.a != x.e) != x.f
    case 1 => x.d != x.e
    case 2 => (((x.a != x.c) != x.d) != x.e) != x.f
    case 3 => ((x.b != x.c) != x.d) != x.e
    case 4 => ((x.a != x.b) != x.c) != x.d
    case 5 => ((x.b != x.c) != x.e) != x.f
    case _ => false
  }

  predicate VersionHigh(i: nat, x: Data) {
    match i
    case 6 => ((x.a != x.b) != x.d) != x.e
    case 7 => (x.a != x.c) != x.d
    case 8 => (((x.a != x.b) != x.c) != x.e) != x.f
    case 9 => (x.b != x.d) != x.f
    case 10 => x.c != x.f
    case 11 => (x.a != x.b) != x.f
    case _ => false
  }

  predicate VersionData(i: nat, x: Data) {
    match i
    case 12 => x.f
    case 13 => x.e
    case 14 => x.d
    case 15 => x.c
    case 16 => x.b
    case 17 => x.a
    case _ => false
  }

  /** Bit i of the word of these data bits, without the fixed mask of format words. */
  predicate Parity(k: Code, i: nat, x: Data) {
    match k
    case Format => FormatParity(i, x)
    case Version => if i < 6 then VersionLow(i, x) else if i < 12 then VersionHigh(i, x) else VersionData(i, x)
  }

  predicate Mask(k: Code, i: nat) {
    k.Format? && (i == 1 || i == 4 || i == 10 || i == 12 || i == 14)
  }

  /** Bit i of the word itself. */
  function Digit(k: Code, i: nat, x: Data): nat {
    One(Parity(k, i, x) != Mask(k, i))
  }

  function Set(k: Code, i: nat, x: Data): nat {
    One(Parity(k, i, x))
  }

  /** The bits of a word from bit i on. */
  function Word(k: Code, i: nat, x: Data): nat
    decreases Length(k) - i
  {
    if i >= Length(k) then 0 else Digit(k, i, x) + 2 * Word(k, i + 1, x)
  }

  /** How many bits of a word from bit i on are set, without the mask. */
  function Weight(k: Code, i: nat, x: Data): nat
    decreases Length(k) - i
  {
    if i >= Length(k) then 0 else Set(k, i, x) + Weight(k, i + 1, x)
  }

  lemma FormatParityLinear(i: nat, x: Data, y: Data)
    ensures FormatParity(i, Plus(x, y)) == (FormatParity(i, x) != FormatParity(i, y))
  {
  }

  lemma VersionLowLinear(i: nat, x: Data, y: Data)
    ensures VersionLow(i, Plus(x, y)) == (VersionLow(i, x) != VersionLow(i, y))
  {
  }

  lemma VersionHighLinear(i: nat, x: Data, y: Data)
    ensures VersionHigh(i, Plus(x, y)) == (VersionHigh(i, x) != VersionHigh(i, y))
  {
  }

  lemma VersionDataLinear(i: nat, x: Data, y: Data)
    ensures VersionData(i, Plus(x, y)) == (VersionData(i, x) != VersionData(i, y))
  {
  }

  lemma ParityLinear(k: Code, i: nat, x: Data, y: Data)
    ensures Parity(k, i, Plus(x, y)) == (Parity(k, i, x) != Parity(k, i, y))
  {
    hide FormatParity, VersionLow, VersionHigh, VersionData, Plus;
    FormatParityLinear(i, x, y);
    VersionLowLinear(i, x, y);
    VersionHighLinear(i, x, y);
    VersionDataLinear(i, x, y);
  }

  lemma WordStep(k: Code, i: nat, x: Data)
    ensures Word(k, i, x) == if i >= Length(k) then 0 else Digit(k, i, x) + 2 * Word(k, i + 1, x)
  {
  }

  lemma WordThree(k: Code, i: nat, x: Data)
    requires i + 3 <= Length(k)
    ensures Word(k, i, x) == Digit(k, i, x) + 2 * Digit(k, i + 1, x) + 4 * Digit(k, i + 2, x) + 8 * Word(k, i + 3, x)
  {
    hide Digit, Word;
    WordStep(k, i, x);
    WordStep(k, i + 1, x);
    WordStep(k, i + 2, x);
  }

  lemma WeightStep(k: Code, i: nat, x: Data)
    ensures Weight(k, i, x) == if i >= Length(k) then 0 else Set(k, i, x) + Weight(k, i + 1, x)
  {
  }

  lemma DifferingStep(b: bool, m: nat, c: bool, n: nat, k: nat)
    ensures Differing(One(b) + 2 * m, One(c) + 2 * n, k + 1) == One(b != c) + Differing(m, n, k)
  {
    var u, v := One(b) + 2 * m, One(c) + 2 * n;
    assert u / 2 == m && v / 2 == n;
    assert FormatBit(u, 0) == b && FormatBit(v, 0) == c;
  }

  /** Two words differ where the word of the difference of their data is set. */
  lemma {:induction false} WordsDiffer(k: Code, i: nat, x: Data, y: Data)
    requires i <= Length(k)
    ensures Differing(Word(k, i, x), Word(k, i, y), Length(k) - i) == Weight(k, i, Plus(x, y))
    decreases Length(k) - i
  {
    hide Parity, Plus, Mask, Word, Weight, One;
    WordStep(k, i, x);
    WordStep(k, i, y);
    WeightStep(k, i, Plus(x, y));
    if i < Length(k) {
      WordsDiffer(k, i + 1, x, y);
      ParityLinear(k, i, x, y);
      DifferingStep(Parity(k, i, x) != Mask(k, i), Word(k, i + 1, x), Parity(k, i, y) != Mask(k, i), Word(k, i + 1, y),
                    Length(k) - i - 1);
    }
  }

  lemma FormatWeight(x: Data)
    ensures Weight(Format, 0, x) == Set(Format, 0, x) + Set(Format, 1, x) + Set(Format, 2, x)
         + Set(Format, 3, x) + Set(Format, 4, x) + Set(Format, 5, x) + Set(Format, 6, x) + Set(Format, 7, x)
         + Set(Format, 8, x) + Set(Format, 9, x) + Set(Format, 10, x) + Set(Format, 11, x)
         + Set(Format, 12, x) + Set(Format, 13, x) + Set(Format, 14, x)
  {
    hide Set, Weight;
    WeightStep(Format, 0, x);
    WeightStep(Format, 1, x);
    WeightStep(Format, 2, x);
    WeightStep(Format, 3, x);
    WeightStep(Format, 4, x);
    WeightStep(Format, 5, x);
    WeightStep(Format, 6, x);
    WeightStep(Format, 7, x);
    WeightStep(Format, 8, x);
    WeightStep(Format, 9, x);
    WeightStep(Format, 10, x);
    WeightStep(Format, 11, x);
    WeightStep(Format, 12, x);
    WeightStep(Format, 13, x);
    WeightStep(Format, 14, x);
    WeightStep(Format, 15, x);
  }

  lemma VersionWeight(x: Data)
    ensures Weight(Version, 0, x) == Set(Version, 0, x) + Set(Version, 1, x) + Set(Version, 2, x)
         + Set(Version, 3, x) + Set(Version, 4, x) + Set(Version, 5, x) + Set(Version, 6, x)
         + Set(Version, 7, x) + Set(Version, 8, x) + Set(Version, 9, x) + Set(Version, 10, x)
         + Set(Version, 11, x) + Set(Version, 12, x) + Set(Version, 13, x) + Set(Version, 14, x)
         + Set(Version, 15, x) + Set(Version, 16, x) + Set(Version, 17, x)
  {
    hide Set, Weight;
    WeightStep(Version, 0, x);
    WeightStep(Version, 1, x);
    WeightStep(Version, 2, x);
    WeightStep(Version, 3, x);
    WeightStep(Version, 4, x);
    WeightStep(Version, 5, x);
    WeightStep(Version, 6, x);
    WeightStep(Version, 7, x);
    WeightStep(Version, 8, x);
    WeightStep(Version, 9, x);
    WeightStep(Version, 10, x);
    WeightStep(Version, 11, x);
    WeightStep(Version, 12, x);
    WeightStep(Version, 13, x);
    WeightStep(Version, 14, x);
    WeightStep(Version, 15, x);
    WeightStep(Version, 16, x);
    WeightStep(Version, 17, x);
    WeightStep(Version, 18, x);
  }

  /** The format word of these data bits. */
  function FormatValue(b: bool, c: bool, d: bool, e: bool, f: bool): nat {
    One((b != d) != f) + 2 * One(!((((b != c) != d) != e) != f)) + 4 * One((c != e) != f)
    + 8 * One((b != d) != e) + 16 * One(!((b != c) != f)) + 32 * One((d != e) != f)
    + 64 * One((c != d) != e) + 128 * One((b != c) != d) + 256 * One((c != d) != f)
    + 512 * One((b != c) != e) + 1024 * One(!f) + 2048 * One(e)
    + 4096 * One(!d) + 8192 * One(c) + 16384 * One(!b)
  }

  /** The version word of these data bits. */
  function VersionValue(a: bool, b: bool, c: bool, d: bool, e: bool, f: bool): nat {
    One((a != e) != f) + 2 * One(d != e) + 4 * One((((a != c) != d) != e) != f)
    + 8 * One(((b != c) != d) != e) + 16 * One(((a != b) != c) != d) + 32 * One(((b != c) != e) != f)
    + 64 * One(((a != b) != d) != e) + 128 * One((a != c) != d) + 256 * One((((a != b) != c) != e) != f)
    + 512 * One((b != d) != f) + 1024 * One(c != f) + 2048 * One((a != b) != f)
    + 4096 * One(f) + 8192 * One(e) + 16384 * One(d)
    + 32768 * One(c) + 65536 * One(b) + 131072 * One(a)
  }

  lemma FormatSum(x: Data)
    ensures Word(Format, 0, x)
            == Digit(Format, 0, x) + 2 * Digit(Format, 1, x) + 4 * Digit(Format, 2, x)
               + 8 * Digit(Format, 3, x) + 16 * Digit(Format, 4, x) + 32 * Digit(Format, 5, x)
               + 64 * Digit(Format, 6, x) + 128 * Digit(Format, 7, x) + 256 * Digit(Format, 8, x)
               + 512 * Digit(Format, 9, x) + 1024 * Digit(Format, 10, x) + 2048 * Digit(Format, 11, x)
               + 4096 * Digit(Format, 12, x) + 8192 * Digit(Format, 13, x) + 16384 * Digit(Format, 14, x)
  {
    hide Digit, Word;
    WordThree(Format, 0, x);
    WordThree(Format, 3, x);
    WordThree(Format, 6, x);
    WordThree(Format, 9, x);
    WordThree(Format, 12, x);
    WordStep(Format, 15, x);
  }

  lemma FormatWordIs(x: Data)
    ensures Word(Format, 0, x) == FormatValue(x.b, x.c, x.d, x.e, x.f)
  {
    hide Word;
    FormatSum(x);
  }

  lemma VersionSum(x: Data)
    ensures Word(Version, 0, x)
            == Digit(Version, 0, x) + 2 * Digit(Version, 1, x) + 4 * Digit(Version, 2, x)
               + 8 * Digit(Version, 3, x) + 16 * Digit(Version, 4, x) + 32 * Digit(Version, 5, x)
               + 64 * Digit(Version, 6, x) + 128 * Digit(Version, 7, x) + 256 * Digit(Version, 8, x)
               + 512 * Digit(Version, 9, x) + 1024 * Digit(Version, 10, x) + 2048 * Digit(Version, 11, x)
               + 4096 * Digit(Version, 12, x) + 8192 * Digit(Version, 13, x) + 16384 * Digit(Version, 14, x)
               + 32768 * Digit(Version, 15, x) + 65536 * Digit(Version, 16, x) + 131072 * Digit(Version, 17, x)
  {
    hide Digit, Word;
    WordThree(Version, 0, x);
    WordThree(Version, 3, x);
    WordThree(Version, 6, x);
    WordThree(Version, 9, x);
    WordThree(Version, 12, x);
    WordThree(Version, 15, x);
    WordStep(Version, 18, x);
  }

  lemma VersionWordIs(x: Data)
    ensures Word(Version, 0, x) == VersionValue(x.a, x.b, x.c, x.d, x.e, x.f)
  {
    hide Word;
    VersionSum(x);
  }

  lemma FormatValues()
    ensures FormatValue(false, true, false, false, false) == 30660
    ensures FormatValue(false, true, false, false, true) == 29427
    ensures FormatValue(false, true, false, true, false) == 32170
    ensures FormatValue(false, true, false, true, true) == 30877
    ensures FormatValue(false, true, true, false, false) == 26159
    ensures FormatValue(false, true, true, false, true) == 25368
    ensures FormatValue(false, true, true, true, false) == 27713
    ensures FormatValue(false, true, true, true, true) == 26998
    ensures FormatValue(false, false, false, false, false) == 21522
    ensures FormatValue(false, false, false, false, true) == 20773
    ensures FormatValue(false, false, false, true, false) == 24188
    ensures FormatValue(false, false, false, true, true) == 23371
    ensures FormatValue(false, false, true, false, false) == 17913
    ensures FormatValue(false, false, true, false, true) == 16590
    ensures FormatValue(false, false, true, true, false) == 20375
    ensures FormatValue(false, false, true, true, true) == 19104
    ensures FormatValue(true, true, false, false, false) == 13663
    ensures FormatValue(true, true, false, false, true) == 12392
    ensures FormatValue(true, true, false, true, false) == 16177
    ensures FormatValue(true, true, false, true, true) == 14854
    ensures FormatValue(true, true, true, false, false) == 9396
    ensures FormatValue(true, true, true, false, true) == 8579
    ensures FormatValue(true, true, true, true, false) == 11994
    ensures FormatValue(true, true, true, true, true) == 11245
    ensures FormatValue(true, false, false, false, false) == 5769
    ensures FormatValue(true, false, false, false, true) == 5054
    ensures FormatValue(true, false, false, true, false) == 7399
    ensures FormatValue(true, false, false, true, true) == 6608
    ensures FormatValue(true, false, true, false, false) == 1890
    ensures FormatValue(true, false, true, false, true) == 597
    ensures FormatValue(true, false, true, true, false) == 3340
    ensures FormatValue(true, false, true, true, true) == 2107
  {
  }

  lemma VersionValues7()
    ensures VersionValue(false, false, false, true, true, true) == 4096 * 7 + 3220
    ensures VersionValue(false, false, true, false, false, false) == 4096 * 8 + 1468
    ensures VersionValue(false, false, true, false, false, true) == 4096 * 9 + 2713
    ensures VersionValue(false, false, true, false, true, false) == 4096 * 10 + 1235
    ensures VersionValue(false, false, true, false, true, true) == 4096 * 11 + 3062
    ensures VersionValue(false, false, true, true, false, false) == 4096 * 12 + 1890
    ensures VersionValue(false, false, true, true, false, true) == 4096 * 13 + 2119
    ensures VersionValue(false, false, true, true, true, false) == 4096 * 14 + 1549
    ensures VersionValue(false, false, true, true, true, true) == 4096 * 15 + 2344
    ensures VersionValue(false, true, false, false, false, false) == 4096 * 16 + 2936
    ensures VersionValue(false, true, false, false, false, true) == 4096 * 17 + 1117
    ensures VersionValue(false, true, false, false, true, false) == 4096 * 18 + 2583
    ensures VersionValue(false, true, false, false, true, true) == 4096 * 19 + 1330
    ensures VersionValue(false, true, false, true, false, false) == 4096 * 20 + 2470
    ensures VersionValue(false, true, false, true, false, true) == 4096 * 21 + 1667
    ensures VersionValue(false, true, false, true, true, false) == 4096 * 22 + 2249
    ensures VersionValue(false, true, false, true, true, true) == 4096 * 23 + 2028
  {
  }

  lemma VersionValues24()
    ensures VersionValue(false, true, true, false, false, false) == 4096 * 24 + 3780
    ensures VersionValue(false, true, true, false, false, true) == 4096 * 25 + 481
    ensures VersionValue(false, true, true, false, true, false) == 4096 * 26 + 4011
    ensures VersionValue(false, true, true, false, true, true) == 4096 * 27 + 142
    ensures VersionValue(false, true, true, true, false, false) == 4096 * 28 + 3098
    ensures VersionValue(false, true, true, true, false, true) == 4096 * 29 + 831
    ensures VersionValue(false, true, true, true, true, false) == 4096 * 30 + 3445
    ensures VersionValue(false, true, true, true, true, true) == 4096 * 31 + 592
    ensures VersionValue(true, false, false, false, false, false) == 4096 * 32 + 2517
    ensures VersionValue(true, false, false, false, false, true) == 4096 * 33 + 1776
    ensures VersionValue(true, false, false, false, true, false) == 4096 * 34 + 2234
    ensures VersionValue(true, false, false, false, true, true) == 4096 * 35 + 1951
    ensures VersionValue(true, false, false, true, false, false) == 4096 * 36 + 2827
    ensures VersionValue(true, false, false, true, false, true) == 4096 * 37 + 1070
    ensures VersionValue(true, false, false, true, true, false) == 4096 * 38 + 2660
    ensures VersionValue(true, false, false, true, true, true) == 4096 * 39 + 1345
    ensures VersionValue(true, false, true, false, false, false) == 4096 * 40 + 3177
  {
  }

  /** How many bits of the format word are set, without the mask. */
  function FormatOnes(b: bool, c: bool, d: bool, e: bool, f: bool): nat {
    One((b != d) != f) + One((((b != c) != d) != e) != f) + One((c != e) != f) + One((b != d) != e)
    + One((b != c) != f) + One((d != e) != f) + One((c != d) != e) + One((b != c) != d)
    + One((c != d) != f) + One((b != c) != e) + One(f) + One(e)
    + One(d) + One(c) + One(b)
  }

  lemma FormatOnesIs(x: Data)
    ensures Weight(Format, 0, x) == FormatOnes(x.b, x.c, x.d, x.e, x.f)
  {
    hide Weight;
    FormatWeight(x);
  }

  /** How many bits of the version word are set, without the mask. */
  function VersionOnes(a: bool, b: bool, c: bool, d: bool, e: bool, f: bool): nat {
    One((a != e) != f) + One(d != e) + One((((a != c) != d) != e) != f) + One(((b != c) != d) != e)
    + One(((a != b) != c) != d) + One(((b != c) != e) != f) + One(((a != b) != d) != e) + One((a != c) != d)
    + One((((a != b) != c) != e) != f) + One((b != d) != f) + One(c != f) + One((a != b) != f)
    + One(f) + One(e) + One(d) + One(c)
    + One(b) + One(a)
  }

  lemma VersionOnesIs(x: Data)
    ensures Weight(Version, 0, x) == VersionOnes(x.a, x.b, x.c, x.d, x.e, x.f)
  {
    hide Weight;
    VersionWeight(x);
  }

  lemma FormatCounts()
    ensures FormatOnes(false, false, false, false, true) >= 7 && FormatOnes(false, false, false, true, false) >= 7
    ensures FormatOnes(false, false, false, true, true) >= 7 && FormatOnes(false, false, true, false, false) >= 7
    ensures FormatOnes(false, false, true, false, true) >= 7 && FormatOnes(false, false, true, true, false) >= 7
    ensures FormatOnes(false, false, true, true, true) >= 7 && FormatOnes(false, true, false, false, false) >= 7
    ensures FormatOnes(false, true, false, false, true) >= 7 && FormatOnes(false, true, false, true, false) >= 7
    ensures FormatOnes(false, true, false, true, true) >= 7 && FormatOnes(false, true, true, false, false) >= 7
    ensures FormatOnes(false, true, true, false, true) >= 7 && FormatOnes(false, true, true, true, false) >= 7
    ensures FormatOnes(false, true, true, true, true) >= 7 && FormatOnes(true, false, false, false, false) >= 7
    ensures FormatOnes(true, false, false, false, true) >= 7 && FormatOnes(true, false, false, true, false) >= 7
    ensures FormatOnes(true, false, false, true, true) >= 7 && FormatOnes(true, false, true, false, false) >= 7
    ensures FormatOnes(true, false, true, false, true) >= 7 && FormatOnes(true, false, true, true, false) >= 7
    ensures FormatOnes(true, false, true, true, true) >= 7 && FormatOnes(true, true, false, false, false) >= 7
    ensures FormatOnes(true, true, false, false, true) >= 7 && FormatOnes(true, true, false, true, false) >= 7
    ensures FormatOnes(true, true, false, true, true) >= 7 && FormatOnes(true, true, true, false, false) >= 7
    ensures FormatOnes(true, true, true, false, true) >= 7 && FormatOnes(true, true, true, true, false) >= 7
    ensures FormatOnes(true, true, true, true, true) >= 7
  {
  }

  lemma VersionCounts0()
    ensures VersionOnes(false, false, false, false, false, true) >= 8
    ensures VersionOnes(false, false, false, false, true, false) >= 8
    ensures VersionOnes(false, false, false, false, true, true) >= 8
    ensures VersionOnes(false, false, false, true, false, false) >= 8
    ensures VersionOnes(false, false, false, true, false, true) >= 8
    ensures VersionOnes(false, false, false, true, true, false) >= 8
    ensures VersionOnes(false, false, false, true, true, true) >= 8
    ensures VersionOnes(false, false, true, false, false, false) >= 8
    ensures VersionOnes(false, false, true, false, false, true) >= 8
    ensures VersionOnes(false, false, true, false, true, false) >= 8
    ensures VersionOnes(false, false, true, false, true, true) >= 8
    ensures VersionOnes(false, false, true, true, false, false) >= 8
    ensures VersionOnes(false, false, true, true, false, true) >= 8
    ensures VersionOnes(false, false, true, true, true, false) >= 8
    ensures VersionOnes(false, false, true, true, true, true) >= 8
    ensures VersionOnes(false, true, false, false, false, false) >= 8
    ensures VersionOnes(false, true, false, false, false, true) >= 8
    ensures VersionOnes(false, true, false, false, true, false) >= 8
    ensures VersionOnes(false, true, false, false, true, true) >= 8
    ensures VersionOnes(false, true, false, true, false, false) >= 8
    ensures VersionOnes(false, true, false, true, false, true) >= 8
    ensures VersionOnes(false, true, false, true, true, false) >= 8
    ensures VersionOnes(false, true, false, true, true, true) >= 8
    ensures VersionOnes(false, true, true, false, false, false) >= 8
    ensures VersionOnes(false, true, true, false, false, true) >= 8
    ensures VersionOnes(false, true, true, false, true, false) >= 8
    ensures VersionOnes(false, true, true, false, true, true) >= 8
    ensures VersionOnes(false, true, true, true, false, false) >= 8
    ensures VersionOnes(false, true, true, true, false, true) >= 8
    ensures VersionOnes(false, true, true, true, true, false) >= 8
    ensures VersionOnes(false, true, true, true, true, true) >= 8
  {
  }

  lemma VersionCounts1()
    ensures VersionOnes(true, false, false, false, false, false) >= 8
    ensures VersionOnes(true, false, false, false, false, true) >= 8
    ensures VersionOnes(true, false, false, false, true, false) >= 8
    ensures VersionOnes(true, false, false, false, true, true) >= 8
    ensures VersionOnes(true, false, false, true, false, false) >= 8
    ensures VersionOnes(true, false, false, true, false, true) >= 8
    ensures VersionOnes(true, false, false, true, true, false) >= 8
    ensures VersionOnes(true, false, false, true, true, true) >= 8
    ensures VersionOnes(true, false, true, false, false, false) >= 8
    ensures VersionOnes(true, false, true, false, false, true) >= 8
    ensures VersionOnes(true, false, true, false, true, false) >= 8
    ensures VersionOnes(true, false, true, false, true, true) >= 8
    ensures VersionOnes(true, false, true, true, false, false) >= 8
    ensures VersionOnes(true, false, true, true, false, true) >= 8
    ensures VersionOnes(true, false, true, true, true, false) >= 8
    ensures VersionOnes(true, false, true, true, true, true) >= 8
    ensures VersionOnes(true, true, false, false, false, false) >= 8
    ensures VersionOnes(true, true, false, false, false, true) >= 8
    ensures VersionOnes(true, true, false, false, true, false) >= 8
    ensures VersionOnes(true, true, false, false, true, true) >= 8
    ensures VersionOnes(true, true, false, true, false, false) >= 8
    ensures VersionOnes(true, true, false, true, false, true) >= 8
    ensures VersionOnes(true, true, false, true, true, false) >= 8
    ensures VersionOnes(true, true, false, true, true, true) >= 8
    ensures VersionOnes(true, true, true, false, false, false) >= 8
    ensures VersionOnes(true, true, true, false, false, true) >= 8
    ensures VersionOnes(true, true, true, false, true, false) >= 8
    ensures VersionOnes(true, true, true, false, true, true) >= 8
    ensures VersionOnes(true, true, true, true, false, false) >= 8
    ensures VersionOnes(true, true, true, true, false, true) >= 8
    ensures VersionOnes(true, true, true, true, true, false) >= 8
    ensures VersionOnes(true, true, true, true, true, true) >= 8
  {
  }

  /** Every format word but that of zero has at least seven bits set, without the mask. */
  lemma FormatHeavy(x: Data)
    requires !x.a && (x.b || x.c || x.d || x.e || x.f)
    ensures Weight(Format, 0, x) >= 7
  {
    hide Weight, FormatOnes;
    FormatOnesIs(x);
    FormatCounts();
  }

  /** Every version word but that of zero has at least eight bits set. */
  lemma VersionHeavy(x: Data)
    requires x.a || x.b || x.c || x.d || x.e || x.f
    ensures Weight(Version, 0, x) >= 8
  {
    hide Weight, VersionOnes;
    VersionOnesIs(x);
    if x.a {
      VersionCounts1();
    } else {
      VersionCounts0();
    }
  }

  // ---------------------------------------------------------------- the words of the tables

  function FormatData(level: nat, pattern: nat): Data {
    Data(false, level >= 3, level == 1 || level == 3, pattern >= 4, pattern % 4 >= 2, pattern % 2 == 1)
  }

  /** What is left of a number when a power of two is taken from it, if it can be. */
  function Less(n: int, p: int): int {
    if n >= p then n - p else n
  }

  function NumberData(n: nat): Data {
    var n5 := Less(n, 32);
    var n4 := Less(n5, 16);
    var n3 := Less(n4, 8);
    var n2 := Less(n3, 4);
    Data(n >= 32, n5 >= 16, n4 >= 8, n3 >= 4, n2 >= 2, Less(n2, 2) >= 1)
  }

  lemma FormatTable(level: nat, pattern: nat)
    requires 1 <= level <= 4 && pattern < 8
    ensures Word(Format, 0, FormatData(level, pattern)) == FinalFormat(level, pattern)
  {
    hide Word, FormatValue;
    FormatWordIs(FormatData(level, pattern));
    FormatValues();
  }

  /** The five data bits of a format word stand first: two for the level, 01, 00, 11 and 10 for levels 1 to
      4, three for the pattern, the first, third and fifth of them inverted. */
  predicate Fields(word: nat, level: nat, pattern: nat) {
    var high := word / 1024;
    && word < 32768
    && (high / 16 == 1 <==> level == 1 || level == 2)
    && (high / 8 % 2 == 1 <==> level == 1 || level == 3)
    && (high / 4 % 2 == 1 <==> pattern < 4)
    && (high / 2 % 2 == 1 <==> pattern % 4 >= 2)
    && (high % 2 == 1 <==> pattern % 2 == 0)
  }

  lemma Fields1()
    ensures Fields(30660, 1, 0) && Fields(29427, 1, 1) && Fields(32170, 1, 2) && Fields(30877, 1, 3)
    ensures Fields(26159, 1, 4) && Fields(25368, 1, 5) && Fields(27713, 1, 6) && Fields(26998, 1, 7)
  {
  }

  lemma Fields2()
    ensures Fields(21522, 2, 0) && Fields(20773, 2, 1) && Fields(24188, 2, 2) && Fields(23371, 2, 3)
    ensures Fields(17913, 2, 4) && Fields(16590, 2, 5) && Fields(20375, 2, 6) && Fields(19104, 2, 7)
  {
  }

  lemma Fields3()
    ensures Fields(13663, 3, 0) && Fields(12392, 3, 1) && Fields(16177, 3, 2) && Fields(14854, 3, 3)
    ensures Fields(9396, 3, 4) && Fields(8579, 3, 5) && Fields(11994, 3, 6) && Fields(11245, 3, 7)
  {
  }

  lemma Fields4()
    ensures Fields(5769, 4, 0) && Fields(5054, 4, 1) && Fields(7399, 4, 2) && Fields(6608, 4, 3)
    ensures Fields(1890, 4, 4) && Fields(597, 4, 5) && Fields(3340, 4, 6) && Fields(2107, 4, 7)
  {
  }

  lemma FormatFields(level: nat, pattern: nat)
    requires 1 <= level <= 4 && pattern < 8
    ensures Fields(FinalFormat(level, pattern), level, pattern)
  {
    hide Fields;
    if level == 1 {
      Fields1();
    } else if level == 2 {
      Fields2();
    } else if level == 3 {
      Fields3();
    } else {
      Fields4();
    }
  }

  /** The eighteen bits of the version information. */
  function VersionWord(version: nat): nat {
    4096 * version + Drawing.VersionInfo(version)
  }

  lemma VersionTable(version: nat)
    requires 7 <= version <= 40
    ensures Word(Version, 0, NumberData(version)) == VersionWord(version)
  {
    hide Word, VersionValue;
    VersionWordIs(NumberData(version));
    if version < 24 {
      VersionValues7();
    } else {
      VersionValues24();
    }
  }

  lemma FormatDataTells(level: nat, pattern: nat, level': nat, pattern': nat)
    requires 1 <= level <= 4 && pattern < 8 && 1 <= level' <= 4 && pattern' < 8
    ensures FormatData(level, pattern) == FormatData(level', pattern') ==> level == level' && pattern == pattern'
    ensures !FormatData(level, pattern).a
  {
  }

  lemma NumberDataTells(m: nat, n: nat)
    requires m < 64 && n < 64
    ensures NumberData(m) == NumberData(n) ==> m == n
  {
    hide NumberData, One;
    NumberIs(m);
    NumberIs(n);
  }

  lemma NumberIs(n: nat)
    requires n < 64
    ensures var x := NumberData(n);
            n == 32 * One(x.a) + 16 * One(x.b) + 8 * One(x.c) + 4 * One(x.d) + 2 * One(x.e) + One(x.f)
  {
  }

  lemma PlusZero(x: Data, y: Data)
    requires x != y
    ensures var z := Plus(x, y); z.a || z.b || z.c || z.d || z.e || z.f
    ensures x.a == y.a ==> !Plus(x, y).a
  {
  }

  /** The format words of different levels or patterns differ in at least seven bits. */
  lemma FormatsApart(level: nat, pattern: nat, level': nat, pattern': nat)
    requires 1 <= level <= 4 && pattern < 8 && 1 <= level' <= 4 && pattern' < 8
    requires level != level' || pattern != pattern'
    ensures Differing(FinalFormat(level, pattern), FinalFormat(level', pattern'), 15) >= 7
  {
    var x, y := FormatData(level, pattern), FormatData(level', pattern');
    hide FinalFormat, FormatData, Word, Weight, Differing, Plus;
    FormatTable(level, pattern);
    FormatTable(level', pattern');
    FormatDataTells(level, pattern, level', pattern');
    FormatDataTells(level', pattern', level, pattern);
    PlusZero(x, y);
    WordsDiffer(Format, 0, x, y);
    FormatHeavy(Plus(x, y));
  }

  /** The version words of different versions differ in at least eight bits. */
  lemma VersionsApart(version: nat, version': nat)
    requires 7 <= version <= 40 && 7 <= version' <= 40 && version != version'
    ensures Differing(VersionWord(version), VersionWord(version'), 18) >= 8
  {
    hide VersionWord, NumberData, Word, Weight, Differing, Plus;
    var x, y := NumberData(version), NumberData(version');
    VersionTable(version);
    VersionTable(version');
    NumberDataTells(version, version');
    PlusZero(x, y);
    WordsDiffer(Version, 0, x, y);
    VersionHeavy(Plus(x, y));
  }

  // ---------------------------------------------------------------- words with wrong bits

  lemma {:induction false} Triangle(u: nat, v: nat, w: nat, n: nat)
    ensures Differing(u, w, n) <= Differing(u, v, n) + Differing(v, w, n)
    ensures Differing(u, v, n) == Differing(v, u, n)
  {
    if n > 0 {
      Triangle(u / 2, v / 2, w / 2, n - 1);
    }
  }

  /** A format word that is read with at most three wrong bits tells level and pattern. */
  lemma FormatCorrectable(word: nat, level: nat, pattern: nat, level': nat, pattern': nat)
    requires 1 <= level <= 4 && pattern < 8 && 1 <= level' <= 4 && pattern' < 8
    requires Differing(word, FinalFormat(level, pattern), 15) <= 3
    requires Differing(word, FinalFormat(level', pattern'), 15) <= 3
    ensures level == level' && pattern == pattern'
  {
    hide FinalFormat, Differing;
    Triangle(FinalFormat(level, pattern), word, FinalFormat(level', pattern'), 15);
    if level != level' || pattern != pattern' {
      FormatsApart(level, pattern, level', pattern');
    }
  }

  /** Version information that is read with at most three wrong bits tells the version. */
  lemma VersionCorrectable(word: nat, version: nat, version': nat)
    requires 7 <= version <= 40 && 7 <= version' <= 40
    requires Differing(word, VersionWord(version), 18) <= 3 && Differing(word, VersionWord(version'), 18) <= 3
    ensures version == version'
  {
    hide VersionWord, Differing;
    Triangle(VersionWord(version), word, VersionWord(version'), 18);
    if version != version' {
      VersionsApart(version, version');
    }
  }

  // ---------------------------------------------------------------- the bits that are drawn

  lemma {:induction false} ShiftedBit(n: nat, k: nat)
    ensures FormatBit(n, k) == (Drawing.Shifted(n, k) % 2 == 1)
  {
    if k > 0 {
      ShiftedBit(n / 2, k - 1);
      ShiftFirst(n, k);
    }
  }

  lemma {:induction false} ShiftFirst(n: nat, k: nat)
    requires k > 0
    ensures Drawing.Shifted(n, k) == Drawing.Shifted(n / 2, k - 1)
  {
    if k > 1 {
      ShiftFirst(n, k - 1);
    }
  }

  function Twice(c: nat, k: nat): nat {
    if k == 0 then c else 2 * Twice(c, k - 1)
  }

  /** The bits of a number with another one behind its first k bits. */
  lemma {:induction false} TwoParts(n: nat, v: nat, k: nat, e: nat)
    requires n < Twice(1, k)
    ensures FormatBit(n + Twice(v, k), e) == if e < k then FormatBit(n, e) else FormatBit(v, e - k)
    decreases k
  {
    if k > 0 {
      assert (n + Twice(v, k)) / 2 == n / 2 + Twice(v, k - 1) && (n + Twice(v, k)) % 2 == n % 2;
      if e > 0 {
        TwoParts(n / 2, v, k - 1, e - 1);
      }
    }
  }

  lemma Twelve(v: nat)
    ensures Twice(v, 12) == 4096 * v
  {
    assert Twice(v, 1) == 2 * v && Twice(v, 2) == 4 * v && Twice(v, 3) == 8 * v;
    assert Twice(v, 4) == 16 * v && Twice(v, 5) == 32 * v && Twice(v, 6) == 64 * v;
    assert Twice(v, 7) == 128 * v && Twice(v, 8) == 256 * v && Twice(v, 9) == 512 * v;
    assert Twice(v, 10) == 1024 * v && Twice(v, 11) == 2048 * v;
  }

  lemma InfoBelow(version: nat)
    ensures Drawing.VersionInfo(version) < 4096
  {
  }

  /** Drawn are the bits of the version word. */
  lemma DrawnBit(version: nat, e: nat)
    ensures Drawing.VersionBit(version, e) == FormatBit(VersionWord(version), e)
  {
    hide Drawing.VersionInfo, Drawing.Shifted, FormatBit;
    Twelve(version);
    Twelve(1);
    InfoBelow(version);
    TwoParts(Drawing.VersionInfo(version), version, 12, e);
    if e < 12 {
      ShiftedBit(Drawing.VersionInfo(version), e);
    } else {
      ShiftedBit(version, e - 12);
    }
  }

  /** Bit e of the version information is in column e / 3, and e % 3 modules below the top of its field
      beside the lower left finder; and mirrored beside the upper right one. */
  lemma VersionPlaces(w: nat, e: nat)
    requires w >= 21 && e < 18
    ensures Drawing.VersionArea(w, e / 3, w - 11 + e % 3)
    ensures 17 - Drawing.VersionOrder(w, e / 3, w - 11 + e % 3) == e
  {
  }
}
