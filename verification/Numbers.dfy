/** Numbers as the program prints them and as it reads them at the front of a text. A number keeps 53
    bits, and is printed with the fewest digits that are read as it. */
module Numbers {
  import opened Ascii
  import opened Numerals
  import opened Options
  import opened Text
  import Arithmetic
  import Hex

  // ---------------------------------------------------------------- the integers among the numbers

  /** Integers below this one are all numbers. */
  const BITS: nat := 0x20_0000_0000_0000

  /** The distance between the numbers around n. */
  function Unit(n: nat): (u: nat)
    ensures u > 0
  {
    if n < BITS then 1 else 2 * Unit(n / 2)
  }

  /** How many p are nearest to n; the even one of two. */
  function Nearest(n: nat, p: nat): nat
    requires p > 0
  {
    if 2 * Rest(n, p) < p || (2 * Rest(n, p) == p && Quot(n, p) % 2 == 0) then Quot(n, p) else Quot(n, p) + 1
  }

  /** The number nearest to an integer. */
  function Round(n: nat): nat {
    Nearest(n, Unit(n)) * Unit(n)
  }

  function Rounded(n: int): int {
    if n < 0 then 0 - Round(-n) else Round(n)
  }

  function Abs(n: int): nat {
    if n < 0 then -n else n
  }

  /** From here on there is only infinity. */
  predicate Finite(n: int) {
    Abs(n) < Pow(2, 1024)
  }

  /** An integer that is a number. */
  predicate IsNumber(n: int) {
    Rounded(n) == n && Finite(n)
  }

  // ---------------------------------------------------------------- printing

  /** Numbers from here on are printed with an exponent. */
  const LIMIT: nat := 1_000_000_000_000_000_000_000

  /** The multiple of 10^e next to n that is read as n: the nearer one, if it is. */
  function Candidate(n: nat, e: nat): Option<nat> {
    PowPositive(10, e);
    var p := Pow(10, e);
    var near := Nearest(n, p);
    var far := if near == Quot(n, p) then near + 1 else Quot(n, p);
    if Round(near * p) == n then Some(near)
    else if Round(far * p) == n then Some(far)
    else None
  }

  /** Digits c and an exponent, the largest up to e, such that c * 10^exponent is read as n. */
  function Shortest(n: nat, e: nat): (nat, nat) {
    if e == 0 then (n, 0)
    else if Candidate(n, e).Some? then (Candidate(n, e).value, e)
    else Shortest(n, e - 1)
  }

  function Zeros(e: nat): (s: string)
    ensures |s| == e && forall c :: c in s ==> c == '0'
  {
    if e == 0 then "" else Zeros(e - 1) + "0"
  }

  function Scientific(ds: string, e: nat): string
    requires ds != ""
  {
    [ds[0]] + (if |ds| == 1 then "" else "." + ds[1..]) + "e+" + Decimal(e)
  }

  function Form(c: nat, e: nat): string {
    if |Decimal(c)| + e <= 21 then Decimal(c) + Zeros(e) else Scientific(Decimal(c), |Decimal(c)| + e - 1)
  }

  function ShowNat(n: nat): string {
    if n == 0 then "0" else
      var s := Shortest(n, |Decimal(n)|);
      Form(s.0, s.1)
  }

  function ShowInt(n: int): string {
    if n < 0 then "-" + ShowNat(-n) else ShowNat(n)
  }

  // ---------------------------------------------------------------- reading

  /** White space and line ends. */
  predicate IsSpace(c: char) {
    || 9 <= c as int <= 13 || c == ' ' || c == '\U{00A0}' || c == '\U{1680}' || 0x2000 <= c as int <= 0x200A
    || c == '\U{2028}' || c == '\U{2029}' || c == '\U{202F}' || c == '\U{205F}' || c == '\U{3000}' || c == '\U{FEFF}'
  }

  function TrimStart(s: string): string {
    if s != "" && IsSpace(s[0]) then TrimStart(s[1..]) else s
  }

  function HexPrefix(s: string): (p: string)
    ensures forall c :: c in p ==> Hex.Nibble(c).Some?
  {
    if s == "" || Hex.Nibble(s[0]).None? then "" else [s[0]] + HexPrefix(s[1..])
  }

  function HexNumber(s: string): nat
    requires forall c :: c in s ==> Hex.Nibble(c).Some?
  {
    if s == "" then 0 else 16 * HexNumber(s[..|s| - 1]) + Hex.Nibble(s[|s| - 1]).value
  }

  function Magnitude(s: string): Option<nat> {
    if |s| >= 2 && s[0] == '0' && (s[1] == 'x' || s[1] == 'X') then
      var p := HexPrefix(s[2..]);
      if p == "" then None else Some(HexNumber(p))
    else ParseInt(s)
  }

  /** The integer at the front of a text, with leading blanks, a sign and a hexadecimal prefix allowed. */
  function Leading(s: string): Option<int> {
    var t := TrimStart(s);
    if t != "" && t[0] == '-' then
      var m := Magnitude(t[1..]);
      if m.None? then None else var v: int := m.value; Some(-v)
    else
      var m := Magnitude(if t != "" && t[0] == '+' then t[1..] else t);
      if m.None? then None else var v: int := m.value; Some(v)
  }

  // ---------------------------------------------------------------- rounding

  lemma SmallRound(n: nat)
    requires n < BITS
    ensures Round(n) == n
  {
  }

  lemma {:induction false} UnitBelow(n: nat)
    requires n > 0
    ensures Unit(n) <= n
  {
    if n >= BITS {
      UnitBelow(n / 2);
    }
  }

  lemma QuotAtLeast(n: nat, m: nat, p: nat)
    requires p > 0 && n >= m * p
    ensures Quot(n, p) >= m
  {
    if Quot(n, p) < m {
      Unfold(n, p);
      Arithmetic.Multiple(Quot(n, p) + 1, m, p);
    }
  }

  /** Nothing but 0 is rounded to 0. */
  lemma RoundPositive(n: nat)
    requires n > 0
    ensures Round(n) > 0
  {
    hide Unit, Quot, Rest;
    UnitBelow(n);
    QuotAtLeast(n, 1, Unit(n));
    Product(Nearest(n, Unit(n)), Unit(n));
  }

  /** Rounding does not halve a number. */
  lemma RoundHalf(n: nat)
    requires n > 0
    ensures n < 2 * Round(n)
  {
    hide Unit, Quot, Rest;
    var u := Unit(n);
    UnitBelow(n);
    QuotAtLeast(n, 1, u);
    Unfold(n, u);
    Arithmetic.Multiple(1, Quot(n, u), u);
    Arithmetic.Multiple(Quot(n, u), Nearest(n, u), u);
  }

  lemma {:induction false} UnitBounds(n: nat)
    ensures n < BITS * Unit(n) && (Unit(n) > 1 ==> BITS * Unit(n) <= 2 * n)
  {
    if n >= BITS {
      UnitBounds(n / 2);
    }
  }

  lemma {:induction false} UnitDivides(a: nat, b: nat) returns (k: nat)
    requires a <= b
    ensures k > 0 && Unit(b) == k * Unit(a)
  {
    if a < BITS {
      k := Unit(b);
    } else {
      k := UnitDivides(a / 2, b / 2);
      Twice(k, Unit(a / 2));
    }
  }

  lemma Twice(k: nat, u: nat)
    ensures 2 * (k * u) == k * (2 * u)
  {
  }

  lemma NearestMonotone(a: nat, b: nat, p: nat)
    requires p > 0 && a <= b
    ensures Nearest(a, p) <= Nearest(b, p)
  {
    hide Quot, Rest;
    if Quot(a, p) == Quot(b, p) {
      Unfold(a, p);
      Unfold(b, p);
    } else {
      QuotMonotone(a, b, p);
    }
  }

  lemma QuotMonotone(a: nat, b: nat, p: nat)
    requires p > 0 && a <= b
    ensures Quot(a, p) <= Quot(b, p)
  {
    hide Quot, Rest;
    Unfold(a, p);
    QuotAtLeast(b, Quot(a, p), p);
  }

  /** Rounding keeps the order of numbers. */
  lemma RoundMonotone(a: nat, b: nat)
    requires a <= b
    ensures Round(a) <= Round(b)
  {
    hide Unit, Nearest, Quot, Rest;
    var k := UnitDivides(a, b);
    var u := Unit(a);
    if k == 1 {
      NearestMonotone(a, b, u);
      Arithmetic.Multiple(Nearest(a, u), Nearest(b, u), u);
    } else {
      RoundAtMost(a);
      Arithmetic.Multiple(2, k, u);
      RoundAtLeast(b);
    }
  }

  lemma RoundAtMost(a: nat)
    ensures Round(a) <= BITS * Unit(a)
  {
    hide Unit, Quot, Rest, BITS;
    UnitBounds(a);
    QuotBelow(a, BITS, Unit(a));
    Arithmetic.Multiple(Nearest(a, Unit(a)), BITS, Unit(a));
  }

  lemma RoundAtLeast(b: nat)
    requires Unit(b) > 1
    ensures BITS * Unit(b) <= 2 * Round(b)
  {
    hide Unit, Quot, Rest;
    UnitBounds(b);
    QuotAtLeast(b, BITS / 2, Unit(b));
    Arithmetic.Multiple(BITS / 2, Nearest(b, Unit(b)), Unit(b));
  }

  lemma UnitOfLimit()
    ensures Unit(LIMIT) == 131072
  {
    assert Unit(LIMIT / 131072) == 1;
    assert Unit(LIMIT / 65536) == 2;
    assert Unit(LIMIT / 32768) == 4;
    assert Unit(LIMIT / 16384) == 8;
    assert Unit(LIMIT / 8192) == 16;
    assert Unit(LIMIT / 4096) == 32;
    assert Unit(LIMIT / 2048) == 64;
    assert Unit(LIMIT / 1024) == 128;
    assert Unit(LIMIT / 512) == 256;
    assert Unit(LIMIT / 256) == 512;
    assert Unit(LIMIT / 128) == 1024;
    assert Unit(LIMIT / 64) == 2048;
    assert Unit(LIMIT / 32) == 4096;
    assert Unit(LIMIT / 16) == 8192;
    assert Unit(LIMIT / 8) == 16384;
    assert Unit(LIMIT / 4) == 32768;
    assert Unit(LIMIT / 2) == 65536;
  }

  lemma LimitIsNumber()
    ensures Round(LIMIT) == LIMIT
  {
    hide Unit;
    UnitOfLimit();
  }

  lemma LimitIsPower()
    ensures Pow(10, 21) == LIMIT
  {
    assert Pow(10, 3) == 1_000;
    assert Pow(10, 6) == 1_000_000;
    assert Pow(10, 9) == 1_000_000_000;
    assert Pow(10, 12) == 1_000_000_000_000;
    assert Pow(10, 15) == 1_000_000_000_000_000;
    assert Pow(10, 18) == 1_000_000_000_000_000_000;
  }

  lemma LimitIsFinite(n: int)
    requires Abs(n) <= LIMIT
    ensures Finite(n)
  {
    hide Pow;
    PowerOfTwo();
    PowAdd(2, 70, 954);
    PowPositive(2, 954);
    Arithmetic.Multiple(1, Pow(2, 954), Pow(2, 70));
  }

  lemma PowerOfTwo()
    ensures Pow(2, 70) > LIMIT
  {
    assert Pow(2, 5) == 32;
    assert Pow(2, 10) == 1024;
    PowAdd(2, 10, 10);
    PowAdd(2, 20, 20);
    PowAdd(2, 40, 20);
    PowAdd(2, 60, 10);
  }

  // ---------------------------------------------------------------- how many digits

  lemma {:induction false} Size(n: nat, k: nat)
    requires k > 0
    ensures |Decimal(n)| <= k <==> n < Pow(10, k)
  {
    if k == 1 {
      assert Pow(10, 1) == 10;
    } else if n < 10 {
      PowPositive(10, k - 1);
    } else {
      Size(n / 10, k - 1);
    }
  }

  /** Beside being read as n, the digits are those of a multiple of 10^e next to n. */
  ghost predicate Neighbour(n: nat, c: nat, e: nat) {
    PowPositive(10, e);
    Round(c * Pow(10, e)) == n && (c == Quot(n, Pow(10, e)) || c == Quot(n, Pow(10, e)) + 1)
  }

  lemma CandidateIs(n: nat, e: nat)
    requires Candidate(n, e).Some?
    ensures Neighbour(n, Candidate(n, e).value, e)
  {
    hide Round, Quot, Rest, Pow;
  }

  lemma {:induction false} ShortestIs(n: nat, e: nat)
    requires Round(n) == n
    ensures var s := Shortest(n, e); s.1 <= e && Neighbour(n, s.0, s.1)
  {
    hide Round, Candidate, Quot, Neighbour;
    if e == 0 {
      NoExponent(n);
    } else if Candidate(n, e).Some? {
      CandidateIs(n, e);
    } else {
      ShortestIs(n, e - 1);
    }
  }

  lemma NoExponent(n: nat)
    requires Round(n) == n
    ensures Neighbour(n, n, 0)
  {
    hide Round, Quot;
    DivOne(n);
  }

  /** Below the limit there are at most 21 digits. */
  lemma FewDigits(n: nat, c: nat, e: nat)
    requires 0 < n < LIMIT && e <= |Decimal(n)| && Neighbour(n, c, e)
    ensures |Decimal(c)| + e <= 21
  {
    hide Round, Quot, Pow, Decimal, LIMIT;
    LimitIsPower();
    Size(n, 21);
    PowAdd(10, 21 - e, e);
    var m, p := Pow(10, 21 - e), Pow(10, e);
    PowPositive(10, e);
    QuotBelow(n, m, p);
    if c == m {
      LimitIsNumber();
      assert false;
    }
    if e == 21 {
      NoPower();
      NothingIsZero(p);
      assert false;
    }
    Size(c, 21 - e);
  }

  lemma NoPower()
    ensures Pow(10, 0) == 1
  {
  }

  lemma NothingIsZero(p: nat)
    ensures Round(0 * p) == 0
  {
    SmallRound(0);
  }

  /** From the limit on there are more. */
  lemma ManyDigits(n: nat, c: nat, e: nat)
    requires n >= LIMIT && Neighbour(n, c, e)
    ensures |Decimal(c)| + e > 21 && c > 0
  {
    hide Round, Quot, Pow, Decimal, LIMIT;
    if c == 0 {
      NothingIsZero(Pow(10, e));
      LimitPositive();
      assert false;
    }
    if e <= 20 {
      LimitIsPower();
      PowAdd(10, 21 - e, e);
      PowPositive(10, e);
      QuotAtLeast(n, Pow(10, 21 - e), Pow(10, e));
      Size(c, 21 - e);
    }
  }

  lemma LimitPositive()
    ensures LIMIT > 0
  {
  }

  // ---------------------------------------------------------------- reading what was printed

  predicate AllDecimal(s: string) {
    forall c :: c in s ==> IsDigit(c)
  }

  /** Digits in front of a text that does not go on with one; 0x would go on as a hexadecimal number. */
  lemma MagnitudeOfDigits(ds: string, rest: string)
    requires ds != "" && AllDecimal(ds) && (rest == "" || !IsDigit(rest[0]))
    requires |ds| > 1 || rest == "" || (rest[0] != 'x' && rest[0] != 'X')
    ensures Magnitude(ds + rest) == Some(DigitsValue(ds)) && IsDigit((ds + rest)[0])
  {
    hide DigitsValue, DigitPrefix, HexPrefix, HexNumber;
    var s := ds + rest;
    Text.PrefixOfDigits(ds, rest);
    assert s[0] in ds;
    if |ds| > 1 {
      assert s[1] in ds;
    }
  }

  lemma LeadingIs(s: string, m: nat)
    requires s != "" && IsDigit(s[0]) && Magnitude(s) == Some(m)
    ensures Leading(s) == Some(m) && Leading("-" + s) == Some(0 - m)
  {
    hide Magnitude;
    assert ("-" + s)[1..] == s;
  }

  lemma LeadingDigits(ds: string, rest: string)
    requires ds != "" && AllDecimal(ds) && (rest == "" || !IsDigit(rest[0]))
    requires |ds| > 1 || rest == "" || (rest[0] != 'x' && rest[0] != 'X')
    ensures Leading(ds + rest) == Some(DigitsValue(ds)) && Leading("-" + (ds + rest)) == Some(0 - DigitsValue(ds))
  {
    hide Magnitude, Leading, DigitsValue;
    MagnitudeOfDigits(ds, rest);
    LeadingIs(ds + rest, DigitsValue(ds));
  }

  lemma {:induction false} ZerosValue(ds: string, e: nat)
    requires AllDecimal(ds)
    ensures AllDecimal(ds + Zeros(e)) && DigitsValue(ds + Zeros(e)) == DigitsValue(ds) * Pow(10, e)
  {
    hide DigitsValue, IsDigit;
    if e == 0 {
      assert ds + Zeros(0) == ds;
    } else {
      ZerosValue(ds, e - 1);
      var s := ds + Zeros(e);
      assert s == (ds + Zeros(e - 1)) + "0";
      OneMore(ds + Zeros(e - 1));
      Associate(DigitsValue(ds), Pow(10, e - 1), 10);
    }
  }

  lemma OneMore(ds: string)
    requires AllDecimal(ds)
    ensures AllDecimal(ds + "0") && DigitsValue(ds + "0") == DigitsValue(ds) * 10
  {
    assert (ds + "0")[..|ds|] == ds;
  }

  lemma {:induction false} FirstDigit(n: nat)
    requires n > 0
    ensures 1 <= DigitValue(Decimal(n)[0]) <= 9
  {
    if n >= 10 {
      FirstDigit(n / 10);
      assert Decimal(n)[0] == Decimal(n / 10)[0];
    }
  }

  lemma OneDigit(c: char)
    requires IsDigit(c)
    ensures AllDecimal([c]) && DigitsValue([c]) == DigitValue(c)
  {
    assert [c][..0] == "";
  }

  lemma ScientificStart(ds: string, e: nat)
    requires ds != "" && AllDecimal(ds)
    ensures IsDigit(ds[0]) && Leading(Scientific(ds, e)) == Some(DigitValue(ds[0]))
    ensures Leading("-" + Scientific(ds, e)) == Some(0 - DigitValue(ds[0]))
  {
    hide Leading, Decimal;
    assert ds[0] in ds;
    var s := Scientific(ds, e);
    var rest := (if |ds| == 1 then "" else "." + ds[1..]) + "e+" + Decimal(e);
    assert s == [ds[0]] + rest;
    OneDigit(ds[0]);
    LeadingDigits([ds[0]], rest);
  }

  /** What is read of a printed number: below the limit the digits and zeros, from there on one digit. */
  function ReadOf(n: nat): nat
    requires Round(n) == n
  {
    if n == 0 then 0 else
      var s := Shortest(n, |Decimal(n)|);
      if n < LIMIT then PowPositive(10, s.1); s.0 * Pow(10, s.1)
      else assert Decimal(s.0)[0] in Decimal(s.0); DigitValue(Decimal(s.0)[0])
  }

  lemma LeadingOfNat(n: nat)
    requires Round(n) == n
    ensures Leading(ShowNat(n)) == Some(ReadOf(n)) && Leading("-" + ShowNat(n)) == Some(0 - ReadOf(n))
  {
    hide Leading, Round, Shortest, Decimal, Neighbour, Zeros, Scientific, Pow, DigitsValue, AllDecimal;
    if n == 0 {
      ZeroRead();
      assert "-" + ShowNat(0) == "-0";
    } else {
      var s := Shortest(n, |Decimal(n)|);
      var ds := Decimal(s.0);
      ShortestIs(n, |Decimal(n)|);
      DecimalDigits(s.0);
      if n < LIMIT {
        FewDigits(n, s.0, s.1);
        ZerosValue(ds, s.1);
        assert ds + Zeros(s.1) + "" == ds + Zeros(s.1);
        LeadingDigits(ds + Zeros(s.1), "");
      } else {
        ManyDigits(n, s.0, s.1);
        ScientificStart(ds, |ds| + s.1 - 1);
      }
    }
  }

  lemma DecimalDigits(n: nat)
    ensures AllDecimal(Decimal(n)) && DigitsValue(Decimal(n)) == n
  {
    DecimalValue(n);
  }

  lemma ZeroRead()
    ensures Leading("0") == Some(0) && Leading("-0") == Some(0)
  {
    OneDigit('0');
    assert "0" + "" == "0";
    assert "-" + "0" == "-0";
    LeadingDigits("0", "");
  }

  /** Below the limit a number is read as it was printed; from there on as a single digit. */
  lemma ReadOfIs(n: nat)
    requires Round(n) == n
    ensures n < LIMIT ==> Round(ReadOf(n)) == n
    ensures n >= LIMIT ==> 1 <= ReadOf(n) <= 9
  {
    hide Round, Shortest, Decimal, Pow, LIMIT;
    if n == 0 {
      SmallRound(0);
      LimitPositive();
    } else {
      ShortestIs(n, |Decimal(n)|);
      var s := Shortest(n, |Decimal(n)|);
      if n >= LIMIT {
        ManyDigits(n, s.0, s.1);
        FirstDigit(s.0);
      }
    }
  }

  /** What parsing a printed number gives. */
  function Reads(n: int): int
    requires IsNumber(n)
  {
    if n < 0 then 0 - ReadOf(-n) else ReadOf(n)
  }

  lemma LeadingOfInt(n: int)
    requires IsNumber(n)
    ensures Leading(ShowInt(n)) == Some(Reads(n))
  {
    hide Leading, ShowNat, Round, ReadOf, Finite;
    if n < 0 {
      LeadingOfNat(-n);
    } else {
      LeadingOfNat(n);
    }
  }

  /** A number is read back from its printed form if and only if it is less than 10^21; a larger one
      is read as one digit. */
  lemma LeadingOfShown(n: int)
    requires IsNumber(n)
    ensures Leading(ShowInt(n)).Some?
    ensures Rounded(Leading(ShowInt(n)).value) == n <==> Abs(n) < LIMIT
    ensures Abs(n) >= LIMIT ==> 1 <= Abs(Rounded(Leading(ShowInt(n)).value)) <= 9
  {
    hide Leading, ShowInt, Round, ReadOf, Finite, LIMIT;
    LeadingOfInt(n);
    ReadOfIs(Abs(n));
    LimitAboveDigits();
    if Abs(n) >= LIMIT {
      SmallRound(ReadOf(Abs(n)));
    } else if n < 0 {
      ReadPositive(-n);
    }
  }

  lemma LimitAboveDigits()
    ensures LIMIT > 9
  {
  }

  lemma ReadPositive(n: nat)
    requires Round(n) == n && 0 < n < LIMIT
    ensures ReadOf(n) > 0
  {
    hide ReadOf, Round, LIMIT;
    ReadOfIs(n);
    SmallRound(0);
  }

  lemma FormIsAscii(c: nat, e: nat)
    ensures IsAscii(Form(c, e)) && Form(c, e) != ""
  {
    hide Decimal, Zeros;
    var ds, s := Decimal(c), Form(c, e);
    var x := |ds| + e - 1;
    forall k | 0 <= k < |s|
      ensures s[k] as int < 128
    {
      assert s[k] in s;
      assert s[k] in ds || s[k] in Zeros(e) || s[k] in Decimal(x) || s[k] == '.' || s[k] == 'e' || s[k] == '+';
    }
  }

  lemma ShownIsAscii(n: int)
    ensures IsAscii(ShowInt(n)) && ShowInt(n) != ""
  {
    hide Form, Shortest;
    if n != 0 {
      var s := Shortest(Abs(n), |Decimal(Abs(n))|);
      FormIsAscii(s.0, s.1);
    }
  }

  // ---------------------------------------------------------------- the fewest digits

  /** If a multiple of 10^e is read as n, one next to n is. */
  lemma CandidateExists(n: nat, c: nat, e: nat)
    requires Round(n) == n && Round(c * Pow(10, e)) == n
    ensures Candidate(n, e).Some?
  {
    hide Round, Rest, Quot, Pow;
    PowPositive(10, e);
    var p := Pow(10, e);
    var q := Quot(n, p);
    Between(n, p);
    if c <= q {
      Arithmetic.Multiple(c, q, p);
      RoundMonotone(c * p, q * p);
      RoundMonotone(q * p, n);
    } else {
      Arithmetic.Multiple(q + 1, c, p);
      RoundMonotone(n, (q + 1) * p);
      RoundMonotone((q + 1) * p, c * p);
    }
  }

  lemma Between(n: nat, p: nat)
    requires p > 0
    ensures Quot(n, p) * p <= n <= (Quot(n, p) + 1) * p
  {
    Unfold(n, p);
  }

  /** The exponent is the largest there is. */
  lemma {:induction false} Largest(n: nat, c: nat, e: nat, top: nat)
    requires Round(n) == n && Round(c * Pow(10, e)) == n && e <= top
    ensures Shortest(n, top).1 >= e
  {
    hide Round, Pow, Candidate;
    CandidateExists(n, c, e);
    if e < top {
      Largest(n, c, e, top - 1);
    }
  }

  lemma ExponentBound(n: nat, c: nat, e: nat)
    requires n > 0 && c > 0 && Round(c * Pow(10, e)) == n
    ensures e <= |Decimal(n)|
  {
    hide Round, Pow, Decimal;
    var k := |Decimal(n)|;
    if e > k {
      Size(n, k);
      PowAdd(10, e - k, k);
      TenOrMore(e - k);
      Arithmetic.Multiple(10, Pow(10, e - k), Pow(10, k));
      PowPositive(10, e);
      Arithmetic.Multiple(1, c, Pow(10, e));
      RoundHalf(c * Pow(10, e));
      assert false;
    }
  }

  lemma {:induction false} TenOrMore(k: nat)
    requires k > 0
    ensures Pow(10, k) >= 10
  {
    if k > 1 {
      TenOrMore(k - 1);
    }
  }

  lemma ReadIsPositive(n: nat, c: nat, e: nat)
    requires n > 0 && Round(c * Pow(10, e)) == n
    ensures c > 0
  {
    hide Round, Pow;
    if c == 0 {
      NothingIsZero(Pow(10, e));
    }
  }

  /** No decimal that is read as a number has fewer digits than the printed one. */
  lemma FewestDigits(n: nat, c: nat, e: nat)
    requires n > 0 && Round(n) == n && Round(c * Pow(10, e)) == n
    ensures |Decimal(Shortest(n, |Decimal(n)|).0)| <= |Decimal(c)|
  {
    hide Round, Pow, Decimal, Shortest;
    var s := Shortest(n, |Decimal(n)|);
    ReadIsPositive(n, c, e);
    ExponentBound(n, c, e);
    Largest(n, c, e, |Decimal(n)|);
    ShortestIs(n, |Decimal(n)|);
    var d := |Decimal(s.0)|;
    if |Decimal(c)| < d {
      PowerBetween(n, c, e, s.0, s.1);
      ExponentBound(n, 1, d - 1 + s.1);
      Largest(n, 1, d - 1 + s.1, |Decimal(n)|);
    }
  }

  /** A power of ten lies between two decimals of different length. */
  lemma PowerBetween(n: nat, c: nat, e: nat, b: nat, f: nat)
    requires Round(c * Pow(10, e)) == n && Round(b * Pow(10, f)) == n && e <= f && |Decimal(c)| < |Decimal(b)|
    ensures Round(1 * Pow(10, |Decimal(b)| - 1 + f)) == n
  {
    hide Round, Pow, Decimal;
    var d := |Decimal(b)| - 1;
    Size(c, d);
    Size(b, d);
    PowAdd(10, d, f);
    ScaledAtMost(c, e, Pow(10, d), f);
    Arithmetic.Multiple(Pow(10, d), b, Pow(10, f));
    RoundMonotone(c * Pow(10, e), Pow(10, d) * Pow(10, f));
    RoundMonotone(Pow(10, d) * Pow(10, f), b * Pow(10, f));
  }

  lemma ScaledAtMost(c: nat, e: nat, t: nat, f: nat)
    requires c <= t && e <= f
    ensures c * Pow(10, e) <= t * Pow(10, f)
  {
    hide Pow;
    PowGrows(e, f);
    Products(c, t, Pow(10, e), Pow(10, f));
  }

  lemma {:induction false} PowGrows(e: nat, f: nat)
    requires e <= f
    ensures Pow(10, e) <= Pow(10, f)
  {
    if e < f {
      PowGrows(e, f - 1);
    }
  }

  lemma Products(a: nat, b: nat, x: nat, y: nat)
    requires a <= b && x <= y
    ensures a * x <= b * y
  {
    Arithmetic.Multiple(a, b, x);
    Arithmetic.Multiple(x, y, b);
  }

  // ---------------------------------------------------------------- the least number with an exponent

  lemma LimitShown()
    ensures ShowInt(LIMIT) == "1e+21"
  {
    hide Round, Shortest, Decimal;
    LimitDigits();
    LimitShortest();
    LimitParts();
  }

  lemma LimitDigits()
    ensures |Decimal(LIMIT)| == 22
  {
    hide Decimal, Pow;
    LimitIsPower();
    LimitTimesTen();
    Size(LIMIT, 21);
    Size(LIMIT, 22);
  }

  lemma LimitTimesTen()
    ensures Pow(10, 22) == 10 * LIMIT
  {
    hide LIMIT;
    LimitIsPower();
  }

  lemma LimitShortest()
    ensures Shortest(LIMIT, 22) == (1, 21)
  {
    hide Pow, Round;
    LimitIsPower();
    LimitTimesTen();
    LimitIsNumber();
    NothingIsZero(Pow(10, 22));
    TenTimesLimit();
  }

  lemma TenTimesLimit()
    ensures Round(10 * LIMIT) != LIMIT
  {
    hide Round;
    RoundHalf(10 * LIMIT);
  }

  lemma LimitParts()
    ensures Decimal(1) == "1" && Decimal(21) == "21"
  {
  }

  lemma LeadingOfDecimal(n: nat)
    ensures Leading(Decimal(n)) == Some(n)
  {
    hide Leading, DigitsValue;
    DecimalDigits(n);
    assert Decimal(n) + "" == Decimal(n);
    LeadingDigits(Decimal(n), "");
  }

  /** A number of two digits or more in front of a text. */
  lemma LeadingBefore(n: nat, rest: string)
    requires n >= 10 && (rest == "" || !IsDigit(rest[0]))
    ensures Leading(Decimal(n) + rest) == Some(n)
  {
    hide Leading, DigitsValue, AllDecimal;
    DecimalDigits(n);
    LeadingDigits(Decimal(n), rest);
  }
}
