/** zbase32, the text form of signatures: five bytes to eight letters. */
module Zbase32 {
  import opened Options
  import opened Numerals
  import opened Grouping

  /** The letter of a digit. */
  function Letter(d: nat): char
    requires d < 32
  {
    if d < 16 then
      if d < 8 then
        if d < 4 then
          if d == 0 then 'y' else if d == 1 then 'b' else if d == 2 then 'n' else 'd'
        else
          if d == 4 then 'r' else if d == 5 then 'f' else if d == 6 then 'g' else '8'
      else
        if d < 12 then
          if d == 8 then 'e' else if d == 9 then 'j' else if d == 10 then 'k' else 'm'
        else
          if d == 12 then 'c' else if d == 13 then 'p' else if d == 14 then 'q' else 'x'
    else
      if d < 24 then
        if d < 20 then
          if d == 16 then 'o' else if d == 17 then 't' else if d == 18 then '1' else 'u'
        else
          if d == 20 then 'w' else if d == 21 then 'i' else if d == 22 then 's' else 'z'
      else
        if d < 28 then
          if d == 24 then 'a' else if d == 25 then '3' else if d == 26 then '4' else '5'
        else
          if d == 28 then 'h' else if d == 29 then '7' else if d == 30 then '6' else '9'
  }

  /** The digit of a letter. */
  function Reverse(c: char): (r: Option<nat>)
    ensures r.Some? ==> r.value < 32
  {
    if c < 'i' then
      if c < 'a' then
        if c < '6' then
          if c < '4' then
            if c == '1' then Some(18) else if c == '3' then Some(25) else None
          else
            if c == '4' then Some(26) else if c == '5' then Some(27) else None
        else
          if c < '8' then
            if c == '6' then Some(30) else if c == '7' then Some(29) else None
          else
            if c == '8' then Some(7) else if c == '9' then Some(31) else None
      else
        if c < 'e' then
          if c < 'c' then
            if c == 'a' then Some(24) else if c == 'b' then Some(1) else None
          else
            if c == 'c' then Some(12) else if c == 'd' then Some(3) else None
        else
          if c < 'g' then
            if c == 'e' then Some(8) else if c == 'f' then Some(5) else None
          else
            if c == 'g' then Some(6) else if c == 'h' then Some(28) else None
    else
      if c < 'r' then
        if c < 'n' then
          if c < 'k' then
            if c == 'i' then Some(21) else if c == 'j' then Some(9) else None
          else
            if c == 'k' then Some(10) else if c == 'm' then Some(11) else None
        else
          if c < 'p' then
            if c == 'n' then Some(2) else if c == 'o' then Some(16) else None
          else
            if c == 'p' then Some(13) else if c == 'q' then Some(14) else None
      else
        if c < 'w' then
          if c < 't' then
            if c == 'r' then Some(4) else if c == 's' then Some(22) else None
          else
            if c == 't' then Some(17) else if c == 'u' then Some(19) else None
        else
          if c < 'y' then
            if c == 'w' then Some(20) else if c == 'x' then Some(15) else None
          else
            if c == 'y' then Some(0) else if c == 'z' then Some(23) else None
  }

  lemma ReverseLetter(d: nat)
    requires d < 32
    ensures Reverse(Letter(d)) == Some(d)
  {
  }

  lemma LetterReverse(c: char)
    requires Reverse(c).Some?
    ensures Letter(Reverse(c).value) == c
  {
  }

  predicate IsWord(s: string) {
    forall k :: 0 <= k < |s| ==> Reverse(s[k]).Some?
  }

  function Word(s: string): (ds: seq<nat>)
    requires IsWord(s)
    ensures |ds| == |s| && Below(ds, 32)
  {
    seq(|s|, k requires 0 <= k < |s| => Reverse(s[k]).value)
  }

  function Letters(ds: seq<nat>): (s: string)
    requires Below(ds, 32)
    ensures |s| == |ds|
  {
    seq(|ds|, k requires 0 <= k < |ds| => assert ds[k] in ds; Letter(ds[k]))
  }

  function Encode(bs: seq<nat>): string {
    Letters(Pack(QUINTS, bs))
  }

  /** None stands for an exception. */
  function Decode(s: string): Option<seq<nat>> {
    if IsWord(s) && |s| % 8 != 1 then Some(Unpack(QUINTS, Word(s))) else None
  }

  lemma WordOfLetters(ds: seq<nat>)
    requires Below(ds, 32)
    ensures IsWord(Letters(ds)) && Word(Letters(ds)) == ds
  {
    hide Letter, Reverse;
    var s := Letters(ds);
    forall k | 0 <= k < |s|
      ensures Reverse(s[k]) == Some(ds[k])
    {
      assert ds[k] in ds;
      ReverseLetter(ds[k]);
    }
  }

  lemma LettersOfWord(s: string)
    requires IsWord(s)
    ensures Letters(Word(s)) == s
  {
    hide Letter, Reverse;
    forall k | 0 <= k < |s|
      ensures Letters(Word(s))[k] == s[k]
    {
      LetterReverse(s[k]);
    }
  }

  lemma LettersEqual(a: seq<nat>, b: seq<nat>)
    requires Below(a, 32) && Below(b, 32) && Letters(a) == Letters(b)
    ensures a == b
  {
    hide Letters, Below;
    WordOfLetters(a);
    WordOfLetters(b);
  }

  lemma EncodedLength(bs: seq<nat>)
    ensures |Encode(bs)| == |Pack(QUINTS, bs)|
  {
  }

  lemma {:induction false} PackedLength(bs: seq<nat>)
    ensures |Pack(QUINTS, bs)| % 8 != 1
    decreases |bs|
  {
    hide FromGroup;
    if |bs| > 5 {
      PackedLength(bs[5..]);
    }
  }

  /** Decoding what was encoded gives back the bytes. */
  lemma DecodeEncode(bs: seq<nat>)
    requires Below(bs, 256)
    ensures Decode(Encode(bs)) == Some(bs)
  {
    hide Letters, Word, IsWord, Pack, Unpack, Below;
    WordOfLetters(Pack(QUINTS, bs));
    EncodedLength(bs);
    PackedLength(bs);
    BytesComeBack(QUINTS, bs);
  }

  /** The bits of the last letter that belong to no whole byte. */
  predicate SpareBitsZero(s: string)
    requires IsWord(s)
  {
    s != "" ==> Reverse(s[|s| - 1]).value % Spare(QUINTS, |s|) == 0
  }

  /** A text is the encoding of what it decodes to if and only if it consists of letters, has the
      length of an encoding, and sets no spare bit. */
  lemma EncodeDecode(s: string)
    ensures Decode(s).Some? && Encode(Decode(s).value) == s
       <==> IsWord(s) && |s| % 8 in {0, 2, 4, 5, 7} && SpareBitsZero(s)
  {
    hide Letters, IsWord, Pack, Unpack, Below, Letter, Reverse, Spare;
    if IsWord(s) {
      var ds := Word(s);
      DigitsReturn(QUINTS, ds);
      LettersOfWord(s);
      if Letters(Pack(QUINTS, Unpack(QUINTS, ds))) == Letters(ds) {
        LettersEqual(Pack(QUINTS, Unpack(QUINTS, ds)), ds);
      }
      LengthCases(|s|);
      assert Clean(QUINTS, ds) == SpareBitsZero(s);
    }
  }

  lemma LengthCases(d: nat)
    ensures Length(QUINTS, d) <==> d % 8 in {0, 2, 4, 5, 7}
    ensures Length(QUINTS, d) ==> d % 8 != 1
  {
  }

  /** In particular every text of letters whose length is a multiple of eight comes back. */
  lemma WholeGroupsReturn(s: string)
    requires IsWord(s) && |s| % 8 == 0
    ensures Decode(s).Some? && Encode(Decode(s).value) == s
  {
    EncodeDecode(s);
    FullSpare(|s|);
  }

  lemma FullSpare(d: nat)
    requires d % 8 == 0
    ensures Spare(QUINTS, d) == 1
  {
    assert 5 * d % 8 == 0;
  }

  lemma NoBrace(s: string)
    requires IsWord(s)
    ensures '}' !in s
  {
  }

  // ---------------------------------------------------------------- the loops

  lemma LettersConcat(a: seq<nat>, b: seq<nat>)
    requires Below(a, 32) && Below(b, 32)
    ensures Below(a + b, 32) && Letters(a + b) == Letters(a) + Letters(b)
  {
    hide Letter;
    assert forall d :: d in a + b ==> d in a || d in b;
  }

  lemma LetterMore(ds: seq<nat>, j: nat)
    requires j < |ds| && Below(ds, 32)
    ensures Below(ds[..j + 1], 32) && Below(ds[..j], 32) && ds[j] < 32
    ensures Letters(ds[..j + 1]) == Letters(ds[..j]) + [Letter(ds[j])]
  {
    hide Letter;
    BelowParts(ds, 32, j);
    BelowParts(ds, 32, j + 1);
    assert ds[j] in ds;
  }

  /** The encoding one group at a time. */
  lemma EncodeMore(bs: seq<nat>, k: nat)
    requires bs != [] && k == if |bs| < 5 then |bs| else 5
    ensures Encode(bs) == Letters(FromGroup(QUINTS, bs[..k])) + Encode(bs[k..])
  {
    hide FromGroup, Letters, Below;
    LettersConcat(FromGroup(QUINTS, bs[..k]), Pack(QUINTS, bs[k..]));
    if |bs| < 5 {
      assert bs[..k] == bs && bs[k..] == [];
      EmptyGroup(QUINTS);
    } else {
      assert bs == bs[..k] + bs[k..];
      PackMore(QUINTS, bs[..k], bs[k..]);
    }
  }

  lemma DigitOfGroup(bs: seq<nat>, j: nat)
    requires |bs| <= 5 && j < |FromGroup(QUINTS, bs)|
    ensures j < 8 && Pow(32, 7 - j) > 0
    ensures FromGroup(QUINTS, bs)[j] == Rest(Quot(Filled(QUINTS, bs), Pow(32, 7 - j)), 32)
  {
    hide Digits, Pow, Rest, Quot, Filled;
    Fits(QUINTS, |bs|);
    DigitAt(Filled(QUINTS, bs), 32, 8, j);
  }

  method EncodeGroup(bs: seq<nat>) returns (str: string)
    requires 0 < |bs| <= 5
    ensures str == Letters(FromGroup(QUINTS, bs))
  {
    hide Filled, Digits, Pow, Rest, Quot, Letter, Below, Letters;
    ghost var ds := FromGroup(QUINTS, bs);
    var zbase32Length := (|bs| * 8 + 4) / 5;
    var n := Value(bs, 256) * Pow(256, 5 - |bs|);
    assert n == Filled(QUINTS, bs) by {
      FilledIs(bs);
    }
    str := "";
    NoLetters();
    var j := 0;
    while j < zbase32Length
      invariant 0 <= j <= zbase32Length == |ds|
      invariant Below(ds[..j], 32) && str == Letters(ds[..j])
    {
      DigitOfGroup(bs, j);
      LetterMore(ds, j);
      str := str + [Letter(Rest(Quot(n, Pow(32, 7 - j)), 32))];
      j := j + 1;
    }
    assert ds[..j] == ds;
  }

  lemma NoLetters()
    ensures Below([], 32) && Letters([]) == ""
  {
  }

  lemma FilledIs(bs: seq<nat>)
    requires |bs| <= 5
    ensures Filled(QUINTS, bs) == Value(bs, 256) * Pow(256, 5 - |bs|)
  {
  }

  method EncodeBuffer(buf: seq<nat>) returns (str: string)
    ensures str == Encode(buf)
  {
    hide Encode, FromGroup, Letters;
    str := "";
    var i := 0;
    assert buf[0..] == buf;
    EncodeNothing();
    while i < |buf|
      invariant 0 <= i
      invariant Encode(buf) == str + if i < |buf| then Encode(buf[i..]) else ""
    {
      var byteLength := if |buf| - i < 5 then |buf| - i else 5;
      var chunk := EncodeGroup(buf[i..i + byteLength]);
      EncodeMore(buf[i..], byteLength);
      assert buf[i..][..byteLength] == buf[i..i + byteLength] && buf[i..][byteLength..] == buf[i + byteLength..];
      EncodeOn(buf, i, byteLength, str, chunk);
      str := str + chunk;
      i := i + 5;
    }
  }

  /** One turn of the loop: what is left to encode is a chunk shorter. */
  lemma EncodeOn(buf: seq<nat>, i: nat, n: nat, str: string, chunk: string)
    requires i < |buf| && n == (if |buf| - i < 5 then |buf| - i else 5)
    requires Encode(buf) == str + Encode(buf[i..]) && Encode(buf[i..]) == chunk + Encode(buf[i + n..])
    ensures Encode(buf) == str + chunk + if i + 5 < |buf| then Encode(buf[i + 5..]) else ""
  {
    hide Encode;
    if i + 5 < |buf| {
      assert str + (chunk + Encode(buf[i + 5..])) == str + chunk + Encode(buf[i + 5..]);
    } else {
      EncodeNothing();
      assert buf[i + n..] == [];
      assert str + (chunk + "") == str + chunk + "";
    }
  }

  lemma EncodeNothing()
    ensures Encode([]) == ""
  {
    hide FromGroup;
    EmptyGroup(QUINTS);
  }

  /** A group of letters; None if one is unknown or there is a single one. */
  method DecodeGroup(s: string) returns (chunk: Option<seq<nat>>)
    requires 0 < |s| <= 8
    ensures chunk == if IsWord(s) && |s| != 1 then Some(ToGroup(QUINTS, Word(s))) else None
  {
    hide Word, Pow, Quot, Digits, Value, Reverse;
    var byteLength := |s| * 5 / 8;
    var n := 0;
    var j := 0;
    WordNothing(s);
    while j < |s|
      invariant 0 <= j <= |s| && IsWord(s[..j])
      invariant n == Value(Word(s[..j]), 32)
    {
      var digit := Reverse(s[j]);
      if digit.None? {
        assert !IsWord(s);
        return None;
      }
      WordMore(s, j);
      n := n * 32 + digit.value;
      j := j + 1;
    }
    assert s[..j] == s;
    if byteLength == 0 {
      return None;
    }
    n := n * Pow(32, 8 - |s|);
    PowPositive(256, 5 - byteLength);
    chunk := Some(Digits(Quot(n, Pow(256, 5 - byteLength)), 256, byteLength));
  }

  lemma WordMore(s: string, j: nat)
    requires j < |s| && IsWord(s[..j]) && Reverse(s[j]).Some?
    ensures IsWord(s[..j + 1])
    ensures Value(Word(s[..j + 1]), 32) == Value(Word(s[..j]), 32) * 32 + Reverse(s[j]).value
  {
    hide Value, Reverse;
    assert Word(s[..j + 1]) == Word(s[..j]) + [Reverse(s[j]).value];
    LastValue(Word(s[..j]), Reverse(s[j]).value, 32);
  }

  lemma WordNothing(s: string)
    ensures Value(Word(s[..0]), 32) == 0
  {
    NoDigits(0, 32);
    assert Word(s[..0]) == [];
  }

  lemma WordParts(s: string, k: nat)
    requires k <= |s|
    ensures IsWord(s) <==> IsWord(s[..k]) && IsWord(s[k..])
    ensures IsWord(s) ==> Word(s)[..k] == Word(s[..k]) && Word(s)[k..] == Word(s[k..])
  {
    hide Reverse;
    if IsWord(s[..k]) && IsWord(s[k..]) {
      forall j | 0 <= j < |s|
        ensures Reverse(s[j]).Some?
      {
        assert s[j] == if j < k then s[..k][j] else s[k..][j - k];
      }
    }
  }

  function Prepend(bytes: seq<nat>, r: Option<seq<nat>>): Option<seq<nat>> {
    if r.None? then None else Some(bytes + r.value)
  }

  lemma PrependLaws(a: seq<nat>, b: seq<nat>, r: Option<seq<nat>>)
    ensures Prepend([], r) == r && Prepend(b, Some([])) == Some(b)
    ensures Prepend(a, Prepend(b, r)) == Prepend(a + b, r)
  {
    assert b + [] == b;
    if r.Some? {
      assert [] + r.value == r.value;
      assert a + (b + r.value) == (a + b) + r.value;
    }
  }

  function Suffix(s: string, i: nat): string {
    if i < |s| then s[i..] else ""
  }

  /** The decoding one group at a time. */
  lemma DecodeMore(s: string, k: nat)
    requires s != "" && k == if |s| < 8 then |s| else 8
    requires IsWord(s[..k]) && k != 1
    ensures Decode(s) == Prepend(ToGroup(QUINTS, Word(s[..k])), Decode(s[k..]))
  {
    hide ToGroup, Below, IsWord, Word, Unpack;
    if |s| < 8 {
      assert s[..k] == s && s[k..] == "";
      DecodeNothing();
      UnpackShort(Word(s));
      PrependLaws([], ToGroup(QUINTS, Word(s)), None);
    } else {
      WordParts(s, k);
      if IsWord(s) {
        assert Word(s) == Word(s)[..8] + Word(s)[8..];
        UnpackMore(QUINTS, Word(s)[..8], Word(s)[8..]);
      }
    }
  }

  lemma UnpackShort(ds: seq<nat>)
    requires |ds| < 8
    ensures Unpack(QUINTS, ds) == ToGroup(QUINTS, ds)
  {
    hide ToGroup;
  }

  lemma NothingIsWord()
    ensures IsWord("") && Word("") == []
  {
  }

  lemma DecodeFails(s: string, k: nat)
    requires s != "" && k == if |s| < 8 then |s| else 8
    requires !IsWord(s[..k]) || k == 1
    ensures Decode(s) == None
  {
    hide Unpack, Reverse;
    WordParts(s, k);
  }

  method DecodeString(str: string) returns (r: Option<seq<nat>>)
    ensures r == Decode(str)
  {
    hide Decode, ToGroup, Word, IsWord;
    var bytes: seq<nat> := [];
    var i := 0;
    assert str[0..] == str;
    PrependLaws([], [], Decode(str));
    while i < |str|
      invariant 0 <= i
      invariant Decode(str) == Prepend(bytes, Decode(Suffix(str, i)))
    {
      var zbase32Length := if |str| - i < 8 then |str| - i else 8;
      ghost var rest := str[i..];
      assert rest[..zbase32Length] == str[i..i + zbase32Length];
      assert rest[zbase32Length..] == str[i + zbase32Length..];
      var chunk := DecodeGroup(str[i..i + zbase32Length]);
      if chunk.None? {
        DecodeFails(rest, zbase32Length);
        return None;
      }
      DecodeMore(rest, zbase32Length);
      PrependLaws(bytes, chunk.value, Decode(rest[zbase32Length..]));
      bytes := bytes + chunk.value;
      i := i + 8;
    }
    DecodeNothing();
    PrependLaws([], bytes, None);
    r := Some(bytes);
  }

  lemma DecodeNothing()
    ensures Decode("") == Some([])
  {
    hide ToGroup;
    EmptyGroup(QUINTS);
    NothingIsWord();
  }

  /** The letters, in the order of their digits. */
  lemma LettersAre(d: nat)
    requires d < 32
    ensures Letter(d) == "ybndrfg8ejkmcpqxot1uwisza345h769"[d]
  {
  }

  /** A byte of ones is five ones, three ones and two zeros. */
  lemma OnesAre()
    ensures Encode([0xFF]) == "9h"
  {
    hide Letter;
    assert Pack(QUINTS, [0xFF]) == [31, 28] by {
      PackedOnes();
    }
    LettersAre(31);
    LettersAre(28);
  }

  lemma PackedOnes()
    ensures Pack(QUINTS, [0xFF]) == [31, 28]
  {
    assert [0xFF][..0] == [];
    assert Value([0xFF], 256) == 0xFF;
    assert Pow(256, 1) == 256 && Pow(256, 2) == 65536;
    assert Pow(256, 3) == 0x100_0000 && Pow(256, 4) == 0x1_0000_0000;
    var n := 0xFF_0000_0000;
    assert Filled(QUINTS, [0xFF]) == n;
    PrefixOfDigits(n, 32, 8, 2);
    assert DivPow(n, 32, 6) == 1020 by {
      DivPowIs(n, 32, 6);
      assert Pow(32, 2) == 1024 && Pow(32, 4) == 0x10_0000 && Pow(32, 6) == 0x4000_0000;
    }
    assert Quot(1020, 32) == 31 && Quot(31, 32) == 0;
    assert Digits(0, 32, 0) == [] && Digits(31, 32, 1) == [31];
    assert Digits(1020, 32, 2) == [31, 28];
  }
}
