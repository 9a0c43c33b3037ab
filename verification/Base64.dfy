/** Base64 and its URL-safe form (section 5 of RFC 4648). */
module Base64 {
  import opened Options
  import opened Numerals
  import opened Grouping

  /** The letter of a digit in standard base64. */
  function Letter(d: nat): char
    requires d < 64
  {
    if d < 26 then ('A' as int + d) as char
    else if d < 52 then ('a' as int + d - 26) as char
    else if d < 62 then ('0' as int + d - 52) as char
    else if d == 62 then '+' else '/'
  }

  /** The digit of a letter in either form; None for any other character. */
  function Code(c: char): (r: Option<nat>)
    ensures r.Some? ==> r.value < 64
  {
    if 'A' <= c <= 'Z' then Some(c as nat - 'A' as nat)
    else if 'a' <= c <= 'z' then Some(c as nat - 'a' as nat + 26)
    else if '0' <= c <= '9' then Some(c as nat - '0' as nat + 52)
    else if c == '+' || c == '-' then Some(62)
    else if c == '/' || c == '_' then Some(63)
    else None
  }

  function Replaced(c: char): char {
    if c == '/' then '_' else if c == '+' then '-' else c
  }

  function Letters(ds: seq<nat>): (s: string)
    requires Below(ds, 64)
    ensures |s| == |ds|
  {
    seq(|ds|, k requires 0 <= k < |ds| => assert ds[k] in ds; Letter(ds[k]))
  }

  function Padding(b: nat): (s: string)
    ensures |s| <= 2 && forall c :: c in s ==> c == '='
  {
    if b % 3 == 0 then "" else if b % 3 == 1 then "==" else "="
  }

  /** What a buffer prints as. */
  function ToBase64(bs: seq<nat>): string {
    Letters(Pack(SEXTETS, bs)) + Padding(|bs|)
  }

  /** Replaces the two letters that mean something in a URL. */
  function UrlBase64(bs: seq<nat>): (s: string) {
    var t := ToBase64(bs);
    seq(|t|, k requires 0 <= k < |t| => Replaced(t[k]))
  }

  /** The digits in a text, whatever else it contains. */
  function Codes(s: string): (ds: seq<nat>)
    ensures Below(ds, 64)
  {
    if s == "" then []
    else
      var ds, c := Codes(s[..|s| - 1]), Code(s[|s| - 1]);
      if c.Some? then
        assert forall d :: d in ds + [c.value] ==> d in ds || d == c.value;
        ds + [c.value]
      else ds
  }

  /** What a buffer reads from a text. */
  function FromBase64(s: string): (bs: seq<nat>)
    ensures Below(bs, 256)
  {
    Unpack(SEXTETS, Codes(s))
  }

  lemma CodeOfLetter(d: nat)
    requires d < 64
    ensures Code(Letter(d)) == Some(d) == Code(Replaced(Letter(d)))
  {
  }

  lemma {:induction false} CodesOfText(s: string, ds: seq<nat>)
    requires |s| == |ds| && forall k :: 0 <= k < |s| ==> Code(s[k]) == Some(ds[k])
    ensures Codes(s) == ds
  {
    hide Code;
    if s != "" {
      CodesOfText(s[..|s| - 1], ds[..|ds| - 1]);
    }
  }

  lemma {:induction false} CodesOfPadded(s: string, pad: string)
    requires forall c :: c in pad ==> Code(c) == None
    ensures Codes(s + pad) == Codes(s)
  {
    hide Code;
    if pad == "" {
      assert s + pad == s;
    } else {
      var m := |pad| - 1;
      assert pad[m] in pad;
      CodesOfPadded(s, pad[..m]);
      assert (s + pad)[..|s + pad| - 1] == s + pad[..m];
    }
  }

  /** The letters of digits, in either form. */
  ghost predicate Spells(s: string, ds: seq<nat>)
    requires Below(ds, 64)
  {
    && |s| == |ds|
    && forall k :: 0 <= k < |s| ==> Code(s[k]) == Some(ds[k])
  }

  lemma LettersSpell(ds: seq<nat>, s: string)
    requires Below(ds, 64) && |s| == |ds|
    requires forall k :: 0 <= k < |s| ==> s[k] == Letters(ds)[k] || s[k] == Replaced(Letters(ds)[k])
    ensures Spells(s, ds)
  {
    hide Letter, Code, Replaced;
    forall k | 0 <= k < |s|
      ensures Code(s[k]) == Some(ds[k])
    {
      assert ds[k] in ds;
      CodeOfLetter(ds[k]);
    }
  }

  lemma ReadsBack(bs: seq<nat>, s: string, pad: string)
    requires Below(bs, 256) && Spells(s, Pack(SEXTETS, bs))
    requires forall c :: c in pad ==> c == '='
    ensures FromBase64(s + pad) == bs
  {
    hide Pack, Unpack, Below, Code;
    CodesOfText(s, Pack(SEXTETS, bs));
    assert Code('=') == None by {
      NoCode();
    }
    CodesOfPadded(s, pad);
    BytesComeBack(SEXTETS, bs);
  }

  lemma NoCode()
    ensures Code('=') == None
  {
  }

  /** Reading back a printed buffer. */
  lemma FromStandard(bs: seq<nat>)
    requires Below(bs, 256)
    ensures FromBase64(ToBase64(bs)) == bs
  {
    hide Pack, Below, Padding, FromBase64;
    var ds := Pack(SEXTETS, bs);
    LettersSpell(ds, Letters(ds));
    ReadsBack(bs, Letters(ds), Padding(|bs|));
  }

  /** The URL-safe letters read back to the same bytes. */
  lemma FromUrl(bs: seq<nat>)
    requires Below(bs, 256)
    ensures FromBase64(UrlBase64(bs)) == bs
  {
    hide Pack, Below, Padding, FromBase64, Letters;
    var ds := Pack(SEXTETS, bs);
    var u := UrlBase64(bs);
    var s, pad := u[..|ds|], u[|ds|..];
    assert u == s + pad;
    LettersSpell(ds, s);
    forall c | c in pad
      ensures c == '='
    {
      var k :| 0 <= k < |pad| && pad[k] == c;
      assert Padding(|bs|)[k] in Padding(|bs|);
      assert ToBase64(bs)[|ds| + k] == Padding(|bs|)[k];
    }
    ReadsBack(bs, s, pad);
  }

  /** The characters of a URL-safe text. */
  predicate UrlSafe(c: char) {
    'A' <= c <= 'Z' || 'a' <= c <= 'z' || '0' <= c <= '9' || c == '-' || c == '_' || c == '='
  }

  lemma UrlSafeLetter(d: nat)
    requires d < 64
    ensures UrlSafe(Replaced(Letter(d)))
  {
  }

  lemma UrlIsSafe(bs: seq<nat>)
    ensures forall k :: 0 <= k < |UrlBase64(bs)| ==> UrlSafe(UrlBase64(bs)[k])
  {
    hide Pack, Padding, Letter;
    var ds, u := Pack(SEXTETS, bs), UrlBase64(bs);
    forall k | 0 <= k < |u|
      ensures UrlSafe(u[k])
    {
      if k < |ds| {
        assert ds[k] in ds;
        UrlSafeLetter(ds[k]);
      } else {
        assert Padding(|bs|)[k - |ds|] in Padding(|bs|);
      }
    }
  }

  /** Only the empty buffer prints as nothing. */
  lemma NothingPrinted(bs: seq<nat>)
    requires Below(bs, 256)
    ensures UrlBase64(bs) == "" <==> bs == []
  {
    hide Pack, FromBase64, Letters;
    if UrlBase64(bs) == "" {
      FromUrl(bs);
      FromUrl([]);
      assert bs == FromBase64("");
      EmptyGroup(SEXTETS);
    } else {
      EmptyGroup(SEXTETS);
    }
  }

  /** The digits as letters: capitals, small letters, figures, and two signs that a URL replaces. */
  lemma LettersAre(d: nat)
    requires d < 64
    ensures d < 26 ==> 'A' <= Letter(d) <= 'Z' && Letter(d) as int - 'A' as int == d
    ensures 26 <= d < 52 ==> 'a' <= Letter(d) <= 'z' && Letter(d) as int - 'a' as int == d - 26
    ensures 52 <= d < 62 ==> '0' <= Letter(d) <= '9' && Letter(d) as int - '0' as int == d - 52
    ensures d == 62 ==> Letter(d) == '+' && Replaced(Letter(d)) == '-'
    ensures d == 63 ==> Letter(d) == '/' && Replaced(Letter(d)) == '_'
    ensures d < 62 ==> Replaced(Letter(d)) == Letter(d)
  {
  }

  /** The first test vector of section 10 of RFC 4648, the letter f. */
  lemma VectorF()
    ensures ToBase64([0x66]) == "Zg=="
  {
    hide Letter;
    assert Pack(SEXTETS, [0x66]) == [25, 32] by {
      PackedF();
    }
    LettersAre(25);
    LettersAre(32);
  }

  lemma PackedF()
    ensures Pack(SEXTETS, [0x66]) == [25, 32]
  {
    assert [0x66][..0] == [];
    assert Value([0x66], 256) == 0x66;
    assert Pow(256, 1) == 256 && Pow(256, 2) == 65536;
    var n := 0x66_0000;
    assert Filled(SEXTETS, [0x66]) == n;
    assert Quot(n, 64) == 104448 && Quot(104448, 64) == 1632 && Quot(1632, 64) == 25 && Quot(25, 64) == 0;
    assert Digits(0, 64, 0) == [] && Digits(25, 64, 1) == [25];
    assert Digits(1632, 64, 2) == [25, 32];
    assert Digits(104448, 64, 3) == [25, 32, 0];
    assert Digits(n, 64, 4) == [25, 32, 0, 0];
  }
}
