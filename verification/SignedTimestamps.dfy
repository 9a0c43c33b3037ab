/** Proof of who a node is: a time stamp and its signature in one base64 text. */
module SignedTimestamps {
  import opened Options
  import opened Numerals
  import Grouping
  import Base64
  import Hex
  import Utf8
  import Zbase32

  /** The part of a buffer between two positions, each cut off at its end. */
  function Subarray(bs: seq<nat>, a: nat, b: nat): seq<nat>
    requires a <= b
  {
    var hi := if b < |bs| then b else |bs|;
    var lo := if a < hi then a else hi;
    bs[lo..hi]
  }

  /** The bytes that are signed. */
  function Stamp(now: nat): (bs: seq<nat>)
    ensures Below(bs, 256)
  {
    Hex.FromHex(Hex.HexOf(now))
  }

  /** What a node is asked to sign: the stamp, or for a node that signs texts its base64 text. */
  function Signed(now: nat, asText: bool): seq<nat> {
    if asText then Utf8.Bytes(Base64.UrlBase64(Stamp(now))) else Stamp(now)
  }

  /** The text made at a time, with a leading dot if a text was signed; None stands for an exception. */
  function Generate(now: nat, asText: bool, sign: seq<nat> -> string): Option<string> {
    var sig := Zbase32.Decode(sign(Signed(now, asText)));
    if sig.None? then None
    else
      var text := Base64.UrlBase64(Stamp(now) + sig.value);
      Some(if asText then "." + text else text)
  }

  /** What the node answers about a text: the key the signature belongs to. */
  function Verify(text: string, verify: (seq<nat>, string) -> Option<string>): Option<string> {
    var buf := Base64.FromBase64(text);
    verify(Subarray(buf, 0, 4), Zbase32.Encode(Subarray(buf, 4, 92)))
  }

  lemma Halves(a: seq<nat>, b: seq<nat>)
    requires |a| == 4 && |b| <= 88
    ensures Subarray(a + b, 0, 4) == a && Subarray(a + b, 4, 92) == b
  {
  }

  lemma BelowBoth(a: seq<nat>, b: seq<nat>)
    requires Below(a, 256) && Below(b, 256)
    ensures Below(a + b, 256)
  {
    assert forall d :: d in a + b ==> d in a || d in b;
  }

  lemma FourBytes(now: nat)
    requires 0x1000_0000 <= now < 0x1_0000_0000
    ensures |Stamp(now)| == 4 && Value(Stamp(now), 256) == now
  {
    hide Value, Hex.HexOf, Hex.FromHex, Pow;
    Powers16();
    Hex.HexLength(now, 8);
    Hex.HexLength(now, 7);
    Hex.BytesOfNumber(now);
  }

  lemma Powers16()
    ensures Pow(16, 7) == 0x1000_0000 && Pow(16, 8) == 0x1_0000_0000
  {
    assert Pow(16, 0) == 1;
    assert Pow(16, 1) == Pow(16, 0) * 16;
    assert Pow(16, 2) == Pow(16, 1) * 16;
    assert Pow(16, 3) == Pow(16, 2) * 16;
    assert Pow(16, 4) == Pow(16, 3) * 16;
    assert Pow(16, 5) == Pow(16, 4) * 16;
    assert Pow(16, 6) == Pow(16, 5) * 16;
    assert Pow(16, 7) == Pow(16, 6) * 16;
    assert Pow(16, 8) == Pow(16, 7) * 16;
  }

  lemma SignatureBytes(sig: string)
    requires Zbase32.IsWord(sig) && |sig| == 104
    ensures Zbase32.Decode(sig).Some? && Zbase32.Encode(Zbase32.Decode(sig).value) == sig
    ensures Below(Zbase32.Decode(sig).value, 256) && |Zbase32.Decode(sig).value| == 65
  {
    hide Zbase32.Word, Zbase32.IsWord, Grouping.Unpack;
    Zbase32.WholeGroupsReturn(sig);
    UnpackedLength(Zbase32.Word(sig), 13);
  }

  lemma {:induction false} UnpackedLength(ds: seq<nat>, k: nat)
    requires |ds| == 8 * k
    ensures |Grouping.Unpack(Grouping.QUINTS, ds)| == 5 * k
    decreases k
  {
    if k > 1 {
      UnpackedLength(ds[8..], k - 1);
    }
  }

  lemma {:induction false} DotIsSkipped(s: string)
    ensures Base64.Codes("." + s) == Base64.Codes(s)
  {
    hide Base64.Code;
    assert Base64.Code('.') == None by {
      NoCode();
    }
    if s == "" {
      assert "." + s == "." && "."[..0] == "";
    } else {
      DotIsSkipped(s[..|s| - 1]);
      assert ("." + s)[..|s|] == "." + s[..|s| - 1];
    }
  }

  lemma NoCode()
    ensures Base64.Code('.') == None
  {
  }

  /** The base64 text of a stamp is longer than the stamp. */
  lemma TextIsOther(bs: seq<nat>)
    requires |bs| == 4 && Below(bs, 256)
    ensures Utf8.Bytes(Base64.UrlBase64(bs)) != bs
  {
    hide Utf8.Bytes, Grouping.FromGroup;
    Grouping.WholeGroup(Grouping.SEXTETS, bs[..3]);
    assert |Base64.ToBase64(bs)| >= 6;
    Utf8.BytesBelow(Base64.UrlBase64(bs));
  }

  /** Verifying a generated text asks the node about exactly the bytes of the stamp, with exactly the
      signature it gave: in the years 1978 to 2106, for signatures of 65 bytes. That is what was signed
      if and only if the node does not sign texts. */
  lemma VerifyGenerated(now: nat, asText: bool, sign: seq<nat> -> string, verify: (seq<nat>, string) -> Option<string>)
    requires 0x1000_0000 <= now < 0x1_0000_0000
    requires var s := sign(Signed(now, asText)); Zbase32.IsWord(s) && |s| == 104
    ensures Generate(now, asText, sign).Some?
    ensures Verify(Generate(now, asText, sign).value, verify) == verify(Stamp(now), sign(Signed(now, asText)))
    ensures Signed(now, asText) == Stamp(now) <==> !asText
    ensures Value(Stamp(now), 256) == now
  {
    hide Zbase32.IsWord, Zbase32.Decode, Zbase32.Encode, Base64.UrlBase64, Base64.Codes, Stamp, Value, Subarray, Below,
         Utf8.Bytes;
    SignatureBytes(sign(Signed(now, asText)));
    FourBytes(now);
    TextIsOther(Stamp(now));
    var sig := Zbase32.Decode(sign(Signed(now, asText))).value;
    BelowBoth(Stamp(now), sig);
    Base64.FromUrl(Stamp(now) + sig);
    DotIsSkipped(Base64.UrlBase64(Stamp(now) + sig));
    Halves(Stamp(now), sig);
  }
}
