/** Percent-encoding of text. */
module Percent {
  import opened Options
  import Hex
  import Utf8

  /** The characters that stay as they are. */
  predicate Unreserved(c: char) {
    || 'A' <= c <= 'Z' || 'a' <= c <= 'z' || '0' <= c <= '9'
    || c == '-' || c == '_' || c == '.' || c == '!' || c == '~' || c == '*' || c == '\'' || c == '(' || c == ')'
  }

  function UpperHex(d: nat): char
    requires d < 16
  {
    if d < 10 then ('0' as int + d) as char else ('A' as int + d - 10) as char
  }

  function EscapeByte(b: nat): (s: string)
    requires b < 256
    ensures |s| == 3
  {
    ['%', UpperHex(b / 16), UpperHex(b % 16)]
  }

  function Escaped(bs: seq<nat>): (s: string)
    requires forall k :: 0 <= k < |bs| ==> bs[k] < 256
    ensures |s| == 3 * |bs|
  {
    if bs == [] then "" else EscapeByte(bs[0]) + Escaped(bs[1..])
  }

  function EncodeChar(c: char): string {
    Utf8.CharBytes(c);
    if Unreserved(c) then [c] else Escaped(Utf8.EncodeChar(c))
  }

  function Encode(s: string): string {
    if s == "" then "" else EncodeChar(s[0]) + Encode(s[1..])
  }

  /** The byte of the escape at the front. */
  function Escape(s: string): (b: Option<nat>)
    ensures b.Some? ==> |s| >= 3 && b.value < 256
  {
    if |s| < 3 || s[0] != '%' || Hex.Nibble(s[1]).None? || Hex.Nibble(s[2]).None? then None
    else Some(16 * Hex.Nibble(s[1]).value + Hex.Nibble(s[2]).value)
  }

  /** The bytes of n escapes at the front. */
  function Escapes(s: string, n: nat): (bs: Option<seq<nat>>)
    ensures bs.Some? ==> |bs.value| == n && |s| >= 3 * n
  {
    if n == 0 then Some([])
    else if Escape(s).None? || Escapes(s[3..], n - 1).None? then None
    else Some([Escape(s).value] + Escapes(s[3..], n - 1).value)
  }

  /** The character of the escapes at the front, and how many they are. */
  function EscapedChar(s: string): (r: Option<(char, nat)>)
    ensures r.Some? ==> 0 < 3 * r.value.1 <= |s|
  {
    if Escape(s).None? then None
    else
      var n := Utf8.Announced(Escape(s).value);
      if n == 0 || Escapes(s, n).None? then None
      else
        var bs := Escapes(s, n).value;
        if Utf8.Extent(bs) != n then None else Some((Utf8.First(bs), n))
  }

  /** None stands for an exception: a malformed escape, or escapes that are not those of a character. */
  function Decode(s: string): Option<string> {
    if s == "" then Some("")
    else if s[0] != '%' then
      var r := Decode(s[1..]);
      if r.None? then None else Some([s[0]] + r.value)
    else
      var c := EscapedChar(s);
      if c.None? then None
      else
        var r := Decode(s[3 * c.value.1..]);
        if r.None? then None else Some([c.value.0] + r.value)
  }

  lemma HexBack(d: nat)
    requires d < 16
    ensures Hex.Nibble(UpperHex(d)) == Some(d)
  {
  }

  lemma EscapeBack(b: nat, rest: string)
    requires b < 256
    ensures Escape(EscapeByte(b) + rest) == Some(b) && (EscapeByte(b) + rest)[3..] == rest
  {
    hide Hex.Nibble, UpperHex;
    HexBack(b / 16);
    HexBack(b % 16);
    var s := EscapeByte(b) + rest;
    assert s[0] == '%' && s[1] == UpperHex(b / 16) && s[2] == UpperHex(b % 16);
  }

  lemma {:induction false} EscapesBack(bs: seq<nat>, rest: string)
    requires forall k :: 0 <= k < |bs| ==> bs[k] < 256
    ensures Escapes(Escaped(bs) + rest, |bs|) == Some(bs)
    ensures bs != [] ==> Escape(Escaped(bs) + rest) == Some(bs[0])
  {
    hide Escape, EscapeByte;
    if bs != [] {
      EscapesBack(bs[1..], rest);
      EscapeBack(bs[0], Escaped(bs[1..]) + rest);
      assert Escaped(bs) + rest == EscapeByte(bs[0]) + (Escaped(bs[1..]) + rest);
      assert bs == [bs[0]] + bs[1..];
    }
  }

  lemma BytesBelow(c: char)
    ensures forall k :: 0 <= k < |Utf8.EncodeChar(c)| ==> Utf8.EncodeChar(c)[k] < 256
  {
    hide Utf8.EncodeChar;
    Utf8.CharBytes(c);
  }

  /** A character comes back from its escapes. */
  lemma CharEscaped(c: char, rest: string)
    ensures forall k :: 0 <= k < |Utf8.EncodeChar(c)| ==> Utf8.EncodeChar(c)[k] < 256
    ensures EscapedChar(Escaped(Utf8.EncodeChar(c)) + rest) == Some((c, |Utf8.EncodeChar(c)|))
  {
    hide Utf8.EncodeChar, Escape, Escapes, Escaped, Utf8.Announced, Utf8.Extent, Utf8.First;
    BytesBelow(c);
    EscapesBack(Utf8.EncodeChar(c), rest);
    Utf8.CharBytes(c);
    Utf8.WholeExtent(c);
    Utf8.CharIs(c);
  }

  lemma EscapedStart(bs: seq<nat>)
    requires bs != [] && forall k :: 0 <= k < |bs| ==> bs[k] < 256
    ensures Escaped(bs)[0] == '%'
  {
  }

  lemma DecodeFirst(c: char, rest: string)
    requires Decode(rest).Some?
    ensures Decode(EncodeChar(c) + rest) == Some([c] + Decode(rest).value)
  {
    hide EscapedChar, Escaped, Utf8.EncodeChar;
    var s := EncodeChar(c) + rest;
    if Unreserved(c) {
      assert s[1..] == rest;
    } else {
      CharEscaped(c, rest);
      EscapedStart(Utf8.EncodeChar(c));
      assert s[3 * |Utf8.EncodeChar(c)|..] == rest;
    }
  }

  /** Decoding what was encoded gives back the text. */
  lemma {:induction false} DecodeEncode(s: string)
    ensures Decode(Encode(s)) == Some(s)
  {
    hide Decode, EncodeChar;
    if s == "" {
      DecodeNothing();
    } else {
      DecodeEncode(s[1..]);
      DecodeFirst(s[0], Encode(s[1..]));
      assert s == [s[0]] + s[1..];
    }
  }

  lemma DecodeNothing()
    ensures Decode("") == Some("")
  {
  }

  /** What encoded text consists of. */
  predicate Safe(c: char) {
    Unreserved(c) || c == '%'
  }

  lemma SafeEscape(b: nat)
    requires b < 256
    ensures forall d :: d in EscapeByte(b) ==> Safe(d)
  {
  }

  lemma {:induction false} SafeEscapes(bs: seq<nat>)
    requires forall k :: 0 <= k < |bs| ==> bs[k] < 256
    ensures forall d :: d in Escaped(bs) ==> Safe(d)
  {
    hide EscapeByte, Safe;
    if bs != [] {
      SafeEscape(bs[0]);
      SafeEscapes(bs[1..]);
    }
  }

  lemma SafeChar(c: char)
    ensures |EncodeChar(c)| >= 1 && forall d :: d in EncodeChar(c) ==> Safe(d)
  {
    hide Escaped, Utf8.EncodeChar;
    BytesBelow(c);
    SafeEscapes(Utf8.EncodeChar(c));
  }

  lemma {:induction false} EncodeIsSafe(s: string)
    ensures |Encode(s)| >= |s| && forall c :: c in Encode(s) ==> Safe(c)
  {
    hide EncodeChar, Safe;
    if s != "" {
      SafeChar(s[0]);
      EncodeIsSafe(s[1..]);
    }
  }

  lemma {:induction false} UnreservedStays(s: string)
    requires forall k :: 0 <= k < |s| ==> Unreserved(s[k])
    ensures Encode(s) == s
  {
    hide Unreserved;
    if s != "" {
      UnreservedStays(s[1..]);
      assert s == [s[0]] + s[1..];
    }
  }

  /** What marks the parts of a section is escaped, and so is a blank. */
  lemma MarksAreEscaped()
    ensures EncodeChar('%') == "%25" && EncodeChar('&') == "%26" && EncodeChar('=') == "%3D" && EncodeChar(' ') == "%20"
  {
    AsciiEscape('%');
    AsciiEscape('&');
    AsciiEscape('=');
    AsciiEscape(' ');
  }

  lemma AsciiEscape(c: char)
    requires !Unreserved(c) && c as int < 128
    ensures EncodeChar(c) == ['%', UpperHex(c as int / 16), UpperHex(c as int % 16)]
  {
    hide UpperHex, Unreserved;
    assert Utf8.EncodeChar(c) == [c as int];
    OneEscape(c as int);
  }

  lemma OneEscape(b: nat)
    requires b < 256
    ensures Escaped([b]) == EscapeByte(b)
  {
    assert EscapeByte(b) + Escaped([]) == EscapeByte(b);
  }
}
