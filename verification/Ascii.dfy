/** Text in buffers by the encoding called ascii, which keeps the low byte of each code unit and reads
    seven bits of each byte. */
module Ascii {
  import opened Numerals

  predicate IsAscii(s: string) {
    forall k :: 0 <= k < |s| ==> s[k] as int < 128
  }

  /** The low bytes of the code units of a character: one, or two for a surrogate pair. */
  function CharBytes(c: char): (bs: seq<nat>)
    ensures 1 <= |bs| <= 2 && Below(bs, 256)
  {
    var n := c as nat;
    if n < 0x1_0000 then [n % 256] else [(n - 0x1_0000) / 1024 % 256, (n - 0x1_0000) % 256]
  }

  function Bytes(s: string): (bs: seq<nat>)
    ensures |bs| >= |s| && Below(bs, 256) && (s == "" ==> bs == [])
  {
    if s == "" then []
    else
      var a, b := CharBytes(s[0]), Bytes(s[1..]);
      assert forall d :: d in a + b ==> d in a || d in b;
      a + b
  }

  function Text(bs: seq<nat>): (s: string)
    ensures |s| == |bs|
  {
    seq(|bs|, k requires 0 <= k < |bs| => (bs[k] % 128) as char)
  }

  lemma FirstChar(c: char, rest: seq<nat>)
    ensures var t := Text(CharBytes(c) + rest);
            if c as int < 128 then t == [c] + Text(rest) else t[0] != c
  {
  }

  /** A text comes back if and only if it is ASCII. */
  lemma {:induction false} ComesBack(s: string)
    ensures Text(Bytes(s)) == s <==> IsAscii(s)
  {
    hide CharBytes, Text;
    if s == "" {
    } else {
      ComesBack(s[1..]);
      FirstChar(s[0], Bytes(s[1..]));
      assert s == [s[0]] + s[1..];
      assert IsAscii(s) <==> s[0] as int < 128 && IsAscii(s[1..]);
    }
  }
}
