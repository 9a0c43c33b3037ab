/** Unicode text in buffers: the encoding form UTF-8 (RFC 3629), and reading what may be cut. */
module Utf8 {
  import opened Numerals

  /** The bytes of a character. */
  function EncodeChar(c: char): (bs: seq<nat>)
    ensures 1 <= |bs| <= 4
  {
    var n := c as nat;
    if n < 0x80 then [n]
    else if n < 0x800 then [0xC0 + n / 64, 0x80 + n % 64]
    else if n < 0x1_0000 then [0xE0 + n / 4096, 0x80 + n / 64 % 64, 0x80 + n % 64]
    else [0xF0 + n / 262144, 0x80 + n / 4096 % 64, 0x80 + n / 64 % 64, 0x80 + n % 64]
  }

  function Bytes(s: string): seq<nat> {
    if s == "" then [] else EncodeChar(s[0]) + Bytes(s[1..])
  }

  predicate Continuation(b: nat) {
    0x80 <= b < 0xC0
  }

  /** How many bytes a first byte announces; 0 when no character begins with it. */
  function Announced(b: nat): (n: nat)
    ensures n <= 4
  {
    if b < 0x80 then 1
    else if 0xC2 <= b < 0xE0 then 2
    else if 0xE0 <= b < 0xF0 then 3
    else if 0xF0 <= b < 0xF5 then 4
    else 0
  }

  /** Whether a second byte can follow: no overlong form, no surrogate, nothing beyond U+10FFFF. */
  predicate Follows(b: nat, d: nat) {
    if b == 0xE0 then 0xA0 <= d < 0xC0
    else if b == 0xED then 0x80 <= d < 0xA0
    else if b == 0xF0 then 0x90 <= d < 0xC0
    else if b == 0xF4 then 0x80 <= d < 0x90
    else Continuation(d)
  }

  /** How many bytes at the front belong to one character, which may be cut or malformed. */
  function Extent(bs: seq<nat>): (n: nat)
    requires bs != []
    ensures 1 <= n <= |bs| && n <= 4
  {
    var len := Announced(bs[0]);
    if len <= 1 || |bs| < 2 || !Follows(bs[0], bs[1]) then 1
    else if len == 2 || |bs| < 3 || !Continuation(bs[2]) then 2
    else if len == 3 || |bs| < 4 || !Continuation(bs[3]) then 3
    else 4
  }

  const REPLACEMENT: char := '\U{FFFD}'

  /** The character at the front; the replacement character for one that is cut or malformed. */
  function First(bs: seq<nat>): char
    requires bs != []
  {
    if Extent(bs) != Announced(bs[0]) then REPLACEMENT
    else if Extent(bs) == 1 then bs[0] as char
    else if Extent(bs) == 2 then (64 * (bs[0] - 0xC0) + (bs[1] - 0x80)) as char
    else if Extent(bs) == 3 then (4096 * (bs[0] - 0xE0) + 64 * (bs[1] - 0x80) + (bs[2] - 0x80)) as char
    else (262144 * (bs[0] - 0xF0) + 4096 * (bs[1] - 0x80) + 64 * (bs[2] - 0x80) + (bs[3] - 0x80)) as char
  }

  function Decode(bs: seq<nat>): string {
    if bs == [] then "" else [First(bs)] + Decode(bs[Extent(bs)..])
  }

  // ---------------------------------------------------------------- whole characters come back

  /** The first byte of a character announces the others, which are continuations. */
  lemma CharBytes(c: char)
    ensures var e := EncodeChar(c);
            && Announced(e[0]) == |e| && !Continuation(e[0]) && Below(e, 256)
            && (|e| > 1 ==> Follows(e[0], e[1]))
            && (forall k :: 1 <= k < |e| ==> Continuation(e[k]))
  {
  }

  lemma WholeExtent(c: char)
    ensures Extent(EncodeChar(c)) == |EncodeChar(c)|
  {
    hide EncodeChar;
    CharBytes(c);
  }

  lemma CharIs(c: char)
    ensures First(EncodeChar(c)) == c
  {
    WholeExtent(c);
    CharBytes(c);
    hide Extent, Announced;
    if c as nat >= 0x1_0000 {
      FourBytes(c as nat);
    } else if c as nat >= 0x800 {
      ThreeBytes(c as nat);
    }
  }

  lemma ThreeBytes(n: nat)
    ensures n == 4096 * (n / 4096) + 64 * (n / 64 % 64) + n % 64
  {
    assert n / 64 == n / 4096 * 64 + n / 64 % 64;
  }

  lemma FourBytes(n: nat)
    ensures n == 262144 * (n / 262144) + 4096 * (n / 4096 % 64) + 64 * (n / 64 % 64) + n % 64
  {
    ThreeBytes(n);
    assert n / 4096 == n / 262144 * 64 + n / 4096 % 64;
  }

  /** What stands behind a whole character does not matter. */
  lemma FirstAlone(e: seq<nat>, rest: seq<nat>)
    requires e != [] && Extent(e) == |e| == Announced(e[0])
    ensures Extent(e + rest) == |e| && First(e + rest) == First(e)
  {
    hide Follows, Continuation, Announced;
    var bs := e + rest;
    assert forall k :: 0 <= k < |e| ==> bs[k] == e[k];
  }

  lemma FirstIs(c: char, rest: seq<nat>)
    ensures Extent(EncodeChar(c) + rest) == |EncodeChar(c)| && First(EncodeChar(c) + rest) == c
  {
    hide EncodeChar, Extent, First;
    WholeExtent(c);
    CharBytes(c);
    CharIs(c);
    FirstAlone(EncodeChar(c), rest);
  }

  lemma DecodeFirst(c: char, rest: seq<nat>)
    ensures Decode(EncodeChar(c) + rest) == [c] + Decode(rest)
  {
    hide EncodeChar, Extent, First;
    FirstIs(c, rest);
    assert (EncodeChar(c) + rest)[|EncodeChar(c)|..] == rest;
  }

  /** Text comes back from its bytes. */
  lemma {:induction false} DecodeBytes(s: string)
    ensures Decode(Bytes(s)) == s
  {
    hide EncodeChar, Extent, First;
    if s != "" {
      DecodeBytes(s[1..]);
      DecodeFirst(s[0], Bytes(s[1..]));
      assert s == [s[0]] + s[1..];
    }
  }

  lemma {:induction false} BytesBelow(s: string)
    ensures Below(Bytes(s), 256) && |Bytes(s)| >= |s|
  {
    hide EncodeChar;
    if s != "" {
      CharBytes(s[0]);
      BytesBelow(s[1..]);
      var a, b := EncodeChar(s[0]), Bytes(s[1..]);
      assert forall d :: d in a + b ==> d in a || d in b;
    }
  }

  lemma {:induction false} BytesConcat(s: string, t: string)
    ensures Bytes(s + t) == Bytes(s) + Bytes(t)
  {
    hide EncodeChar;
    if s == "" {
      assert s + t == t;
    } else {
      BytesConcat(s[1..], t);
      assert (s + t)[1..] == s[1..] + t;
      assert Bytes(s + t) == EncodeChar(s[0]) + (Bytes(s[1..]) + Bytes(t));
    }
  }

  // ---------------------------------------------------------------- cutting text

  lemma InsideChar(s: string, p: nat)
    requires s != "" && 0 < p < |EncodeChar(s[0])|
    ensures p < |Bytes(s)| && Continuation(Bytes(s)[p])
  {
    hide EncodeChar;
    CharBytes(s[0]);
  }

  lemma BytesStart(s: string)
    ensures Bytes(s) == if s == "" then [] else EncodeChar(s[0]) + Bytes(s[1..])
  {
    hide EncodeChar;
  }

  lemma BytesBehind(s: string, j: nat)
    requires s != "" && j < |s|
    ensures Bytes(s[..j + 1]) == EncodeChar(s[0]) + Bytes(s[1..][..j]) && Bytes(s[j + 1..]) == Bytes(s[1..][j..])
  {
    hide EncodeChar;
    assert s[..j + 1][1..] == s[1..][..j];
    assert s[j + 1..] == s[1..][j..];
  }

  lemma CutBehind(a: seq<nat>, b: seq<nat>, p: nat)
    requires |a| <= p <= |a| + |b|
    ensures (a + b)[..p] == a + b[..p - |a|] && (a + b)[p..] == b[p - |a|..]
  {
  }

  /** A place in the bytes of a text where no character is cut is a place in the text. */
  lemma {:induction false} Place(s: string, p: nat) returns (k: nat)
    requires p <= |Bytes(s)| && (p < |Bytes(s)| ==> !Continuation(Bytes(s)[p]))
    ensures k <= |s| && Bytes(s[..k]) == Bytes(s)[..p] && Bytes(s[k..]) == Bytes(s)[p..]
  {
    hide EncodeChar, Bytes;
    BytesStart(s);
    if p == 0 {
      k := 0;
      assert s[..0] == "" && s[0..] == s && Bytes(s)[0..] == Bytes(s);
      BytesStart("");
    } else {
      var e := EncodeChar(s[0]);
      CharBytes(s[0]);
      if p < |e| {
        InsideChar(s, p);
        assert false;
      }
      k := Place(s[1..], p - |e|);
      CutBehind(e, Bytes(s[1..]), p);
      BytesBehind(s, k);
      k := k + 1;
    }
  }

  /** How many characters begin in a buffer. */
  function Starts(bs: seq<nat>): nat {
    if bs == [] then 0 else (if Continuation(bs[0]) then 0 else 1) + Starts(bs[1..])
  }

  /** How many continuations stand at the front of a buffer. */
  function Lead(bs: seq<nat>): nat {
    if bs == [] || !Continuation(bs[0]) then 0 else 1 + Lead(bs[1..])
  }

  lemma {:induction false} StartsConcat(a: seq<nat>, b: seq<nat>)
    ensures Starts(a + b) == Starts(a) + Starts(b)
  {
    if a == [] {
      assert a + b == b;
    } else {
      StartsConcat(a[1..], b);
      assert (a + b)[1..] == a[1..] + b;
    }
  }

  lemma {:induction false} OnlyContinuations(bs: seq<nat>, rest: seq<nat>)
    requires forall k :: 0 <= k < |bs| ==> Continuation(bs[k])
    ensures Starts(bs) == 0 && |Decode(bs + rest)| == |bs| + |Decode(rest)| && Lead(bs + rest) == |bs| + Lead(rest)
  {
    if bs == [] {
      assert bs + rest == rest;
    } else {
      OnlyContinuations(bs[1..], rest);
      var all := bs + rest;
      assert all[1..] == bs[1..] + rest;
      assert Extent(all) == 1;
    }
  }

  /** One character begins in the bytes of a character, or in its first few. */
  lemma StartsOfChar(c: char, k: nat)
    requires 0 < k <= |EncodeChar(c)|
    ensures Starts(EncodeChar(c)[..k]) == 1 && Lead(EncodeChar(c)[..k]) == 0
  {
    hide EncodeChar;
    CharBytes(c);
    var p := EncodeChar(c)[..k];
    OnlyContinuations(p[1..], []);
  }

  lemma {:induction false} StartsOfText(s: string)
    ensures Starts(Bytes(s)) == |s| && Lead(Bytes(s)) == 0
  {
    hide EncodeChar;
    if s != "" {
      var e := EncodeChar(s[0]);
      StartsOfText(s[1..]);
      StartsOfChar(s[0], |e|);
      assert e[..|e|] == e;
      StartsConcat(e, Bytes(s[1..]));
      CharBytes(s[0]);
    }
  }

  /** A character that is cut is read as one replacement character. */
  lemma CutChar(c: char, k: nat)
    requires 0 < k < |EncodeChar(c)|
    ensures |Decode(EncodeChar(c)[..k])| == 1
  {
    hide EncodeChar;
    CharBytes(c);
    var e, p := EncodeChar(c), EncodeChar(c)[..k];
    assert Extent(p) == k;
    assert p[k..] == [];
  }

  lemma Slices(x: seq<nat>, y: seq<nat>, a: nat, b: nat)
    requires a <= b <= |x| + |y|
    ensures var p := (x + y)[a..b];
            p == if a >= |x| then y[a - |x|..b - |x|] else if b <= |x| then x[a..b] else x[a..] + y[..b - |x|]
  {
  }

  /** A part of a text is read as one character for each that begins in it, and one more for each
      continuation at its front. */
  lemma {:induction false} PartLength(s: string, a: nat, b: nat)
    requires a <= b <= |Bytes(s)|
    ensures var p := Bytes(s)[a..b]; |Decode(p)| == Starts(p) + Lead(p)
  {
    hide EncodeChar, Extent, First, Decode, Starts, Lead;
    if s == "" {
      NothingRead();
    } else {
      var e, rest := EncodeChar(s[0]), Bytes(s[1..]);
      Slices(e, rest, a, b);
      if a >= |e| {
        PartLength(s[1..], a - |e|, b - |e|);
      } else if b <= |e| {
        PartOfChar(s[0], a, b);
      } else {
        PartLength(s[1..], 0, b - |e|);
        NoLead(s[1..], b - |e|);
        assert rest[..b - |e|] == rest[0..b - |e|];
        PartBehindChar(s[0], a, rest[..b - |e|]);
      }
    }
  }

  lemma NothingRead()
    ensures Decode([]) == "" && Starts([]) == 0 && Lead([]) == 0
  {
  }

  lemma PartBehindChar(c: char, a: nat, q: seq<nat>)
    requires a < |EncodeChar(c)| && |Decode(q)| == Starts(q) && Lead(q) == 0
    ensures var p := EncodeChar(c)[a..] + q; |Decode(p)| == Starts(p) + Lead(p)
  {
    hide EncodeChar, Extent, First, Decode, Starts, Lead;
    var e := EncodeChar(c);
    if a == 0 {
      assert e[a..] == e && e[..|e|] == e;
      DecodeFirst(c, q);
      StartsOfChar(c, |e|);
      StartsConcat(e, q);
      LeadConcat(e, q);
    } else {
      CharBytes(c);
      OnlyContinuations(e[a..], q);
      StartsConcat(e[a..], q);
    }
  }

  lemma LeadConcat(a: seq<nat>, b: seq<nat>)
    requires a != [] && Lead(a) == 0
    ensures Lead(a + b) == 0
  {
  }

  lemma NoLead(s: string, n: nat)
    requires n <= |Bytes(s)|
    ensures Lead(Bytes(s)[..n]) == 0
  {
    hide EncodeChar;
    if n > 0 {
      CharBytes(s[0]);
      var p := Bytes(s)[..n];
      assert p[0] == EncodeChar(s[0])[0] && !Continuation(p[0]);
    }
  }

  lemma PartOfChar(c: char, a: nat, b: nat)
    requires a <= b <= |EncodeChar(c)|
    ensures var p := EncodeChar(c)[a..b]; |Decode(p)| == Starts(p) + Lead(p)
  {
    hide EncodeChar, Extent, First;
    var e := EncodeChar(c);
    var p := e[a..b];
    if a == b {
      assert p == [];
    } else if a == 0 {
      assert p == e[..b];
      StartsOfChar(c, b);
      if b == |e| {
        assert e + [] == p;
        DecodeFirst(c, []);
        NothingRead();
      } else {
        CutChar(c, b);
      }
    } else {
      CharBytes(c);
      OnlyContinuations(p, []);
      assert p + [] == p;
    }
  }

  /** A letter of each length. */
  lemma Examples()
    ensures EncodeChar('a') == [0x61] && EncodeChar('\U{00E9}') == [0xC3, 0xA9]
    ensures EncodeChar('\U{20AC}') == [0xE2, 0x82, 0xAC] && EncodeChar('\U{1F600}') == [0xF0, 0x9F, 0x98, 0x80]
  {
  }
}
