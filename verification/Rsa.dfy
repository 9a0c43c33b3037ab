/** Text of any length under a cipher that takes 245 bytes at a time. */
module Rsa {
  import opened Options
  import opened Numerals
  import Base64
  import opened Utf8

  const BLOCK_SIZE := 256
  const MAX_CHUNK_SIZE := BLOCK_SIZE - 11

  /** A key pair's block operations; encryption may depend on the turn, as its padding is random.
      None stands for an exception. */
  datatype Cipher = Cipher(encrypt: (nat, seq<nat>) -> Option<seq<nat>>, decrypt: seq<nat> -> Option<seq<nat>>)

  /** Blocks of the right size come back, and take 256 bytes. */
  ghost predicate Inverts(c: Cipher) {
    forall i, b: seq<nat> :: |b| <= MAX_CHUNK_SIZE && Below(b, 256) ==>
      var e := c.encrypt(i, b);
      e.Some? && |e.value| == BLOCK_SIZE && Below(e.value, 256) && c.decrypt(e.value) == Some(b)
  }

  function Ceil(a: nat, b: nat): nat
    requires b > 0
  {
    (a + b - 1) / b
  }

  /** The i-th block of a buffer, cut off at its end. */
  function Block(buf: seq<nat>, i: nat, size: nat): seq<nat> {
    var hi := if (i + 1) * size < |buf| then (i + 1) * size else |buf|;
    var lo := if i * size < hi then i * size else hi;
    buf[lo..hi]
  }

  function EncryptBlocks(c: Cipher, buf: seq<nat>, k: nat): Option<seq<nat>> {
    if k == 0 then Some([])
    else
      var r, e := EncryptBlocks(c, buf, k - 1), c.encrypt(k - 1, Block(buf, k - 1, MAX_CHUNK_SIZE));
      if r.None? || e.None? then None else Some(r.value + e.value)
  }

  function DecryptBlocks(c: Cipher, buf: seq<nat>, k: nat): Option<string> {
    if k == 0 then Some("")
    else
      var r, d := DecryptBlocks(c, buf, k - 1), c.decrypt(Block(buf, k - 1, BLOCK_SIZE));
      if r.None? || d.None? then None else Some(r.value + Decode(d.value))
  }

  function Encrypted(c: Cipher, text: string): string {
    var r := EncryptBlocks(c, Bytes(text), Ceil(|Bytes(text)|, MAX_CHUNK_SIZE));
    if r.None? then "" else Base64.ToBase64(r.value)
  }

  function Decrypted(c: Cipher, enc: string): string {
    var buf := Base64.FromBase64(enc);
    var r := DecryptBlocks(c, buf, Ceil(|buf|, BLOCK_SIZE));
    if r.None? then "" else r.value
  }

  method Encrypt(c: Cipher, text: string) returns (r: string)
    ensures r == Encrypted(c, text)
  {
    hide Block, Bytes, Base64.ToBase64;
    var buf := Bytes(text);
    var finalBuf: seq<nat> := [];
    var n := Ceil(|buf|, MAX_CHUNK_SIZE);
    var i := 0;
    while i < n
      invariant 0 <= i <= n
      invariant EncryptBlocks(c, buf, i) == Some(finalBuf)
    {
      var f := c.encrypt(i, Block(buf, i, MAX_CHUNK_SIZE));
      if f.None? {
        EncryptFails(c, buf, i, n);
        return "";
      }
      finalBuf := finalBuf + f.value;
      i := i + 1;
    }
    r := Base64.ToBase64(finalBuf);
  }

  lemma {:induction false} EncryptFails(c: Cipher, buf: seq<nat>, i: nat, n: nat)
    requires i < n && c.encrypt(i, Block(buf, i, MAX_CHUNK_SIZE)).None?
    ensures EncryptBlocks(c, buf, n).None?
  {
    hide Block;
    if i < n - 1 {
      EncryptFails(c, buf, i, n - 1);
    }
  }

  method Decrypt(c: Cipher, enc: string) returns (r: string)
    ensures r == Decrypted(c, enc)
  {
    hide Block, Decode, Base64.FromBase64;
    var buf := Base64.FromBase64(enc);
    r := "";
    var n := Ceil(|buf|, BLOCK_SIZE);
    var i := 0;
    while i < n
      invariant 0 <= i <= n
      invariant DecryptBlocks(c, buf, i) == Some(r)
    {
      var b := c.decrypt(Block(buf, i, BLOCK_SIZE));
      if b.None? {
        DecryptFails(c, buf, i, n);
        return "";
      }
      r := r + Decode(b.value);
      i := i + 1;
    }
  }

  lemma {:induction false} DecryptFails(c: Cipher, buf: seq<nat>, i: nat, n: nat)
    requires i < n && c.decrypt(Block(buf, i, BLOCK_SIZE)).None?
    ensures DecryptBlocks(c, buf, n).None?
  {
    hide Block;
    if i < n - 1 {
      DecryptFails(c, buf, i, n - 1);
    }
  }

  // ---------------------------------------------------------------- texts come back

  lemma BlockBelow(buf: seq<nat>, i: nat, size: nat)
    requires Below(buf, 256)
    ensures Below(Block(buf, i, size), 256) && |Block(buf, i, size)| <= size
  {
    var b := Block(buf, i, size);
    assert forall d :: d in b ==> d in buf;
    assert (i + 1) * size == i * size + size;
  }

  lemma {:induction false} EncryptedLength(c: Cipher, buf: seq<nat>, k: nat)
    requires Inverts(c) && Below(buf, 256)
    ensures EncryptBlocks(c, buf, k).Some?
    ensures |EncryptBlocks(c, buf, k).value| == k * BLOCK_SIZE && Below(EncryptBlocks(c, buf, k).value, 256)
  {
    hide Block, Below;
    if k == 0 {
      NothingBelow();
    } else {
      EncryptedLength(c, buf, k - 1);
      BlockBelow(buf, k - 1, MAX_CHUNK_SIZE);
      var e := c.encrypt(k - 1, Block(buf, k - 1, MAX_CHUNK_SIZE)).value;
      BelowBoth(EncryptBlocks(c, buf, k - 1).value, e);
    }
  }

  lemma NothingBelow()
    ensures Below([], 256)
  {
  }

  lemma BelowBoth(a: seq<nat>, b: seq<nat>)
    requires Below(a, 256) && Below(b, 256)
    ensures Below(a + b, 256)
  {
    assert forall d :: d in a + b ==> d in a || d in b;
  }

  /** Later blocks do not change earlier ones. */
  lemma {:induction false} EncryptedPrefix(c: Cipher, buf: seq<nat>, k: nat, n: nat)
    requires Inverts(c) && Below(buf, 256) && k <= n
    ensures EncryptBlocks(c, buf, n).Some? && EncryptBlocks(c, buf, k).Some?
    ensures EncryptBlocks(c, buf, k).value <= EncryptBlocks(c, buf, n).value
    decreases n - k
  {
    hide Block, Below, Inverts;
    EncryptedLength(c, buf, n);
    EncryptedLength(c, buf, k);
    if k < n {
      EncryptedLength(c, buf, n - 1);
      EncryptedPrefix(c, buf, k, n - 1);
    }
  }

  /** The i-th cipher block. */
  lemma CipherBlock(c: Cipher, buf: seq<nat>, i: nat, n: nat)
    requires Inverts(c) && Below(buf, 256) && i < n
    ensures EncryptBlocks(c, buf, n).Some?
    ensures c.encrypt(i, Block(buf, i, MAX_CHUNK_SIZE))
         == Some(Block(EncryptBlocks(c, buf, n).value, i, BLOCK_SIZE))
  {
    hide Below, Inverts;
    EncryptedPrefix(c, buf, i + 1, n);
    EncryptedLength(c, buf, n);
    EncryptedLength(c, buf, i + 1);
    EncryptedLength(c, buf, i);
    var all, pre, e := EncryptBlocks(c, buf, n).value, EncryptBlocks(c, buf, i).value,
                       c.encrypt(i, Block(buf, i, MAX_CHUNK_SIZE)).value;
    hide Block;
    assert pre + e <= all;
    Inside(all, pre, e, i);
  }

  lemma Inside(all: seq<nat>, pre: seq<nat>, e: seq<nat>, i: nat)
    requires pre + e <= all && |pre| == i * BLOCK_SIZE && |pre + e| == (i + 1) * BLOCK_SIZE
    ensures Block(all, i, BLOCK_SIZE) == e
  {
    assert all[..|pre + e|] == pre + e;
    assert all[|pre|..|pre + e|] == e;
  }

  lemma PlainBlock(c: Cipher, buf: seq<nat>, i: nat, n: nat)
    requires Inverts(c) && Below(buf, 256) && i < n
    ensures EncryptBlocks(c, buf, n).Some?
    ensures c.decrypt(Block(EncryptBlocks(c, buf, n).value, i, BLOCK_SIZE)) == Some(Block(buf, i, MAX_CHUNK_SIZE))
  {
    hide Block, Below;
    CipherBlock(c, buf, i, n);
    BlockBelow(buf, i, MAX_CHUNK_SIZE);
  }

  /** What the first k blocks of a buffer are read as, each by itself. */
  function Reads(buf: seq<nat>, k: nat): string {
    if k == 0 then "" else Reads(buf, k - 1) + Decode(Block(buf, k - 1, MAX_CHUNK_SIZE))
  }

  /** A text as it comes back: its bytes are cut into blocks, and the blocks are read one by one. */
  function Reread(text: string): string {
    Reads(Bytes(text), Ceil(|Bytes(text)|, MAX_CHUNK_SIZE))
  }

  lemma {:induction false} DecryptsReads(c: Cipher, buf: seq<nat>, k: nat, n: nat)
    requires Inverts(c) && Below(buf, 256) && k <= n
    ensures EncryptBlocks(c, buf, n).Some?
    ensures DecryptBlocks(c, EncryptBlocks(c, buf, n).value, k) == Some(Reads(buf, k))
  {
    hide Block, Below, Inverts, Decode;
    EncryptedLength(c, buf, n);
    if k > 0 {
      DecryptsReads(c, buf, k - 1, n);
      PlainBlock(c, buf, k - 1, n);
    }
  }

  lemma CeilExact(k: nat)
    ensures Ceil(k * BLOCK_SIZE, BLOCK_SIZE) == k
  {
  }

  /** What is decrypted is the text as it comes back from its blocks, whatever the cipher. */
  lemma DecryptEncrypt(c: Cipher, text: string)
    requires Inverts(c)
    ensures Decrypted(c, Encrypted(c, text)) == Reread(text)
  {
    hide Block, Below, Inverts, EncryptBlocks, DecryptBlocks, Reads, Bytes, Ceil, Base64.FromBase64, Base64.ToBase64;
    var buf := Bytes(text);
    var n := Ceil(|buf|, MAX_CHUNK_SIZE);
    BytesBelow(text);
    EncryptedLength(c, buf, n);
    Base64.FromStandard(EncryptBlocks(c, buf, n).value);
    CeilExact(n);
    DecryptsReads(c, buf, n, n);
  }

  // ---------------------------------------------------------------- which texts come back

  /** No border between two blocks cuts a character. */
  ghost predicate Whole(text: string) {
    forall i: nat :: Border(i) < |Bytes(text)| ==> !Continuation(Bytes(text)[Border(i)])
  }

  function Border(i: nat): nat {
    i * MAX_CHUNK_SIZE
  }

  function Min(a: nat, b: nat): nat {
    if a < b then a else b
  }

  lemma BlockIs(buf: seq<nat>, i: nat)
    ensures Border(i) <= Border(i + 1) == Border(i) + MAX_CHUNK_SIZE
    ensures Block(buf, i, MAX_CHUNK_SIZE) == buf[Min(Border(i), |buf|)..Min(Border(i + 1), |buf|)]
  {
  }

  lemma CeilCovers(n: nat)
    ensures Border(Ceil(n, MAX_CHUNK_SIZE)) >= n
    ensures forall i: nat :: Border(i) < n ==> i < Ceil(n, MAX_CHUNK_SIZE)
  {
  }

  /** How many continuations stand at the fronts of the first k blocks. */
  function Extra(buf: seq<nat>, k: nat): nat {
    if k == 0 then 0 else Extra(buf, k - 1) + Lead(Block(buf, k - 1, MAX_CHUNK_SIZE))
  }

  lemma Fronts(buf: seq<nat>, a: nat, b: nat)
    requires a <= b <= |buf|
    ensures buf[..b] == buf[..a] + buf[a..b]
  {
  }

  /** What is read has a character for each that begins in the blocks, and one more for each continuation
      at the front of a block. */
  lemma {:induction false} ReadsLength(text: string, k: nat)
    ensures var buf := Bytes(text);
            |Reads(buf, k)| == Starts(buf[..Min(Border(k), |buf|)]) + Extra(buf, k)
  {
    hide Block, Bytes, Decode, Starts, Lead, Border;
    var buf := Bytes(text);
    if k == 0 {
      NothingYet(buf);
      assert buf[..0] == [];
      NothingRead();
    } else {
      var a, b := Min(Border(k - 1), |buf|), Min(Border(k), |buf|);
      ReadsLength(text, k - 1);
      BlockIs(buf, k - 1);
      PartLength(text, a, b);
      Fronts(buf, a, b);
      StartsConcat(buf[..a], buf[a..b]);
    }
  }

  /** Text that is not cut is read as it is, block by block. */
  lemma {:induction false} ReadsWhole(text: string, k: nat) returns (j: nat)
    requires Whole(text)
    ensures var buf := Bytes(text);
            j <= |text| && Reads(buf, k) == text[..j] && Bytes(text[j..]) == buf[Min(Border(k), |buf|)..]
  {
    hide Block, Bytes, Decode, Border, Whole, Reads;
    var buf := Bytes(text);
    NothingYet(buf);
    if k == 0 {
      j := 0;
      assert text[0..] == text && buf[0..] == buf;
    } else {
      var a, b := Min(Border(k - 1), |buf|), Min(Border(k), |buf|);
      j := ReadsWhole(text, k - 1);
      BlockIs(buf, k - 1);
      NotCut(text, k);
      assert buf[a..][b - a..] == buf[b..] && buf[a..][..b - a] == buf[a..b];
      assert b < |buf| ==> buf[a..][b - a] == buf[b];
      var i := Place(text[j..], b - a);
      DecodeBytes(text[j..][..i]);
      ReadsMore(buf, k);
      assert text[..j] + text[j..][..i] == text[..j + i] && text[j..][i..] == text[j + i..];
      j := j + i;
    }
  }

  lemma NothingYet(buf: seq<nat>)
    ensures Border(0) == 0 && Reads(buf, 0) == ""
  {
  }

  lemma ReadsMore(buf: seq<nat>, k: nat)
    requires k > 0
    ensures Reads(buf, k) == Reads(buf, k - 1) + Decode(Block(buf, k - 1, MAX_CHUNK_SIZE))
  {
    hide Block, Decode;
  }

  lemma NotCut(text: string, k: nat)
    requires Whole(text)
    ensures Border(k) < |Bytes(text)| ==> !Continuation(Bytes(text)[Border(k)])
  {
    hide Bytes, Border;
  }

  /** A cut makes what is read longer. */
  lemma {:induction false} CutIsExtra(buf: seq<nat>, i: nat, k: nat)
    requires i < k && Border(i) < |buf| && Continuation(buf[Border(i)])
    ensures Extra(buf, k) > 0
  {
    hide Block, Border;
    if i < k - 1 {
      CutIsExtra(buf, i, k - 1);
    } else {
      BlockIs(buf, i);
    }
  }

  /** A text of any length comes back if and only if no border between two blocks cuts a character;
      otherwise it comes back longer. */
  lemma ComesBack(text: string)
    ensures Reread(text) == text <==> Whole(text)
    ensures if Whole(text) then Reread(text) == text else |Reread(text)| > |text|
  {
    hide Block, Bytes, Decode, Reads, Border, Extra, Ceil, Starts, Lead;
    var buf := Bytes(text);
    var n := Ceil(|buf|, MAX_CHUNK_SIZE);
    CeilCovers(|buf|);
    ReadsLength(text, n);
    StartsOfText(text);
    assert buf[..Min(Border(n), |buf|)] == buf;
    if Whole(text) {
      var j := ReadsWhole(text, n);
      BytesBelow(text[j..]);
      assert text[..j] == text;
    } else {
      var i: nat :| Border(i) < |buf| && Continuation(buf[Border(i)]);
      CutIsExtra(buf, i, n);
    }
  }

  /** A text without characters of several bytes always comes back. */
  lemma SmallCharactersComeBack(text: string)
    requires forall k :: 0 <= k < |text| ==> text[k] as int < 128
    ensures Reread(text) == text
  {
    hide Reread, Bytes;
    OneByteEach(text);
    ComesBack(text);
  }

  lemma {:induction false} OneByteEach(text: string)
    requires forall k :: 0 <= k < |text| ==> text[k] as int < 128
    ensures |Bytes(text)| == |text| && forall k :: 0 <= k < |Bytes(text)| ==> !Continuation(Bytes(text)[k])
  {
    if text != "" {
      OneByteEach(text[1..]);
    }
  }

  /** A text of 245 characters that comes back longer: the last one takes two bytes, in two blocks. */
  lemma CutHappens()
    ensures var text := seq(244, _ => 'a') + ['\U{00E9}'];
            !Whole(text) && |Reread(text)| > |text|
  {
    var front, last := seq(244, _ => 'a'), ['\U{00E9}'];
    OneByteEach(front);
    BytesConcat(front, last);
    assert last[1..] == "" && Bytes(last) == [0xC3, 0xA9];
    hide Reread, Bytes;
    assert Border(1) == 245 && Bytes(front + last)[245] == 0xA9;
    ComesBack(front + last);
  }
}
