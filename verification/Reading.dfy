/** What a finished symbol says: a reader who knows the function patterns, the block layout and the
    data mask recovers the codewords and from them the encoded bytes. */
module Reading {
  import opened BitStream
  import opened Options
  import opened BlockLayout
  import opened Interleaving
  import opened SymbolData
  import opened MaskPattern
  import opened Zigzag
  import opened Masking
  import opened Finishing

  // ---------------------------------------------------------------- bits determine bytes

  lemma ByteDetermined(a: bv8, b: bv8)
    requires BitsOfByte(a) == BitsOfByte(b)
    ensures a == b
  {
    var x, y := BitsOfByte(a), BitsOfByte(b);
    assert x[0] == y[0] && x[1] == y[1] && x[2] == y[2] && x[3] == y[3];
    assert x[4] == y[4] && x[5] == y[5] && x[6] == y[6] && x[7] == y[7];
    SameBits(a, b);
  }

  lemma SameBits(a: bv8, b: bv8)
    requires (a & 0x80 != 0) == (b & 0x80 != 0) && (a & 0x40 != 0) == (b & 0x40 != 0)
    requires (a & 0x20 != 0) == (b & 0x20 != 0) && (a & 0x10 != 0) == (b & 0x10 != 0)
    requires (a & 8 != 0) == (b & 8 != 0) && (a & 4 != 0) == (b & 4 != 0)
    requires (a & 2 != 0) == (b & 2 != 0) && (a & 1 != 0) == (b & 1 != 0)
    ensures a == b
  {
  }

  lemma {:induction false} BytesDetermined(s: seq<bv8>, u: seq<bv8>)
    requires Bits(s) == Bits(u)
    ensures s == u
  {
    hide BitsOfByte;
    if s != [] && u != [] {
      var m := |s| - 1;
      assert |s| == |u|;
      assert Bits(s)[..8 * m] == Bits(s[..m]) && Bits(u)[..8 * m] == Bits(u[..m]);
      assert Bits(s)[8 * m..] == BitsOfByte(s[m]) && Bits(u)[8 * m..] == BitsOfByte(u[m]);
      BytesDetermined(s[..m], u[..m]);
      ByteDetermined(s[m], u[m]);
      assert s == s[..m] + [s[m]] && u == u[..m] + [u[m]];
    }
  }

  // ---------------------------------------------------------------- the reader

  /** The symbol m, masked with the given pattern, carries the codewords f. */
  ghost predicate CarriesCodewords(l: Layout, w: nat, mask: seq<bool>, m: seq<bool>, pattern: nat, f: seq<bv8>) {
    && Wide(w) && |m| == w * w && l.Blocks() > 0 && |f| == l.Total()
    && 8 * l.Total() <= CountFree(w, mask, End(w))
    && Read(w, mask, Masked(pattern, w, mask, m), 8 * l.Total()) == Bits(Interleaved(l, f))
  }

  /** The symbol carries the value, in blocks with valid error-correction codewords. */
  ghost predicate Carries(version: nat, l: Layout, w: nat, mask: seq<bool>, m: seq<bool>, pattern: nat, value: seq<bv8>) {
    exists f: seq<bv8> ::
      && CarriesCodewords(l, w, mask, m, pattern, f)
      && BlocksDone(l, f, l.Blocks())
      && l.MaxLength() <= |f| && Decode(version, f[..l.MaxLength()]) == Some(value)
  }

  /** A symbol carries one sequence of codewords. */
  lemma CodewordsDetermined(l: Layout, w: nat, mask: seq<bool>, m: seq<bool>, pattern: nat, f: seq<bv8>, g: seq<bv8>)
    requires CarriesCodewords(l, w, mask, m, pattern, f) && CarriesCodewords(l, w, mask, m, pattern, g)
    ensures f == g
  {
    hide Read, Masked, Interleaved, Bits, CountFree, End;
    BytesDetermined(Interleaved(l, f), Interleaved(l, g));
    InterleavedInjective(l, f, g);
  }

  /** A symbol cannot be read in two ways. */
  lemma ReadingIsUnique(version: nat, l: Layout, w: nat, mask: seq<bool>, m: seq<bool>, pattern: nat, u: seq<bv8>, v: seq<bv8>)
    requires Carries(version, l, w, mask, m, pattern, u) && Carries(version, l, w, mask, m, pattern, v)
    ensures u == v
  {
    hide CarriesCodewords, Decode, BlocksDone, Layout.MaxLength, Layout.Total;
    var f: seq<bv8> :| CarriesCodewords(l, w, mask, m, pattern, f) && BlocksDone(l, f, l.Blocks())
      && l.MaxLength() <= |f| && Decode(version, f[..l.MaxLength()]) == Some(u);
    var g: seq<bv8> :| CarriesCodewords(l, w, mask, m, pattern, g) && BlocksDone(l, g, l.Blocks())
      && l.MaxLength() <= |g| && Decode(version, g[..l.MaxLength()]) == Some(v);
    CodewordsDetermined(l, w, mask, m, pattern, f, g);
  }

  // ---------------------------------------------------------------- masking and format bits do no harm

  /** The two matrices agree outside the function patterns. */
  ghost predicate AgreeOnFree(w: nat, mask: seq<bool>, m: seq<bool>, m': seq<bool>) {
    |m| == |m'| == w * w &&
    forall idx :: 0 <= idx < w * w && !IsMasked(mask, XOf(w, idx), YOf(w, idx)) ==> m[idx] == m'[idx]
  }

  lemma ReadAgrees(w: nat, mask: seq<bool>, m: seq<bool>, m': seq<bool>, n: nat)
    requires Wide(w) && AgreeOnFree(w, mask, m, m') && n <= CountFree(w, mask, End(w))
    ensures Read(w, mask, m, n) == Read(w, mask, m', n)
  {
    hide Receiver, CountFree, XOf, YOf, IndexOf, IsMasked, End;
    forall i: nat | i < n
      ensures Read(w, mask, m, n)[i] == Read(w, mask, m', n)[i]
    {
      ReceiverIsFree(w, mask, i);
    }
  }

  lemma ReceiverIsFree(w: nat, mask: seq<bool>, i: nat)
    requires Wide(w) && i < CountFree(w, mask, End(w))
    ensures var idx := IndexOf(w, Receiver(w, mask, i));
            0 <= idx < w * w && !IsMasked(mask, XOf(w, idx), YOf(w, idx))
  {
    hide Column, Row, CountFree, PlaceOf, PlaceAt, XOf, YOf, End, Rank, RightColumn, IndexOf;
    var p := Receiver(w, mask, i);
    IndexInMatrix(w, p);
    PlaceInMatrix(w, p);
    RankOfModule(w, Column(w, p), Row(w, p));
  }

  /** The modules of the format information belong to the function patterns. */
  ghost predicate FormatReserved(w: nat, mask: seq<bool>) {
    forall j: nat :: j < 15 ==> IsMasked(mask, FirstX(w, j), FirstY(w, j)) && IsMasked(mask, SecondX(j), SecondY(j))
  }

  lemma FormatModuleIsMasked(w: nat, mask: seq<bool>, j: nat, idx: nat)
    requires w >= 21 && j < 15 && FormatReserved(w, mask) && idx < w * w && IsFormatModule(w, j, idx)
    ensures IsMasked(mask, XOf(w, idx), YOf(w, idx))
  {
    hide FirstX, FirstY, SecondX, SecondY, IsMasked;
    FormatInMatrix(w, j);
    Position(w, FirstY(w, j), FirstX(w, j));
    Position(w, SecondY(j), SecondX(j));
    assert FirstX(w, j) + w * FirstY(w, j) == FirstX(w, j) + FirstY(w, j) * w;
    assert SecondX(j) + w * SecondY(j) == SecondX(j) + SecondY(j) * w;
  }

  /** Removing the mask from the finished symbol shows the packed modules again. */
  lemma UnmaskedAgrees(w: nat, mask: seq<bool>, packed: seq<bool>, final: seq<bool>, pattern: nat, word: nat)
    requires w >= 21 && |packed| == w * w && FormatReserved(w, mask)
    requires Formatted(w, word, 15, Masked(pattern, w, mask, packed), final)
    ensures AgreeOnFree(w, mask, packed, Masked(pattern, w, mask, final))
  {
    hide IsMasked, Inverts, IsFormatModule, FormatBit, XOf, YOf;
    forall idx | 0 <= idx < w * w && !IsMasked(mask, XOf(w, idx), YOf(w, idx))
      ensures packed[idx] == Masked(pattern, w, mask, final)[idx]
    {
      if final[idx] != Masked(pattern, w, mask, packed)[idx] {
        var j: nat :| j < 15 && FormatBit(word, j) && IsFormatModule(w, j, idx);
        FormatModuleIsMasked(w, mask, j, idx);
      }
    }
  }

  // ---------------------------------------------------------------- the passes put together

  lemma BlocksInPrefix(l: Layout, s: seq<bv8>, total: nat)
    requires l.Total() == total <= |s| && BlocksDone(l, s, l.Blocks())
    ensures BlocksDone(l, s[..total], l.Blocks())
  {
    hide Layout.Total, Layout.MaxLength;
    forall b: nat | b < l.Blocks()
      ensures BlockDone(l, s[..total], b)
    {
      BlockBounds(l, b);
      BlockInPrefix(l, s, b, total);
    }
  }

  lemma BlockInPrefix(l: Layout, s: seq<bv8>, b: nat, total: nat)
    requires BlockDone(l, s, b) && EccStart(l, b) + l.eccBlock <= total <= |s|
    ensures BlockDone(l, s[..total], b)
  {
    hide DataStart, EccStart, DataLength;
    var f := s[..total];
    var d, n := DataStart(l, b), EccStart(l, b);
    assert f[n..n + l.eccBlock] == s[n..n + l.eccBlock];
    assert f[d..d + DataLength(l, b)] == s[d..d + DataLength(l, b)];
  }

  /** Packing the interleaved codewords, masking and adding format bits carries the codewords. */
  lemma FinishedCarries(l: Layout, w: nat, mask: seq<bool>, blank: seq<bool>, packed: seq<bool>, final: seq<bool>,
                        pattern: nat, word: nat, f: seq<bv8>, bits: seq<bool>)
    requires Wide(w) && l.Blocks() > 0 && |f| == l.Total() && 8 * l.Total() <= CountFree(w, mask, End(w))
    requires FormatReserved(w, mask) && |blank| == w * w && Blank(w, mask, blank)
    requires bits == Bits(Interleaved(l, f)) && Packed(w, mask, bits, blank, packed)
    requires Formatted(w, word, 15, Masked(pattern, w, mask, packed), final)
    ensures CarriesCodewords(l, w, mask, final, pattern, f)
  {
    hide Read, Masked, Interleaved, Bits, CountFree, End, Blank, FormatReserved, Formatted, BitAt, AgreeOnFree;
    BitsOfInterleaved(l, f);
    assert |packed| == w * w;
    ReadPacked(w, mask, bits, blank, packed);
    UnmaskedAgrees(w, mask, packed, final, pattern, word);
    ReadAgrees(w, mask, packed, Masked(pattern, w, mask, final), |bits|);
    FinalSize(w, mask, packed, final, pattern, word);
  }

  lemma BitsOfInterleaved(l: Layout, f: seq<bv8>)
    requires l.Blocks() > 0 && |f| == l.Total()
    ensures |Bits(Interleaved(l, f))| == 8 * l.Total()
  {
  }

  lemma FinalSize(w: nat, mask: seq<bool>, packed: seq<bool>, final: seq<bool>, pattern: nat, word: nat)
    requires w > 0 && Formatted(w, word, 15, Masked(pattern, w, mask, packed), final)
    ensures |final| == |packed|
  {
  }

  /** With the data codewords in place, the symbol carries the value. */
  lemma ValueCarried(version: nat, l: Layout, w: nat, mask: seq<bool>, final: seq<bool>, pattern: nat, f: seq<bv8>, value: seq<bv8>)
    requires Sound(version, l) && CarriesCodewords(l, w, mask, final, pattern, f) && BlocksDone(l, f, l.Blocks())
    requires l.MaxLength() <= |f| && |value| + 3 <= l.MaxLength() + (if version > 9 then 0 else 1)
    requires f[..l.MaxLength()] == Codewords(version, value, l.MaxLength())
    ensures Carries(version, l, w, mask, final, pattern, value)
  {
    hide CarriesCodewords, Decode, Codewords, BlocksDone, Layout.MaxLength, Layout.Total;
    DecodeCodewords(version, value, l.MaxLength());
  }
}
