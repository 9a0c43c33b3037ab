/** Symbols with wrong modules: what the error-correction codewords of all blocks together are for. */
module Correcting {
  import opened Options
  import opened BlockLayout
  import opened Interleaving
  import opened ReedSolomon
  import opened BlockCode
  import opened BitStream
  import opened SymbolData
  import opened Reading
  import opened Finishing
  import opened FormatReading
  import opened InformationWords
  import Drawing

  /** Data and error-correction codewords of block b. */
  ghost function Word(l: Layout, f: seq<bv8>, b: nat): (u: seq<bv8>)
    requires b < l.Blocks() && |f| == l.Total()
    ensures |u| == DataLength(l, b) + l.eccBlock
  {
    BlockBounds(l, b);
    f[DataStart(l, b)..DataStart(l, b) + DataLength(l, b)] + f[EccStart(l, b)..EccStart(l, b) + l.eccBlock]
  }

  /** At most half as many codewords of each block are wrong as it has for error correction. */
  ghost predicate Correctable(l: Layout, f: seq<bv8>, g: seq<bv8>) {
    && |f| == |g| == l.Total()
    && forall b: nat :: b < l.Blocks() ==> 2 * Distance(Word(l, f, b), Word(l, g, b)) <= l.eccBlock
  }

  /** The received symbol m' reads as the sent symbol m with as many wrong codewords. */
  ghost predicate Received(l: Layout, w: nat, mask: seq<bool>, pattern: nat, m: seq<bool>, m': seq<bool>) {
    exists f: seq<bv8>, g: seq<bv8> ::
      CarriesCodewords(l, w, mask, m, pattern, f) && CarriesCodewords(l, w, mask, m', pattern, g) && Correctable(l, f, g)
  }

  lemma WordIsCodeword(l: Layout, f: seq<bv8>, b: nat)
    requires b < l.Blocks() && |f| == l.Total() && BlockDone(l, f, b)
    ensures IsCodeword(Word(l, f, b), l.eccBlock)
  {
    hide IsCodeword, Register, DataStart, EccStart, DataLength;
    BlockBounds(l, b);
    RegisterMakesCodeword(f[DataStart(l, b)..DataStart(l, b) + DataLength(l, b)], l.eccBlock);
  }

  lemma WordsEqual(version: nat, l: Layout, f: seq<bv8>, g: seq<bv8>, r: seq<bv8>, b: nat)
    requires Sound(version, l) && b < l.Blocks() && |f| == |g| == l.Total()
    requires BlockDone(l, f, b) && BlockDone(l, g, b) && Correctable(l, f, r) && Correctable(l, g, r)
    ensures Word(l, f, b) == Word(l, g, b)
  {
    hide IsCodeword, BlockDone, Word, Distance;
    WordIsCodeword(l, f, b);
    WordIsCodeword(l, g, b);
    assert 2 * Distance(Word(l, f, b), Word(l, r, b)) <= l.eccBlock;
    assert 2 * Distance(Word(l, g, b), Word(l, r, b)) <= l.eccBlock;
    ErrorsCorrectable(Word(l, f, b), Word(l, g, b), Word(l, r, b), l.eccBlock);
  }

  /** Equal words of all blocks have equal data. */
  lemma SameData(l: Layout, f: seq<bv8>, g: seq<bv8>, p: nat)
    requires |f| == |g| == l.Total() && p < l.MaxLength() <= l.Total()
    requires forall b: nat :: b < l.Blocks() ==> Word(l, f, b) == Word(l, g, b)
    ensures f[p] == g[p]
  {
    hide DataStart, EccStart, DataLength, Layout.MaxLength, Layout.Total;
    var b, c := DataBlockOf(l, p);
    BlockBounds(l, b);
    assert Word(l, f, b)[c] == f[p] && Word(l, g, b)[c] == g[p];
  }

  lemma DataDetermined(version: nat, l: Layout, f: seq<bv8>, g: seq<bv8>, r: seq<bv8>)
    requires Sound(version, l) && BlocksDone(l, f, l.Blocks()) && BlocksDone(l, g, l.Blocks())
    requires Correctable(l, f, r) && Correctable(l, g, r)
    ensures l.MaxLength() <= |f| == |g| && f[..l.MaxLength()] == g[..l.MaxLength()]
  {
    hide BlockDone, Word, Distance, Layout.MaxLength, Layout.Total;
    Sizes(l);
    forall b: nat | b < l.Blocks()
      ensures Word(l, f, b) == Word(l, g, b)
    {
      WordsEqual(version, l, f, g, r, b);
    }
    forall p: nat | p < l.MaxLength()
      ensures f[p] == g[p]
    {
      SameData(l, f, g, p);
    }
  }

  /** A received symbol in which at most that many codewords of each block are wrong has one possible
      value, whatever the modules. */
  lemma ValueCorrectable(version: nat, l: Layout, w: nat, mask: seq<bool>, pattern: nat, m: seq<bool>, m': seq<bool>,
                         received: seq<bool>, u: seq<bv8>, v: seq<bv8>)
    requires Sound(version, l)
    requires Carries(version, l, w, mask, m, pattern, u) && Received(l, w, mask, pattern, m, received)
    requires Carries(version, l, w, mask, m', pattern, v) && Received(l, w, mask, pattern, m', received)
    ensures u == v
  {
    hide CarriesCodewords, BlocksDone, Correctable, Decode, Layout.MaxLength, Layout.Total, Sound;
    var f: seq<bv8> :| CarriesCodewords(l, w, mask, m, pattern, f) && BlocksDone(l, f, l.Blocks())
      && l.MaxLength() <= |f| && Decode(version, f[..l.MaxLength()]) == Some(u);
    var g: seq<bv8> :| CarriesCodewords(l, w, mask, m', pattern, g) && BlocksDone(l, g, l.Blocks())
      && l.MaxLength() <= |g| && Decode(version, g[..l.MaxLength()]) == Some(v);
    var r := ReceivedFrom(l, w, mask, pattern, m, received, f);
    var r' := ReceivedFrom(l, w, mask, pattern, m', received, g);
    CodewordsDetermined(l, w, mask, received, pattern, r, r');
    DataDetermined(version, l, f, g, r);
  }

  lemma ReceivedFrom(l: Layout, w: nat, mask: seq<bool>, pattern: nat, m: seq<bool>, m': seq<bool>, f: seq<bv8>)
    returns (r: seq<bv8>)
    requires CarriesCodewords(l, w, mask, m, pattern, f) && Received(l, w, mask, pattern, m, m')
    ensures CarriesCodewords(l, w, mask, m', pattern, r) && Correctable(l, f, r)
  {
    hide CarriesCodewords, Correctable;
    var f': seq<bv8>, g: seq<bv8> :| CarriesCodewords(l, w, mask, m, pattern, f')
      && CarriesCodewords(l, w, mask, m', pattern, g) && Correctable(l, f', g);
    CodewordsDetermined(l, w, mask, m, pattern, f, f');
    r := g;
  }

  // ---------------------------------------------------------------- where the codewords of a block are

  lemma WordAt(l: Layout, f: seq<bv8>, b: nat, i: nat)
    requires b < l.Blocks() && |f| == l.Total()
    ensures |Word(l, f, b)| == DataLength(l, b) + l.eccBlock
    ensures i < DataLength(l, b) ==> DataStart(l, b) + i < |f| && Word(l, f, b)[i] == f[DataStart(l, b) + i]
    ensures i < l.eccBlock ==> EccStart(l, b) + i < |f| && Word(l, f, b)[DataLength(l, b) + i] == f[EccStart(l, b) + i]
  {
    hide DataStart, EccStart, DataLength, Layout.Total, Layout.MaxLength;
    BlockBounds(l, b);
  }

  /** The symbol holds the first data codeword of every block, then the second of every block, and so on;
      then the last ones of the longer blocks; then the error-correction codewords in the same way. */
  lemma BlockInSymbol(l: Layout, f: seq<bv8>, b: nat, i: nat)
    requires b < l.Blocks() && |f| == l.Total()
    ensures i < l.dataBlock ==>
              0 <= i * l.Blocks() + b < |f| && i < |Word(l, f, b)|
              && Interleaved(l, f)[i * l.Blocks() + b] == Word(l, f, b)[i]
    ensures b >= l.neccBlock1 ==>
              0 <= l.dataBlock * l.Blocks() + (b - l.neccBlock1) < |f| && l.dataBlock < |Word(l, f, b)|
              && Interleaved(l, f)[l.dataBlock * l.Blocks() + (b - l.neccBlock1)] == Word(l, f, b)[l.dataBlock]
    ensures i < l.eccBlock ==>
              0 <= l.dataBlock * l.Blocks() + l.neccBlock2 + i * l.Blocks() + b < |f| && l.eccBlock <= |Word(l, f, b)|
              && Interleaved(l, f)[l.dataBlock * l.Blocks() + l.neccBlock2 + i * l.Blocks() + b]
                 == Word(l, f, b)[|Word(l, f, b)| - l.eccBlock + i]
  {
    hide DataStart, EccStart, Word, Source;
    WordAt(l, f, b, i);
    WordAt(l, f, b, l.dataBlock);
    if i < l.dataBlock {
      DataSlotSource(l, b, i);
    }
    if b >= l.neccBlock1 {
      DataSlotSource(l, b, l.dataBlock);
    }
    if i < l.eccBlock {
      EccSlotSource(l, b, i);
    }
  }

  /** The blocks take the data codewords in order, the shorter ones first. */
  lemma BlockInData(l: Layout, f: seq<bv8>, b: nat, i: nat)
    requires b < l.Blocks() && |f| == l.Total() && i < l.dataBlock
    ensures b < l.neccBlock1 ==> 0 <= b * l.dataBlock + i < |f| && Word(l, f, b)[i] == f[b * l.dataBlock + i]
    ensures b >= l.neccBlock1 ==>
              0 <= b * l.dataBlock + (b - l.neccBlock1) + i < |f|
              && Word(l, f, b)[i] == f[b * l.dataBlock + (b - l.neccBlock1) + i]
  {
    hide Word, Layout.Total, EccStart;
    WordAt(l, f, b, i);
    if b >= l.neccBlock1 {
      Regrouped(l.neccBlock1, b, l.dataBlock);
    }
  }

  lemma Regrouped(n: nat, b: nat, d: nat)
    requires b >= n
    ensures n * d + (b - n) * (d + 1) == b * d + (b - n)
  {
  }

  // ---------------------------------------------------------------- wrong modules of the format information

  /** The module of a format bit: beside the upper right and lower left finder, or around the upper left one. */
  function FormatModule(w: nat, j: nat, first: bool): (k: int)
    requires w >= 21 && j < 15
    ensures 0 <= k < w * w
  {
    FormatInMatrix(w, j);
    if first then FirstX(w, j) + w * FirstY(w, j) else SecondX(j) + w * SecondY(j)
  }

  /** How many modules from bit j on are wrong. */
  ghost function WrongFormat(w: nat, m: seq<bool>, received: seq<bool>, first: bool, j: nat): nat
    requires w >= 21 && |m| == |received| == w * w && j <= 15
    decreases 15 - j
  {
    if j == 15 then 0
    else One(received[FormatModule(w, j, first)] != m[FormatModule(w, j, first)]) + WrongFormat(w, m, received, first, j + 1)
  }

  /** The format word that is read, from bit j on. */
  function ReadFormat(w: nat, received: seq<bool>, first: bool, j: nat): nat
    requires w >= 21 && |received| == w * w && j <= 15
    decreases 15 - j
  {
    if j == 15 then 0
    else One(received[FormatModule(w, j, first)]) + 2 * ReadFormat(w, received, first, j + 1)
  }

  lemma DifferingMore(b: bool, v: nat, s: nat, n: nat)
    ensures Differing(One(b) + 2 * v, s, n + 1) == One(b != FormatBit(s, 0)) + Differing(v, s / 2, n)
  {
  }

  lemma ShowsBit(w: nat, m: seq<bool>, word: nat, first: bool, j: nat)
    requires w >= 21 && |m| == w * w && j < 15 && ShowsFormat(w, m, word)
    ensures m[FormatModule(w, j, first)] == FormatBit(Drawing.Shifted(word, j), 0)
  {
    hide FormatBit, FirstX, FirstY, SecondX, SecondY;
    assert IsFormatModule(w, j, FormatModule(w, j, first));
    ShiftedBit(word, j);
    LowestBit(Drawing.Shifted(word, j));
  }

  lemma LowestBit(n: nat)
    ensures FormatBit(n, 0) == (n % 2 == 1)
  {
  }

  lemma ReadMore(w: nat, m: seq<bool>, received: seq<bool>, word: nat, first: bool, j: nat)
    requires w >= 21 && |m| == |received| == w * w && j < 15
    ensures var k := FormatModule(w, j, first);
            && ReadFormat(w, received, first, j) == One(received[k]) + 2 * ReadFormat(w, received, first, j + 1)
            && WrongFormat(w, m, received, first, j) == One(received[k] != m[k]) + WrongFormat(w, m, received, first, j + 1)
            && Drawing.Shifted(word, j + 1) == Drawing.Shifted(word, j) / 2
  {
    hide FormatModule, One;
  }

  lemma NothingRead(w: nat, m: seq<bool>, received: seq<bool>, first: bool, word: nat)
    requires w >= 21 && |m| == |received| == w * w
    ensures Differing(ReadFormat(w, received, first, 15), word, 0) == WrongFormat(w, m, received, first, 15)
  {
  }

  /** The word that is read differs from the one shown in as many bits as modules are wrong. */
  lemma {:induction false} WrongBits(w: nat, m: seq<bool>, received: seq<bool>, word: nat, first: bool, j: nat)
    requires w >= 21 && |m| == |received| == w * w && j <= 15 && ShowsFormat(w, m, word)
    ensures Differing(ReadFormat(w, received, first, j), Drawing.Shifted(word, j), 15 - j)
         == WrongFormat(w, m, received, first, j)
    decreases 15 - j
  {
    hide *;
    if j == 15 {
      NothingRead(w, m, received, first, Drawing.Shifted(word, j));
    } else {
      WrongBits(w, m, received, word, first, j + 1);
      ShowsBit(w, m, word, first, j);
      ReadMore(w, m, received, word, first, j);
      DifferingMore(received[FormatModule(w, j, first)], ReadFormat(w, received, first, j + 1),
                    Drawing.Shifted(word, j), 14 - j);
    }
  }

  /** The received symbol can be that of level, pattern and value: a symbol that shows and carries them
      has at most three wrong modules in one copy of the format information, and its blocks are correctable. */
  ghost predicate Explains(version: nat, w: nat, mask: seq<bool>, received: seq<bool>, first: bool,
                           level: nat, pattern: nat, m: seq<bool>, value: seq<bv8>)
    requires 1 <= version <= 40 && w >= 21 && |received| == w * w && 1 <= level <= 4 && pattern < 8
  {
    && |m| == w * w && ShowsFormat(w, m, FinalFormat(level, pattern))
    && Carries(version, LayoutOf(version, level), w, mask, m, pattern, value)
    && WrongFormat(w, m, received, first, 0) <= 3
    && Received(LayoutOf(version, level), w, mask, pattern, m, received)
  }

  lemma ExplainsFormat(version: nat, w: nat, mask: seq<bool>, received: seq<bool>, first: bool,
                       level: nat, pattern: nat, m: seq<bool>, value: seq<bv8>)
    requires 1 <= version <= 40 && w >= 21 && |received| == w * w && 1 <= level <= 4 && pattern < 8
    requires Explains(version, w, mask, received, first, level, pattern, m, value)
    ensures Differing(ReadFormat(w, received, first, 0), FinalFormat(level, pattern), 15) <= 3
  {
    hide ShowsFormat, FinalFormat, Carries, LayoutOf, Received, Differing, ReadFormat, WrongFormat;
    WrongBits(w, m, received, FinalFormat(level, pattern), first, 0);
  }

  /** A received symbol of a version in which at most three modules of one copy of the format information
      and half as many codewords of each block are wrong as it has for error correction has one level,
      one mask pattern and one value. */
  lemma SymbolCorrectable(version: nat, w: nat, mask: seq<bool>, received: seq<bool>, first: bool,
                          level: nat, pattern: nat, m: seq<bool>, u: seq<bv8>,
                          level': nat, pattern': nat, m': seq<bool>, v: seq<bv8>)
    requires 1 <= version <= 40 && w >= 21 && |received| == w * w
    requires 1 <= level <= 4 && pattern < 8 && 1 <= level' <= 4 && pattern' < 8
    requires Explains(version, w, mask, received, first, level, pattern, m, u)
    requires Explains(version, w, mask, received, first, level', pattern', m', v)
    ensures level == level' && pattern == pattern' && u == v
  {
    hide ShowsFormat, FinalFormat, Carries, LayoutOf, Received, Differing, ReadFormat, WrongFormat;
    ExplainsFormat(version, w, mask, received, first, level, pattern, m, u);
    ExplainsFormat(version, w, mask, received, first, level', pattern', m', v);
    FormatCorrectable(ReadFormat(w, received, first, 0), level, pattern, level', pattern');
    ValueCorrectable(version, LayoutOf(version, level), w, mask, pattern, m, m', received, u, v);
  }
}
