/** How the codewords of a symbol are split into blocks and in which order they are placed. */
module BlockLayout {

  /** neccBlock1 blocks of dataBlock data codewords, then neccBlock2 blocks with one more, each
      followed by eccBlock error-correction codewords. */
  datatype Layout = Layout(dataBlock: nat, eccBlock: nat, neccBlock1: nat, neccBlock2: nat) {

    function Blocks(): nat {
      neccBlock1 + neccBlock2
    }

    /** The number of data codewords. */
    function MaxLength(): nat {
      dataBlock * Blocks() + neccBlock2
    }

    /** The number of data and error-correction codewords. */
    function Total(): nat {
      (dataBlock + eccBlock) * Blocks() + neccBlock2
    }
  }

  /** What the encoder relies on: the byte count fits its field, and a block is at most 255 long. */
  predicate Sound(version: nat, l: Layout) {
    && l.neccBlock1 > 0 && l.eccBlock > 0 && l.dataBlock > 0
    && l.dataBlock + 1 + l.eccBlock <= 255
    && 3 < l.MaxLength() <= (if version < 10 then 257 else 4096)
  }

  /** The modules of a symbol that carry codewords: all but the finder, timing, alignment, format
      and version patterns. */
  function DataModules(version: nat): int {
    var patterns := version / 7 + 2;
    (16 * version + 128) * version + 64
    - (if version < 2 then 0 else (25 * patterns - 10) * patterns - 55)
    - (if version < 7 then 0 else 36)
  }

  /** What a correction level stands for: the percentage of all codewords that can be wrong, at least
      and at most, table 8 of ISO/IEC 18004:2015. */
  predicate Share(level: nat, correctable: int, total: int) {
    var least := if level == 1 then 7 else if level == 2 then 15 else if level == 3 then 23 else 30;
    var most := if level == 1 then 15 else if level == 2 then 22 else if level == 3 then 30 else 50;
    least * total <= 100 * correctable < most * total
  }

  /** The codewords that can be corrected, half of those for error correction in each block, are the
      share of the level. Only a block by itself has an odd number of them. */
  predicate Corrects(level: nat, l: Layout) {
    && Share(level, l.Blocks() * (l.eccBlock / 2), l.Total())
    && (l.eccBlock % 2 == 0 || l.Blocks() == 1)
  }

  /** The numbers of a layout that fills the data modules of a version, at a correction level. */
  predicate Fill(version: nat, level: nat, d: nat, e: nat, n1: nat, n2: nat) {
    && n1 > 0 && e > 0 && d > 0 && d + 1 + e <= 255
    && 3 < d * (n1 + n2) + n2 <= (if version < 10 then 257 else 4096)
    && (d + e) * (n1 + n2) + n2 == DataModules(version) / 8
    && Share(level, (n1 + n2) * (e / 2), (d + e) * (n1 + n2) + n2)
    && (e % 2 == 0 || n1 + n2 == 1)
  }

  predicate Fits(version: nat, level: nat, l: Layout) {
    Sound(version, l) && l.Total() == DataModules(version) / 8 && Corrects(level, l)
  }

  /** A layout of a version and level. */
  function Of(version: nat, level: nat, d: nat, e: nat, n1: nat, n2: nat): (l: Layout)
    requires Fill(version, level, d, e, n1, n2)
    ensures Fits(version, level, l)
  {
    Layout(d, e, n1, n2)
  }

  /** The layouts of a version at the correction levels 1 to 4. */
  datatype Levels = Levels(l: Layout, m: Layout, q: Layout, h: Layout) {

    function At(level: nat): Layout {
      if level < 3 then (if level < 2 then l else m) else (if level < 4 then q else h)
    }

    predicate Fit(version: nat) {
      Fits(version, 1, l) && Fits(version, 2, m) && Fits(version, 3, q) && Fits(version, 4, h)
    }
  }

  // The BLOCKS table: one row per version.

  function Versions1To5(version: nat): (r: Levels)
    requires 1 <= version <= 5
    ensures r.Fit(version)
  {
    hide Fits;
    match version
    case 1 => Levels(Of(1, 1, 19, 7, 1, 0), Of(1, 2, 16, 10, 1, 0), Of(1, 3, 13, 13, 1, 0), Of(1, 4, 9, 17, 1, 0))
    case 2 => Levels(Of(2, 1, 34, 10, 1, 0), Of(2, 2, 28, 16, 1, 0), Of(2, 3, 22, 22, 1, 0), Of(2, 4, 16, 28, 1, 0))
    case 3 => Levels(Of(3, 1, 55, 15, 1, 0), Of(3, 2, 44, 26, 1, 0), Of(3, 3, 17, 18, 2, 0), Of(3, 4, 13, 22, 2, 0))
    case 4 => Levels(Of(4, 1, 80, 20, 1, 0), Of(4, 2, 32, 18, 2, 0), Of(4, 3, 24, 26, 2, 0), Of(4, 4, 9, 16, 4, 0))
    case _ => Levels(Of(5, 1, 108, 26, 1, 0), Of(5, 2, 43, 24, 2, 0), Of(5, 3, 15, 18, 2, 2), Of(5, 4, 11, 22, 2, 2))
  }

  function Versions6To10(version: nat): (r: Levels)
    requires 6 <= version <= 10
    ensures r.Fit(version)
  {
    hide Fits;
    match version
    case 6 => Levels(Of(6, 1, 68, 18, 2, 0), Of(6, 2, 27, 16, 4, 0), Of(6, 3, 19, 24, 4, 0), Of(6, 4, 15, 28, 4, 0))
    case 7 => Levels(Of(7, 1, 78, 20, 2, 0), Of(7, 2, 31, 18, 4, 0), Of(7, 3, 14, 18, 2, 4), Of(7, 4, 13, 26, 4, 1))
    case 8 => Levels(Of(8, 1, 97, 24, 2, 0), Of(8, 2, 38, 22, 2, 2), Of(8, 3, 18, 22, 4, 2), Of(8, 4, 14, 26, 4, 2))
    case 9 => Levels(Of(9, 1, 116, 30, 2, 0), Of(9, 2, 36, 22, 3, 2), Of(9, 3, 16, 20, 4, 4), Of(9, 4, 12, 24, 4, 4))
    case _ => Levels(Of(10, 1, 68, 18, 2, 2), Of(10, 2, 43, 26, 4, 1),
                     Of(10, 3, 19, 24, 6, 2), Of(10, 4, 15, 28, 6, 2))
  }

  function Versions11To15(version: nat): (r: Levels)
    requires 11 <= version <= 15
    ensures r.Fit(version)
  {
    hide Fits;
    match version
    case 11 => Levels(Of(11, 1, 81, 20, 4, 0), Of(11, 2, 50, 30, 1, 4),
                      Of(11, 3, 22, 28, 4, 4), Of(11, 4, 12, 24, 3, 8))
    case 12 => Levels(Of(12, 1, 92, 24, 2, 2), Of(12, 2, 36, 22, 6, 2),
                      Of(12, 3, 20, 26, 4, 6), Of(12, 4, 14, 28, 7, 4))
    case 13 => Levels(Of(13, 1, 107, 26, 4, 0), Of(13, 2, 37, 22, 8, 1),
                      Of(13, 3, 20, 24, 8, 4), Of(13, 4, 11, 22, 12, 4))
    case 14 => Levels(Of(14, 1, 115, 30, 3, 1), Of(14, 2, 40, 24, 4, 5),
                      Of(14, 3, 16, 20, 11, 5), Of(14, 4, 12, 24, 11, 5))
    case _ => Levels(Of(15, 1, 87, 22, 5, 1), Of(15, 2, 41, 24, 5, 5),
                      Of(15, 3, 24, 30, 5, 7), Of(15, 4, 12, 24, 11, 7))
  }

  function Versions16To20(version: nat): (r: Levels)
    requires 16 <= version <= 20
    ensures r.Fit(version)
  {
    hide Fits;
    match version
    case 16 => Levels(Of(16, 1, 98, 24, 5, 1), Of(16, 2, 45, 28, 7, 3),
                      Of(16, 3, 19, 24, 15, 2), Of(16, 4, 15, 30, 3, 13))
    case 17 => Levels(Of(17, 1, 107, 28, 1, 5), Of(17, 2, 46, 28, 10, 1),
                      Of(17, 3, 22, 28, 1, 15), Of(17, 4, 14, 28, 2, 17))
    case 18 => Levels(Of(18, 1, 120, 30, 5, 1), Of(18, 2, 43, 26, 9, 4),
                      Of(18, 3, 22, 28, 17, 1), Of(18, 4, 14, 28, 2, 19))
    case 19 => Levels(Of(19, 1, 113, 28, 3, 4), Of(19, 2, 44, 26, 3, 11),
                      Of(19, 3, 21, 26, 17, 4), Of(19, 4, 13, 26, 9, 16))
    case _ => Levels(Of(20, 1, 107, 28, 3, 5), Of(20, 2, 41, 26, 3, 13),
                     Of(20, 3, 24, 30, 15, 5), Of(20, 4, 15, 28, 15, 10))
  }

  function Versions21To25(version: nat): (r: Levels)
    requires 21 <= version <= 25
    ensures r.Fit(version)
  {
    hide Fits;
    match version
    case 21 => Levels(Of(21, 1, 116, 28, 4, 4), Of(21, 2, 42, 26, 17, 0),
                      Of(21, 3, 22, 28, 17, 6), Of(21, 4, 16, 30, 19, 6))
    case 22 => Levels(Of(22, 1, 111, 28, 2, 7), Of(22, 2, 46, 28, 17, 0),
                      Of(22, 3, 24, 30, 7, 16), Of(22, 4, 13, 24, 34, 0))
    case 23 => Levels(Of(23, 1, 121, 30, 4, 5), Of(23, 2, 47, 28, 4, 14),
                      Of(23, 3, 24, 30, 11, 14), Of(23, 4, 15, 30, 16, 14))
    case 24 => Levels(Of(24, 1, 117, 30, 6, 4), Of(24, 2, 45, 28, 6, 14),
                      Of(24, 3, 24, 30, 11, 16), Of(24, 4, 16, 30, 30, 2))
    case _ => Levels(Of(25, 1, 106, 26, 8, 4), Of(25, 2, 47, 28, 8, 13),
                      Of(25, 3, 24, 30, 7, 22), Of(25, 4, 15, 30, 22, 13))
  }

  function Versions26To30(version: nat): (r: Levels)
    requires 26 <= version <= 30
    ensures r.Fit(version)
  {
    hide Fits;
    match version
    case 26 => Levels(Of(26, 1, 114, 28, 10, 2), Of(26, 2, 46, 28, 19, 4),
                      Of(26, 3, 22, 28, 28, 6), Of(26, 4, 16, 30, 33, 4))
    case 27 => Levels(Of(27, 1, 122, 30, 8, 4), Of(27, 2, 45, 28, 22, 3),
                      Of(27, 3, 23, 30, 8, 26), Of(27, 4, 15, 30, 12, 28))
    case 28 => Levels(Of(28, 1, 117, 30, 3, 10), Of(28, 2, 45, 28, 3, 23),
                      Of(28, 3, 24, 30, 4, 31), Of(28, 4, 15, 30, 11, 31))
    case 29 => Levels(Of(29, 1, 116, 30, 7, 7), Of(29, 2, 45, 28, 21, 7),
                      Of(29, 3, 23, 30, 1, 37), Of(29, 4, 15, 30, 19, 26))
    case _ => Levels(Of(30, 1, 115, 30, 5, 10), Of(30, 2, 47, 28, 19, 10),
                     Of(30, 3, 24, 30, 15, 25), Of(30, 4, 15, 30, 23, 25))
  }

  function Versions31To35(version: nat): (r: Levels)
    requires 31 <= version <= 35
    ensures r.Fit(version)
  {
    hide Fits;
    match version
    case 31 => Levels(Of(31, 1, 115, 30, 13, 3), Of(31, 2, 46, 28, 2, 29),
                      Of(31, 3, 24, 30, 42, 1), Of(31, 4, 15, 30, 23, 28))
    case 32 => Levels(Of(32, 1, 115, 30, 17, 0), Of(32, 2, 46, 28, 10, 23),
                      Of(32, 3, 24, 30, 10, 35), Of(32, 4, 15, 30, 19, 35))
    case 33 => Levels(Of(33, 1, 115, 30, 17, 1), Of(33, 2, 46, 28, 14, 21),
                      Of(33, 3, 24, 30, 29, 19), Of(33, 4, 15, 30, 11, 46))
    case 34 => Levels(Of(34, 1, 115, 30, 13, 6), Of(34, 2, 46, 28, 14, 23),
                      Of(34, 3, 24, 30, 44, 7), Of(34, 4, 16, 30, 59, 1))
    case _ => Levels(Of(35, 1, 121, 30, 12, 7), Of(35, 2, 47, 28, 12, 26),
                      Of(35, 3, 24, 30, 39, 14), Of(35, 4, 15, 30, 22, 41))
  }

  function Versions36To40(version: nat): (r: Levels)
    requires 36 <= version <= 40
    ensures r.Fit(version)
  {
    hide Fits;
    match version
    case 36 => Levels(Of(36, 1, 121, 30, 6, 14), Of(36, 2, 47, 28, 6, 34),
                      Of(36, 3, 24, 30, 46, 10), Of(36, 4, 15, 30, 2, 64))
    case 37 => Levels(Of(37, 1, 122, 30, 17, 4), Of(37, 2, 46, 28, 29, 14),
                      Of(37, 3, 24, 30, 49, 10), Of(37, 4, 15, 30, 24, 46))
    case 38 => Levels(Of(38, 1, 122, 30, 4, 18), Of(38, 2, 46, 28, 13, 32),
                      Of(38, 3, 24, 30, 48, 14), Of(38, 4, 15, 30, 42, 32))
    case 39 => Levels(Of(39, 1, 117, 30, 20, 4), Of(39, 2, 47, 28, 40, 7),
                      Of(39, 3, 24, 30, 43, 22), Of(39, 4, 15, 30, 10, 67))
    case _ => Levels(Of(40, 1, 118, 30, 19, 6), Of(40, 2, 47, 28, 18, 31),
                     Of(40, 3, 24, 30, 34, 34), Of(40, 4, 15, 30, 20, 61))
  }

  function LevelsOf(version: nat): (r: Levels)
    requires 1 <= version <= 40
    ensures r.Fit(version)
  {
    hide Levels.Fit;
    if version <= 5 then Versions1To5(version)
    else if version <= 10 then Versions6To10(version)
    else if version <= 15 then Versions11To15(version)
    else if version <= 20 then Versions16To20(version)
    else if version <= 25 then Versions21To25(version)
    else if version <= 30 then Versions26To30(version)
    else if version <= 35 then Versions31To35(version)
    else Versions36To40(version)
  }

  /** The layout of a version and correction level. */
  function LayoutOf(version: nat, level: nat): (l: Layout)
    requires 1 <= version <= 40
    ensures Sound(version, l) && l.Total() == DataModules(version) / 8
    ensures 1 <= level <= 4 ==> Corrects(level, l)
  {
    AtFits(version, LevelsOf(version), level);
    LevelsOf(version).At(level)
  }

  lemma AtFits(version: nat, r: Levels, level: nat)
    requires r.Fit(version)
    ensures Sound(version, r.At(level)) && r.At(level).Total() == DataModules(version) / 8
    ensures 1 <= level <= 4 ==> Corrects(level, r.At(level))
  {
    hide Sound, Corrects, Layout.Total, DataModules;
  }

  /** Of two layouts of one size the one of the higher level has fewer data codewords. */
  lemma FewerData(level: nat, k: Layout, level': nat, l: Layout)
    requires 1 <= level < level' <= 4 && k.Total() == l.Total() && Corrects(level, k) && Corrects(level', l)
    ensures k.MaxLength() > l.MaxLength()
  {
    hide Layout.Total, Layout.MaxLength, Layout.Blocks, Share;
    EccOf(k);
    EccOf(l);
    SharesGrow(level, k.Blocks() * (k.eccBlock / 2), level', l.Blocks() * (l.eccBlock / 2), l.Total());
  }

  lemma SharesGrow(level: nat, c: int, level': nat, c': int, total: nat)
    requires 1 <= level < level' <= 4 && Share(level, c, total) && Share(level', c', total)
    ensures c < c'
  {
  }

  lemma EccOf(l: Layout)
    requires l.eccBlock % 2 == 0 || l.Blocks() == 1
    ensures l.Total() == l.MaxLength() + l.Blocks() * l.eccBlock
    ensures 2 * (l.Blocks() * (l.eccBlock / 2)) <= l.Blocks() * l.eccBlock <= 2 * (l.Blocks() * (l.eccBlock / 2)) + 1
  {
    var b, e := l.Blocks(), l.eccBlock;
    assert e == 2 * (e / 2) + e % 2;
    Doubled(b, e / 2);
  }

  lemma Doubled(b: nat, h: nat)
    ensures b * (2 * h) == 2 * (b * h)
  {
  }

  /** Every level leaves less room for data than the one below it. */
  lemma LevelsFall(version: nat, level: nat, level': nat)
    requires 1 <= version <= 40 && 1 <= level < level' <= 4
    ensures LayoutOf(version, level).MaxLength() > LayoutOf(version, level').MaxLength()
  {
    hide LayoutOf, Layout.Total, Layout.MaxLength, Corrects, DataModules;
    FewerData(level, LayoutOf(version, level), level', LayoutOf(version, level'));
  }
}
