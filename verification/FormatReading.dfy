/** Reading the format information of a finished symbol: it tells level and mask pattern. */
module FormatReading {
  import opened Arithmetic
  import opened BlockLayout
  import opened MaskPattern
  import opened Zigzag
  import opened Finishing
  import opened Reading
  import Drawing
  import InformationWords

  /** Both modules of every format bit are light. */
  ghost predicate FormatLight(w: nat, m: seq<bool>)
    requires w >= 21 && |m| == w * w
  {
    forall j: nat, k :: j < 15 && 0 <= k < |m| && IsFormatModule(w, j, k) ==> !m[k]
  }

  /** Both modules of every format bit show that bit of the word. */
  ghost predicate ShowsFormat(w: nat, m: seq<bool>, word: nat)
    requires w >= 21 && |m| == w * w
  {
    forall j: nat, k :: j < 15 && 0 <= k < |m| && IsFormatModule(w, j, k) ==> m[k] == FormatBit(word, j)
  }

  lemma CoordinatesDiffer(w: nat, i: nat, j: nat)
    requires w >= 21 && i < 15 && j < 15 && i != j
    ensures !(FirstX(w, i) == FirstX(w, j) && FirstY(w, i) == FirstY(w, j))
    ensures !(FirstX(w, i) == SecondX(j) && FirstY(w, i) == SecondY(j))
    ensures !(SecondX(i) == SecondX(j) && SecondY(i) == SecondY(j))
  {
  }

  /** No module carries two bits of the format information. */
  lemma OneBitEach(w: nat, i: nat, j: nat, k: int)
    requires w >= 21 && i < 15 && j < 15 && IsFormatModule(w, i, k) && IsFormatModule(w, j, k)
    ensures i == j
  {
    hide FirstX, FirstY, SecondX, SecondY;
    if i != j {
      CoordinatesDiffer(w, i, j);
      CoordinatesDiffer(w, j, i);
      FormatInMatrix(w, i);
      FormatInMatrix(w, j);
      SameIndex(w, FirstX(w, i), FirstY(w, i), FirstX(w, j), FirstY(w, j));
      SameIndex(w, FirstX(w, i), FirstY(w, i), SecondX(j), SecondY(j));
      SameIndex(w, SecondX(i), SecondY(i), FirstX(w, j), FirstY(w, j));
      SameIndex(w, SecondX(i), SecondY(i), SecondX(j), SecondY(j));
    }
  }

  lemma SameIndex(w: nat, x: int, y: int, x': int, y': int)
    requires 0 <= x < w && 0 <= y < w && 0 <= x' < w && 0 <= y' < w
    ensures x + w * y == x' + w * y' ==> x == x' && y == y'
  {
    Drawing.IndexInjective(w, x, y, x', y');
  }

  lemma NotPacked(w: nat, mask: seq<bool>, bits: seq<bool>, k: nat)
    requires Wide(w) && k < w * w && IsMasked(mask, XOf(w, k), YOf(w, k))
    ensures !BitAt(w, mask, bits, k)
  {
    hide IsMasked, CountFree, PlaceOf, PlaceAt, Column, Row, Rank;
    Quotient(k, w, w);
    var x, y := XOf(w, k), YOf(w, k);
    if x != 6 {
      RankOfModule(w, x, y);
      ModuleHasPlace(w, x, y);
    }
  }

  /** Packing and masking leave reserved modules as they were. */
  lemma ReservedStays(w: nat, mask: seq<bool>, bits: seq<bool>, blank: seq<bool>, packed: seq<bool>, pattern: nat, k: nat)
    requires Wide(w) && Packed(w, mask, bits, blank, packed) && k < w * w
    requires IsMasked(mask, XOf(w, k), YOf(w, k))
    ensures |Masked(pattern, w, mask, packed)| == w * w && Masked(pattern, w, mask, packed)[k] == blank[k]
  {
    hide IsMasked, Inverts, BitAt, Masked;
    NotPacked(w, mask, bits, k);
  }

  /** The finished symbol shows exactly the format word. */
  lemma FormatShown(w: nat, mask: seq<bool>, bits: seq<bool>, blank: seq<bool>, packed: seq<bool>, final: seq<bool>,
                    pattern: nat, word: nat)
    requires Wide(w) && Packed(w, mask, bits, blank, packed) && FormatReserved(w, mask) && FormatLight(w, blank)
    requires Formatted(w, word, 15, Masked(pattern, w, mask, packed), final)
    ensures |final| == w * w && ShowsFormat(w, final, word)
  {
    hide IsMasked, Inverts, IsFormatModule, FormatBit, XOf, YOf, FormatReserved, BitAt, Masked;
    forall j: nat, k | j < 15 && 0 <= k < |final| && IsFormatModule(w, j, k)
      ensures final[k] == FormatBit(word, j)
    {
      FormatModuleIsMasked(w, mask, j, k);
      ReservedStays(w, mask, bits, blank, packed, pattern, k);
      if i: nat :| i < 15 && FormatBit(word, i) && IsFormatModule(w, i, k) {
        OneBitEach(w, i, j, k);
      }
    }
  }

  /** The word darkens a module. */
  ghost predicate FormatDark(w: nat, word: nat, k: int) {
    exists j: nat :: j < 15 && FormatBit(word, j) && IsFormatModule(w, j, k)
  }

  /** Every reserved module is as it was drawn, but for the bits of the word. */
  ghost predicate ReservedKept(w: nat, mask: seq<bool>, word: nat, blank: seq<bool>, final: seq<bool>) {
    && |blank| == |final| == w * w
    && forall k: nat :: k < w * w && IsMasked(mask, XOf(w, k), YOf(w, k)) ==>
         (final[k] <==> blank[k] || FormatDark(w, word, k))
  }

  lemma ReservedIsKept(w: nat, mask: seq<bool>, bits: seq<bool>, blank: seq<bool>, packed: seq<bool>, final: seq<bool>,
                       pattern: nat, word: nat)
    requires Wide(w) && Packed(w, mask, bits, blank, packed)
    requires Formatted(w, word, 15, Masked(pattern, w, mask, packed), final)
    ensures ReservedKept(w, mask, word, blank, final)
  {
    hide IsMasked, IsFormatModule, FormatBit, XOf, YOf, BitAt, Masked;
    forall k: nat | k < w * w && IsMasked(mask, XOf(w, k), YOf(w, k))
      ensures final[k] <==> blank[k] || FormatDark(w, word, k)
    {
      ReservedStays(w, mask, bits, blank, packed, pattern, k);
    }
  }

  // ---------------------------------------------------------------- the word tells level and pattern

  function Power2(k: nat): nat {
    if k == 0 then 1 else 2 * Power2(k - 1)
  }

  lemma {:induction false} BitsTell(u: nat, v: nat, k: nat)
    requires u < Power2(k) && v < Power2(k) && forall j: nat :: j < k ==> FormatBit(u, j) == FormatBit(v, j)
    ensures u == v
    decreases k
  {
    if k > 0 {
      assert FormatBit(u, 0) == FormatBit(v, 0);
      forall j: nat | j < k - 1
        ensures FormatBit(u / 2, j) == FormatBit(v / 2, j)
      {
        assert FormatBit(u, j + 1) == FormatBit(v, j + 1);
      }
      BitsTell(u / 2, v / 2, k - 1);
    }
  }

  lemma {:induction false} WordBelow(i: nat, x: InformationWords.Data)
    requires i <= 15
    ensures InformationWords.Word(InformationWords.Format, i, x) < Power2(15 - i)
    decreases 15 - i
  {
    hide InformationWords.Digit;
    if i < 15 {
      WordBelow(i + 1, x);
      DigitBelow(i, x);
    }
  }

  lemma DigitBelow(i: nat, x: InformationWords.Data)
    ensures InformationWords.Digit(InformationWords.Format, i, x) <= 1
  {
  }

  lemma FormatBelow(level: nat, pattern: nat)
    requires 1 <= level <= 4 && pattern < 8
    ensures FinalFormat(level, pattern) < Power2(15)
  {
    hide FinalFormat, Power2, InformationWords.Word;
    InformationWords.FormatTable(level, pattern);
    WordBelow(0, InformationWords.FormatData(level, pattern));
  }

  /** A symbol shows the format information of one level and pattern only. */
  lemma FormatTells(w: nat, m: seq<bool>, level: nat, pattern: nat, level': nat, pattern': nat)
    requires w >= 21 && |m| == w * w && 1 <= level <= 4 && pattern < 8 && 1 <= level' <= 4 && pattern' < 8
    requires ShowsFormat(w, m, FinalFormat(level, pattern)) && ShowsFormat(w, m, FinalFormat(level', pattern'))
    ensures level == level' && pattern == pattern'
  {
    hide FinalFormat, FormatBit, FirstX, FirstY;
    var u, v := FinalFormat(level, pattern), FinalFormat(level', pattern');
    forall j: nat | j < 15
      ensures FormatBit(u, j) == FormatBit(v, j)
    {
      FormatInMatrix(w, j);
      var k := FirstX(w, j) + w * FirstY(w, j);
      assert IsFormatModule(w, j, k);
    }
    FormatBelow(level, pattern);
    FormatBelow(level', pattern');
    BitsTell(u, v, 15);
    NoDifference(u, 15);
    if level != level' || pattern != pattern' {
      InformationWords.FormatsApart(level, pattern, level', pattern');
    }
  }

  lemma {:induction false} NoDifference(u: nat, n: nat)
    ensures InformationWords.Differing(u, u, n) == 0
  {
    if n > 0 {
      NoDifference(u / 2, n - 1);
    }
  }

  /** A symbol of a version tells level, mask pattern and value by itself. */
  lemma SymbolTells(version: nat, w: nat, mask: seq<bool>, m: seq<bool>, level: nat, pattern: nat, u: seq<bv8>,
                    level': nat, pattern': nat, v: seq<bv8>)
    requires 1 <= version <= 40 && w >= 21 && |m| == w * w
    requires 1 <= level <= 4 && pattern < 8 && 1 <= level' <= 4 && pattern' < 8
    requires ShowsFormat(w, m, FinalFormat(level, pattern)) && ShowsFormat(w, m, FinalFormat(level', pattern'))
    requires Carries(version, LayoutOf(version, level), w, mask, m, pattern, u)
    requires Carries(version, LayoutOf(version, level'), w, mask, m, pattern', v)
    ensures level == level' && pattern == pattern' && u == v
  {
    hide ShowsFormat, FinalFormat, Carries, LayoutOf;
    FormatTells(w, m, level, pattern, level', pattern');
    ReadingIsUnique(version, LayoutOf(version, level), w, mask, m, pattern, u, v);
  }
}
