/** What drawing the function patterns leaves behind for packing, masking and formatting. */
module DrawnPatterns {
  import Arithmetic
  import opened BlockLayout
  import opened MaskPattern
  import opened Zigzag
  import opened Drawing
  import opened FunctionPatterns
  import opened Reading
  import opened FormatReading
  import F = Finishing
  import M = ModuleCount
  import P = Packing

  lemma NothingDrawn(w: nat, b: seq<bool>, mask: seq<bool>)
    requires forall k :: 0 <= k < |mask| ==> !mask[k]
    requires forall k :: 0 <= k < |b| ==> !b[k]
    ensures AllClear(w, b, mask)
  {
    hide MaskBit;
  }

  /** Exactly the modules of the patterns are dark, and exactly those reserved are in the mask. */
  ghost predicate AsDrawn(v: nat, b: seq<bool>, mask: seq<bool>) {
    && (forall x, y :: Dark(Width(v), b, x, y) <==> DarkPattern(v, x, y))
    && (forall x: nat, y: nat :: IsMasked(mask, x, y) <==> Reserved(v, x, y))
  }

  lemma JumpReserved(v: nat, b: seq<bool>, mask: seq<bool>)
    requires v >= 1 && AsDrawn(v, b, mask)
    ensures JumpIsSafe(Width(v), mask)
  {
    hide IsMasked, Reserved, Dark, DarkPattern;
    var w := Width(v);
    forall p: Place | InWalk(w, p) && p.step < Zigzag.Entry(w, p.pair)
      ensures IsMasked(mask, Column(w, p), Row(w, p))
    {
      CornersAreReserved(v, Column(w, p), Row(w, p));
    }
  }

  lemma FormatKept(v: nat, b: seq<bool>, mask: seq<bool>)
    requires v >= 1 && AsDrawn(v, b, mask)
    ensures FormatReserved(Width(v), mask)
  {
    hide IsMasked, Reserved, Dark, DarkPattern;
    var w := Width(v);
    forall j: nat | j < 15
      ensures IsMasked(mask, F.FirstX(w, j), F.FirstY(w, j)) && IsMasked(mask, F.SecondX(j), F.SecondY(j))
    {
      FormatIsReserved(v, F.FirstX(w, j), F.FirstY(w, j));
      FormatIsReserved(v, F.SecondX(j), F.SecondY(j));
    }
  }

  lemma FreeIsBlank(v: nat, b: seq<bool>, mask: seq<bool>)
    requires v >= 1 && AsDrawn(v, b, mask) && |b| == Width(v) * Width(v)
    ensures Blank(Width(v), mask, b)
  {
    hide IsMasked, Reserved, DarkPattern, Width;
    var w := Width(v);
    forall idx | 0 <= idx < w * w && !IsMasked(mask, XOf(w, idx), YOf(w, idx))
      ensures !b[idx]
    {
      Arithmetic.Quotient(idx, w, w);
      assert XOf(w, idx) + w * YOf(w, idx) == idx;
      if Dark(w, b, XOf(w, idx), YOf(w, idx)) {
        DarkIsReserved(v, XOf(w, idx), YOf(w, idx));
      }
    }
  }

  lemma CornerIsFree(v: nat, d: nat)
    requires 1 <= v <= 40 && 1 <= d <= 2
    ensures !Reserved(v, Width(v) - d, Width(v) - d)
  {
    hide Reserved;
    var w := Width(v);
    if Reserved(v, w - d, w - d) {
      ReservedInPlace(v, w - d, w - d);
      CornerIsFar(v, w - d);
    }
  }

  lemma CornerIsFar(v: nat, x: int)
    requires 1 <= v <= 40 && x >= Width(v) - 2
    ensures !NearCentre(Centres(v), x, x)
  {
    hide Coordinate, Along;
    if NearCentre(Centres(v), x, x) {
      var p :| p in Centres(v) && -2 <= x - p.0 <= 2 && -2 <= x - p.1 <= 2;
      CentreBelow(v, p);
    }
  }

  lemma CentreBelow(v: nat, p: (int, int))
    requires 1 <= v <= 40 && p in Centres(v)
    ensures p.0 <= Width(v) - 7
  {
    hide Coordinate, Along;
    forall k: nat
      ensures Coordinate(v, k) <= Width(v) - 7
    {
      CoordinateFrom(v, k);
    }
    WidthAtLeast(v);
  }

  lemma ExitClear(v: nat, b: seq<bool>, mask: seq<bool>)
    requires 1 <= v <= 40 && AsDrawn(v, b, mask)
    ensures P.ExitIsClear(Width(v), mask)
  {
    hide Reserved, Dark, DarkPattern;
    var w := Width(v);
    CornerIsFree(v, 2);
    ExitBit(w);
  }

  /** Behind the last module the mask is read outside its triangle, or at the module next to the corner. */
  lemma ExitBit(w: nat)
    requires w >= 21 && w % 2 == 1
    ensures var e := P.Exit(w);
            MaskBit(Column(w, e), Row(w, e)) < 0 || MaskBit(Column(w, e), Row(w, e)) == MaskBit(w - 2, w - 2)
  {
    var e := P.Exit(w);
    assert Column(w, e) == -1;
    Triangle(w - 2);
  }

  /** The centres keep away from the format modules. */
  lemma CentreKeepsAway(v: nat, p: (int, int))
    requires 1 <= v <= 40 && p in Centres(v)
    ensures (p.0 >= 18 && p.1 >= 18) || (p.0 == 6 && 18 <= p.1 <= Width(v) - 19) || (p.1 == 6 && 18 <= p.0 <= Width(v) - 19)
  {
    hide Coordinate, Along;
    forall k: nat | k < Along(v) && v >= 2
      ensures Coordinate(v, k) >= 18 && (k > 0 ==> Coordinate(v, k) <= Width(v) - 19)
    {
      RowInMatrix(v, k);
    }
  }

  lemma NoEyeOnFormat(v: nat, x: int, y: int)
    requires 1 <= v <= 40
    requires (y == 8 && (x <= 8 || x >= Width(v) - 8)) || (x == 8 && (y <= 8 || y >= Width(v) - 8))
    ensures !OnEye(Centres(v), x, y)
  {
    hide Centres;
    if OnEye(Centres(v), x, y) {
      var p :| p in Centres(v) && Eye(x - p.0, y - p.1);
      CentreKeepsAway(v, p);
    }
  }

  /** No pattern darkens a module of the format information. */
  lemma FormatNotDark(v: nat, x: int, y: int)
    requires 1 <= v <= 40
    requires x != 6 && y != 6
    requires (y == 8 && (0 <= x <= 8 || x >= Width(v) - 8)) || (x == 8 && (0 <= y <= 8 || y >= Width(v) - 7))
    ensures !DarkPattern(v, x, y)
  {
    hide OnEye, Centres, VersionBit;
    NoEyeOnFormat(v, x, y);
  }

  lemma FormatIsLight(v: nat, b: seq<bool>, mask: seq<bool>)
    requires 1 <= v <= 40 && AsDrawn(v, b, mask) && |b| == Width(v) * Width(v)
    ensures FormatLight(Width(v), b)
  {
    hide IsMasked, Reserved, DarkPattern, Width;
    var w := Width(v);
    WidthAtLeast(v);
    forall j: nat, k | j < 15 && 0 <= k < |b| && F.IsFormatModule(w, j, k)
      ensures !b[k]
    {
      F.FormatInMatrix(w, j);
      FormatNotDark(v, F.FirstX(w, j), F.FirstY(w, j));
      FormatNotDark(v, F.SecondX(j), F.SecondY(j));
      DarkAt(w, b, F.FirstX(w, j), F.FirstY(w, j));
      DarkAt(w, b, F.SecondX(j), F.SecondY(j));
    }
  }

  lemma PatternsDrawn(v: nat, level: nat, b: seq<bool>, mask: seq<bool>)
    requires 1 <= v <= 40 && |b| == Width(v) * Width(v) && AsDrawn(v, b, mask)
    ensures JumpIsSafe(Width(v), mask) && P.ExitIsClear(Width(v), mask)
    ensures !IsMasked(mask, Width(v) - 1, Width(v) - 1) && FormatReserved(Width(v), mask) && Blank(Width(v), mask, b)
    ensures FormatLight(Width(v), b)
    ensures 8 * LayoutOf(v, level).Total() <= CountFree(Width(v), mask, End(Width(v)))
  {
    hide IsMasked, Reserved, Dark, DarkPattern, JumpIsSafe, P.ExitIsClear, FormatReserved, FormatLight, Blank, CountFree,
         End, LayoutOf, DataModules, Layout.Total;
    JumpReserved(v, b, mask);
    ExitClear(v, b, mask);
    CornerIsFree(v, 1);
    FormatKept(v, b, mask);
    FreeIsBlank(v, b, mask);
    FormatIsLight(v, b, mask);
    M.ModulesLeft(v, mask);
    assert LayoutOf(v, level).Total() == DataModules(v) / 8;
  }

  /** The reserved modules of a finished symbol: dark are those of the patterns and the bits of the word. */
  ghost predicate ShowsPatterns(v: nat, w: nat, m: seq<bool>, word: nat) {
    forall x: nat, y: nat :: x < w && y < w && Reserved(v, x, y) ==>
      (Dark(w, m, x, y) <==> DarkPattern(v, x, y) || FormatDark(w, word, x + w * y))
  }

  lemma IndexBack(w: nat, x: nat, y: nat)
    requires x < w && y < w
    ensures 0 <= x + w * y < w * w && XOf(w, x + w * y) == x && YOf(w, x + w * y) == y
  {
    Drawing.IndexInMatrix(w, x, y);
    Arithmetic.DivMod(y, w, x);
  }

  lemma ReservedModule(w: nat, mask: seq<bool>, word: nat, blank: seq<bool>, final: seq<bool>, x: nat, y: nat)
    requires ReservedKept(w, mask, word, blank, final) && x < w && y < w && IsMasked(mask, x, y)
    ensures Dark(w, final, x, y) <==> Dark(w, blank, x, y) || FormatDark(w, word, x + w * y)
  {
    hide IsMasked, FormatDark, XOf, YOf;
    IndexBack(w, x, y);
    var k := x + w * y;
    assert final[k] <==> blank[k] || FormatDark(w, word, k);
  }

  lemma PatternsRemain(v: nat, blank: seq<bool>, mask: seq<bool>, final: seq<bool>, word: nat)
    requires 1 <= v <= 40 && AsDrawn(v, blank, mask) && ReservedKept(Width(v), mask, word, blank, final)
    ensures ShowsPatterns(v, Width(v), final, word)
  {
    hide IsMasked, Reserved, DarkPattern, Width, FormatDark, Dark, ReservedKept;
    var w := Width(v);
    forall x: nat, y: nat | x < w && y < w && Reserved(v, x, y)
      ensures Dark(w, final, x, y) <==> DarkPattern(v, x, y) || FormatDark(w, word, x + w * y)
    {
      ReservedModule(w, mask, word, blank, final, x, y);
    }
  }

  // ---------------------------------------------------------------- timing and version information

  lemma NotNearVersion(v: nat, x: int, y: int)
    requires 7 <= v <= 40 && (M.Inside(Width(v), (x, y)) && (x, y) in M.VersionCover(Width(v)))
    ensures !NearCentre(Centres(v), x, y)
  {
    hide Centres, NearCentre, M.GridCover, M.CrossCover, Drawing.Along;
    if NearCentre(Centres(v), x, y) {
      M.NearIsCovered(v, x, y);
      M.AlignmentApart(v, (x, y));
      assert false;
    }
  }

  lemma VersionField(v: nat, e: nat)
    requires 7 <= v <= 40 && e < 18
    ensures var x, y := e / 3, Width(v) - 11 + e % 3;
            DarkPattern(v, x, y) == DarkPattern(v, y, x) == Drawing.VersionBit(v, e)
  {
    hide Centres, OnEye, NearCentre, Drawing.VersionBit, Drawing.VersionArea, Drawing.VersionOrder;
    var w := Width(v);
    var x, y := e / 3, w - 11 + e % 3;
    InformationWords.VersionPlaces(w, e);
    NotNearVersion(v, x, y);
    NotNearVersion(v, y, x);
    OnEyeIsNear(Centres(v), x, y);
    OnEyeIsNear(Centres(v), y, x);
    NotMirrored(w, x, y);
  }

  lemma NotMirrored(w: nat, x: int, y: int)
    requires w >= 45 && Drawing.VersionArea(w, x, y)
    ensures !Drawing.VersionArea(w, y, x)
  {
  }

  /** The version information shows the bits of the version word, dark for a set one. */
  lemma VersionShown(v: nat, e: nat)
    requires 7 <= v <= 40 && e < 18
    ensures var x, y := e / 3, Width(v) - 11 + e % 3;
            DarkPattern(v, x, y) == DarkPattern(v, y, x) == F.FormatBit(InformationWords.VersionWord(v), e)
  {
    hide DarkPattern, Drawing.VersionBit, F.FormatBit, InformationWords.VersionWord;
    VersionField(v, e);
    InformationWords.DrawnBit(v, e);
  }

  /** Timing patterns are dark at even places. */
  lemma TimingShown(v: nat, x: nat)
    requires 1 <= v <= 40 && 8 <= x < Width(v) - 8
    ensures x % 2 == 0 ==> DarkPattern(v, x, 6) && DarkPattern(v, 6, x)
    ensures x % 2 == 1 && !NearCentre(Centres(v), x, 6) ==> !DarkPattern(v, x, 6)
    ensures x % 2 == 1 && !NearCentre(Centres(v), 6, x) ==> !DarkPattern(v, 6, x)
  {
    hide Centres, OnEye, NearCentre, Drawing.VersionBit;
    OnEyeIsNear(Centres(v), x, 6);
    OnEyeIsNear(Centres(v), 6, x);
  }
}
