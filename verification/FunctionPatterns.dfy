/** The function patterns of a symbol drawn one after the other, and what is reserved by them. */
module FunctionPatterns {
  import opened MaskPattern
  import opened Drawing

  // ---------------------------------------------------------------- the modules of all patterns

  predicate FinderAt(dx: int, dy: int) {
    FinderFrame(dx, dy) || FinderCore(dx, dy)
  }

  predicate FinderDark(w: nat, x: int, y: int) {
    FinderAt(x, y) || FinderAt(x, y - (w - 7)) || FinderAt(x - (w - 7), y)
  }

  predicate FinderLight(w: nat, x: int, y: int) {
    FinderRing(x, y) || FinderRing(x, y - (w - 7)) || FinderRing(x - (w - 7), y)
  }

  function VersionCount(v: nat): int {
    if v > 6 then 18 else 0
  }

  /** The dark modules. */
  ghost predicate DarkPattern(v: nat, x: int, y: int) {
    var w := Width(v);
    || FinderDark(w, x, y) || OnEye(Centres(v), x, y) || (x == 8 && y == w - 8)
    || Timing(w, w - 14, false, x, y) || Timing(w, w - 14, false, y, x)
    || VersionModule(w, v, VersionCount(v), false, x, y) || VersionModule(w, v, VersionCount(v), false, y, x)
  }

  /** The light modules, and those kept for the format information, up to mirroring. */
  ghost predicate LightPattern(v: nat, x: int, y: int) {
    var w := Width(v);
    || FinderLight(w, x, y) || OnEyeRing(Centres(v), x, y) || Separator(w, x, y) || FormatArea(w, x, y)
    || Timing(w, w - 14, true, x, y) || VersionModule(w, v, VersionCount(v), true, x, y)
  }

  /** The modules that the mask ends up with. */
  ghost predicate Reserved(v: nat, x: int, y: int) {
    || LightPattern(v, x, y) || LightPattern(v, y, x)
    || (x <= y && DarkPattern(v, x, y)) || (y <= x && DarkPattern(v, y, x))
  }

  ghost predicate AllClear(w: nat, b: seq<bool>, mask: seq<bool>) {
    (forall x, y :: !Dark(w, b, x, y)) && (forall x: nat, y: nat :: !IsMasked(mask, x, y))
  }

  method InsertFinders(b: array<bool>, mask: array<bool>, w: nat)
    requires Sizes(w, b, mask) && w >= 21
    modifies b, mask
    ensures forall x, y :: Dark(w, b[..], x, y) <==> Dark(w, old(b[..]), x, y) || FinderDark(w, x, y)
    ensures forall x: nat, y: nat :: IsMasked(mask[..], x, y) <==>
      IsMasked(old(mask[..]), x, y) || FinderLight(w, x, y) || FinderLight(w, y, x)
  {
    hide Dark, IsMasked, FinderFrame, FinderCore, FinderRing;
    InsertFinder(b, mask, w, 0, 0);
    InsertFinder(b, mask, w, 0, w - 7);
    InsertFinder(b, mask, w, w - 7, 0);
  }

  /** All patterns that come before the reservation of dark modules. */
  ghost predicate Patterned(v: nat, b: seq<bool>, mask: seq<bool>) {
    && (forall x, y :: Dark(Width(v), b, x, y) <==> DarkPattern(v, x, y))
    && (forall x: nat, y: nat :: IsMasked(mask, x, y) <==> LightPattern(v, x, y) || LightPattern(v, y, x))
  }

  method InsertPatterns(b: array<bool>, mask: array<bool>, w: nat, v: nat)
    requires Sizes(w, b, mask) && 1 <= v <= 40 && w == Width(v) && AllClear(w, b[..], mask[..])
    modifies b, mask
    ensures Patterned(v, b[..], mask[..])
  {
    hide Dark, IsMasked, Width, Centres, OnEye, OnEyeRing, FinderDark, FinderLight, Separator, FormatArea, Timing,
         VersionModule;
    WidthAtLeast(v);
    InsertFinders(b, mask, w);
    InsertAlignments(b, mask, w, v);
    SetDark(b, w, 8, w - 8);
    InsertTimingGap(mask, w);
    ReverseMask(mask, w);
    InsertTimingRowAndColumn(b, mask, w);
    InsertVersion(b, mask, w, v);
  }

  /** The whole drawing. */
  method Draw(b: array<bool>, mask: array<bool>, w: nat, v: nat)
    requires Sizes(w, b, mask) && 1 <= v <= 40 && w == Width(v) && AllClear(w, b[..], mask[..])
    modifies b, mask
    ensures forall x, y :: Dark(w, b[..], x, y) <==> DarkPattern(v, x, y)
    ensures forall x: nat, y: nat :: IsMasked(mask[..], x, y) <==> Reserved(v, x, y)
  {
    hide Dark, IsMasked, Width, DarkPattern, LightPattern;
    InsertPatterns(b, mask, w, v);
    SyncMask(b, mask, w);
  }

  // ---------------------------------------------------------------- dark modules are reserved

  lemma CentresMirrored(v: nat, x: int, y: int)
    requires (x, y) in Centres(v)
    ensures (y, x) in Centres(v)
  {
    hide Coordinate, Along;
  }

  lemma EyesMirrored(v: nat, x: int, y: int)
    requires OnEye(Centres(v), x, y)
    ensures OnEye(Centres(v), y, x)
  {
    hide Centres;
    var p :| p in Centres(v) && Eye(x - p.0, y - p.1);
    CentresMirrored(v, p.0, p.1);
    var q := (p.1, p.0);
    assert q in Centres(v) && Eye(y - q.0, x - q.1);
  }

  /** Above the diagonal the dark modules mirror those below it. */
  lemma DarkMirrored(v: nat, x: int, y: int)
    requires v >= 1 && x > y && DarkPattern(v, x, y)
    ensures DarkPattern(v, y, x)
  {
    hide Centres, OnEye, VersionModule;
    if OnEye(Centres(v), x, y) {
      EyesMirrored(v, x, y);
    }
  }

  /** Every dark module is reserved. */
  lemma DarkIsReserved(v: nat, x: int, y: int)
    requires v >= 1 && DarkPattern(v, x, y)
    ensures Reserved(v, x, y)
  {
    hide DarkPattern, LightPattern;
    if x > y {
      DarkMirrored(v, x, y);
    }
  }

  // ---------------------------------------------------------------- nothing else is reserved

  /** The square of an alignment pattern. */
  ghost predicate NearCentre(c: set<(int, int)>, x: int, y: int) {
    exists p :: p in c && -2 <= x - p.0 <= 2 && -2 <= y - p.1 <= 2
  }

  /** The places of function patterns. */
  ghost predicate FunctionModule(v: nat, x: int, y: int) {
    var w := Width(v);
    || (x < 9 && y < 9) || (x >= w - 8 && y < 9) || (x < 9 && y >= w - 8) || x == 6 || y == 6
    || NearCentre(Centres(v), x, y)
    || (v > 6 && (VersionArea(w, x, y) || VersionArea(w, y, x)))
  }

  lemma NearMirrored(v: nat, x: int, y: int)
    requires NearCentre(Centres(v), y, x)
    ensures NearCentre(Centres(v), x, y)
  {
    hide Centres;
    var p :| p in Centres(v) && -2 <= y - p.0 <= 2 && -2 <= x - p.1 <= 2;
    CentresMirrored(v, p.0, p.1);
    var q := (p.1, p.0);
    assert q in Centres(v) && -2 <= x - q.0 <= 2 && -2 <= y - q.1 <= 2;
  }

  lemma FunctionMirrored(v: nat, x: int, y: int)
    requires FunctionModule(v, y, x)
    ensures FunctionModule(v, x, y)
  {
    hide Centres, NearCentre;
    if NearCentre(Centres(v), y, x) {
      NearMirrored(v, x, y);
    }
  }

  lemma OnEyeIsNear(c: set<(int, int)>, x: int, y: int)
    ensures OnEye(c, x, y) || OnEyeRing(c, x, y) ==> NearCentre(c, x, y)
  {
    if OnEye(c, x, y) {
      var p :| p in c && Eye(x - p.0, y - p.1);
      assert p in c && -2 <= x - p.0 <= 2 && -2 <= y - p.1 <= 2;
    }
    if OnEyeRing(c, x, y) {
      var p :| p in c && EyeRing(x - p.0, y - p.1);
      assert p in c && -2 <= x - p.0 <= 2 && -2 <= y - p.1 <= 2;
    }
  }

  lemma DarkInPlace(v: nat, x: int, y: int)
    requires v >= 1 && DarkPattern(v, x, y)
    ensures FunctionModule(v, x, y)
  {
    hide Centres, OnEye, NearCentre, VersionBit;
    OnEyeIsNear(Centres(v), x, y);
  }

  lemma LightInPlace(v: nat, x: int, y: int)
    requires v >= 1 && LightPattern(v, x, y)
    ensures FunctionModule(v, x, y)
  {
    hide Centres, OnEyeRing, NearCentre, VersionBit;
    OnEyeIsNear(Centres(v), x, y);
  }

  /** What is reserved belongs to a function pattern. */
  lemma ReservedInPlace(v: nat, x: int, y: int)
    requires v >= 1 && Reserved(v, x, y)
    ensures FunctionModule(v, x, y)
  {
    hide DarkPattern, LightPattern, FunctionModule;
    if LightPattern(v, x, y) {
      LightInPlace(v, x, y);
    } else if LightPattern(v, y, x) {
      LightInPlace(v, y, x);
      FunctionMirrored(v, x, y);
    } else if x <= y && DarkPattern(v, x, y) {
      DarkInPlace(v, x, y);
    } else {
      DarkInPlace(v, y, x);
      FunctionMirrored(v, x, y);
    }
  }

  // ---------------------------------------------------------------- all of that is reserved

  lemma FormatIsReserved(v: nat, x: int, y: int)
    requires FormatArea(Width(v), x, y) || FormatArea(Width(v), y, x)
    ensures Reserved(v, x, y)
  {
    hide FormatArea, Centres, OnEyeRing, DarkPattern;
  }

  lemma LightIsReserved(v: nat, x: int, y: int)
    requires LightPattern(v, x, y)
    ensures Reserved(v, x, y)
  {
    hide LightPattern, DarkPattern;
  }

  /** A finder and the separators beside it; the finder starts at (a, e). */
  lemma FinderIsReserved(v: nat, x: int, y: int, a: int, e: int)
    requires v >= 1 && 0 <= x - a < 7 && 0 <= y - e < 7
    requires (a, e) == (0, 0) || (a, e) == (0, Width(v) - 7) || (a, e) == (Width(v) - 7, 0)
    ensures Reserved(v, x, y)
  {
    hide Centres, OnEye, OnEyeRing, VersionModule, Reserved, Separator, FormatArea, Timing;
    if FinderAt(x - a, y - e) {
      DarkIsReserved(v, x, y);
    } else {
      assert FinderRing(x - a, y - e);
      LightIsReserved(v, x, y);
    }
  }

  lemma SeparatorIsReserved(v: nat, x: int, y: int)
    requires Separator(Width(v), x, y)
    ensures Reserved(v, x, y)
  {
    hide Separator, Centres, OnEyeRing, DarkPattern;
  }

  lemma DarkModuleIsReserved(v: nat)
    requires v >= 1
    ensures Reserved(v, 8, Width(v) - 8)
  {
    hide Centres, OnEye, OnEyeRing, VersionModule, Reserved;
    DarkIsReserved(v, 8, Width(v) - 8);
  }

  lemma CornersAreReserved(v: nat, x: int, y: int)
    requires v >= 1 && 0 <= x < Width(v) && 0 <= y < Width(v)
    requires (x < 9 && y < 9) || (x >= Width(v) - 8 && y < 9) || (x < 9 && y >= Width(v) - 8)
    ensures Reserved(v, x, y)
  {
    hide Reserved;
    var w := Width(v);
    if FormatArea(w, x, y) {
      FormatIsReserved(v, x, y);
    } else if Separator(w, x, y) {
      SeparatorIsReserved(v, x, y);
    } else if x == 8 {
      DarkModuleIsReserved(v);
    } else {
      FinderIsReserved(v, x, y, if x < 9 then 0 else w - 7, if y < 9 then 0 else w - 7);
    }
  }

  lemma TimingIsReserved(v: nat, x: int, y: int)
    requires v >= 1 && ((y == 6 && 8 <= x < Width(v) - 6) || (x == 6 && 8 <= y < Width(v) - 6))
    ensures Reserved(v, x, y)
  {
    hide Centres, OnEye, OnEyeRing, VersionModule, FinderAt, FinderRing, Separator, FormatArea;
    var w := Width(v);
    assert y == 6 ==> Timing(w, w - 14, false, x, y) || Timing(w, w - 14, true, x, y);
    assert x == 6 ==> Timing(w, w - 14, false, y, x) || Timing(w, w - 14, true, y, x);
    hide Timing;
    if DarkPattern(v, x, y) {
      hide DarkPattern;
      DarkIsReserved(v, x, y);
    }
  }

  lemma VersionIsReserved(v: nat, x: int, y: int)
    requires v > 6 && (VersionArea(Width(v), x, y) || VersionArea(Width(v), y, x))
    ensures Reserved(v, x, y)
  {
    hide Centres, OnEye, OnEyeRing, VersionBit, FinderAt, FinderRing, Separator, FormatArea, Timing;
    var w := Width(v);
    assert VersionArea(w, x, y) ==> VersionModule(w, v, 18, false, x, y) || VersionModule(w, v, 18, true, x, y);
    assert VersionArea(w, y, x) ==> VersionModule(w, v, 18, false, y, x) || VersionModule(w, v, 18, true, y, x);
    hide VersionModule;
    if DarkPattern(v, x, y) {
      hide DarkPattern;
      DarkIsReserved(v, x, y);
    }
  }

  lemma NearIsReserved(v: nat, x: int, y: int)
    requires v >= 1 && NearCentre(Centres(v), x, y)
    ensures Reserved(v, x, y)
  {
    hide Centres, Reserved, FinderAt, FinderRing, Separator, FormatArea, Timing, VersionModule;
    var p :| p in Centres(v) && -2 <= x - p.0 <= 2 && -2 <= y - p.1 <= 2;
    if Eye(x - p.0, y - p.1) {
      assert OnEye(Centres(v), x, y);
      DarkIsReserved(v, x, y);
    } else {
      assert EyeRing(x - p.0, y - p.1);
      assert OnEyeRing(Centres(v), x, y);
      LightIsReserved(v, x, y);
    }
  }

  /** Exactly the places of function patterns are reserved. */
  lemma ReservedIs(v: nat, x: int, y: int)
    requires v >= 1 && 0 <= x < Width(v) && 0 <= y < Width(v)
    ensures Reserved(v, x, y) <==> FunctionModule(v, x, y)
  {
    hide Reserved, NearCentre, Centres, VersionArea;
    var w := Width(v);
    if Reserved(v, x, y) {
      ReservedInPlace(v, x, y);
    }
    if (x < 9 && y < 9) || (x >= w - 8 && y < 9) || (x < 9 && y >= w - 8) {
      CornersAreReserved(v, x, y);
    } else if x == 6 || y == 6 {
      TimingIsReserved(v, x, y);
    } else if NearCentre(Centres(v), x, y) {
      NearIsReserved(v, x, y);
    } else if v > 6 && (VersionArea(w, x, y) || VersionArea(w, y, x)) {
      VersionIsReserved(v, x, y);
    }
  }

  // ---------------------------------------------------------------- what the patterns look like

  function Far(d: int): nat {
    if d < 0 then -d else d
  }

  /** The distance from the centre of a pattern, along row or column. */
  function Ring(dx: int, dy: int): nat {
    if Far(dx) < Far(dy) then Far(dy) else Far(dx)
  }

  /** A finder is dark at distances 0, 1 and 3 of its centre and light at 2; an alignment pattern is dark at
      0 and 2 and light at 1. */
  lemma Rings(dx: int, dy: int)
    ensures FinderAt(3 + dx, 3 + dy) <==> Ring(dx, dy) in {0, 1, 3}
    ensures FinderRing(3 + dx, 3 + dy) <==> Ring(dx, dy) == 2
    ensures Eye(dx, dy) <==> Ring(dx, dy) in {0, 2}
    ensures EyeRing(dx, dy) <==> Ring(dx, dy) == 1
  {
  }
}
