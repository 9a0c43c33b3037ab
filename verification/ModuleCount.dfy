/** Counting the modules left for data: the function patterns leave exactly as many as the block
    table reckons with. */
module ModuleCount {
  import opened MaskPattern
  import opened Zigzag
  import opened Drawing
  import opened FunctionPatterns
  import BlockLayout

  // ---------------------------------------------------------------- free and reserved places

  ghost function Taken(w: nat, mask: seq<bool>, k: nat): set<nat>
    requires k <= End(w)
  {
    set i: nat | i < k && !Free(w, mask, i)
  }

  lemma {:induction false} CountsComplement(w: nat, mask: seq<bool>, k: nat)
    requires k <= End(w)
    ensures CountFree(w, mask, k) + |Taken(w, mask, k)| == k
  {
    hide Free;
    if k > 0 {
      CountsComplement(w, mask, k - 1);
      if Free(w, mask, k - 1) {
        assert Taken(w, mask, k) == Taken(w, mask, k - 1);
      } else {
        assert Taken(w, mask, k) == Taken(w, mask, k - 1) + {k - 1};
      }
    } else {
      assert Taken(w, mask, 0) == {};
    }
  }

  predicate Inside(w: nat, m: (int, int)) {
    0 <= m.0 < w && 0 <= m.1 < w && m.0 != 6
  }

  function PlaceRank(w: nat, m: (int, int)): nat
    requires Wide(w) && Inside(w, m)
  {
    Rank(w, PlaceOf(w, m.0, m.1))
  }

  /** The places of modules. */
  ghost function Ranks(w: nat, ms: set<(int, int)>): set<nat>
    requires Wide(w) && forall m :: m in ms ==> Inside(w, m)
  {
    set m | m in ms :: PlaceRank(w, m)
  }

  lemma PlaceRankInjective(w: nat, m: (int, int), n: (int, int))
    requires Wide(w) && Inside(w, m) && Inside(w, n) && PlaceRank(w, m) == PlaceRank(w, n)
    ensures m == n
  {
    hide Rank, PlaceOf, Column, Row, InWalk;
    ModuleHasPlace(w, m.0, m.1);
    ModuleHasPlace(w, n.0, n.1);
    RankInjective(w, PlaceOf(w, m.0, m.1), PlaceOf(w, n.0, n.1));
  }

  /** Different modules have different places. */
  lemma {:induction false} AsManyRanks(w: nat, ms: set<(int, int)>)
    requires Wide(w) && forall m :: m in ms ==> Inside(w, m)
    ensures |Ranks(w, ms)| == |ms|
    decreases |ms|
  {
    hide PlaceRank, Wide, Inside;
    if ms == {} {
      assert Ranks(w, ms) == {};
    } else {
      var m :| m in ms;
      var rest := ms - {m};
      AsManyRanks(w, rest);
      assert ms == rest + {m};
      assert Ranks(w, ms) == Ranks(w, rest) + {PlaceRank(w, m)};
      if PlaceRank(w, m) in Ranks(w, rest) {
        var n :| n in rest && PlaceRank(w, n) == PlaceRank(w, m);
        PlaceRankInjective(w, m, n);
        assert false;
      }
    }
  }

  lemma Apart<T>(a: set<T>, b: set<T>)
    requires a !! b
    ensures |a + b| == |a| + |b|
  {
  }

  /** The modules of reserved places are exactly these. */
  ghost predicate Covers(w: nat, mask: seq<bool>, ms: set<(int, int)>) {
    && (forall m :: m in ms ==> Inside(w, m))
    && (forall x: nat, y: nat :: x < w && y < w && x != 6 ==> (IsMasked(mask, x, y) <==> (x as int, y as int) in ms))
  }

  lemma TakenInRanks(w: nat, mask: seq<bool>, ms: set<(int, int)>, i: nat)
    requires Wide(w) && Covers(w, mask, ms) && i in Taken(w, mask, End(w))
    ensures i in Ranks(w, ms)
  {
    hide Rank, PlaceOf, Wide, IsMasked, Column, Row, End;
    var p := PlaceAt(w, i);
    PlaceInMatrix(w, p);
    var m := (Column(w, p), Row(w, p));
    assert m in ms && PlaceRank(w, m) == i;
  }

  lemma RankIsTaken(w: nat, mask: seq<bool>, ms: set<(int, int)>, m: (int, int))
    requires Wide(w) && Covers(w, mask, ms) && m in ms
    ensures PlaceRank(w, m) in Taken(w, mask, End(w))
  {
    hide Rank, PlaceOf, Wide, IsMasked, Column, Row, End, PlaceAt;
    RankOfModule(w, m.0, m.1);
    ModuleHasPlace(w, m.0, m.1);
  }

  /** What is not reserved is free. */
  lemma FreeIs(w: nat, mask: seq<bool>, ms: set<(int, int)>)
    requires Wide(w) && Covers(w, mask, ms)
    ensures CountFree(w, mask, End(w)) + |ms| == End(w)
  {
    hide CountFree, Taken, End, Wide, PlaceRank, IsMasked;
    CountsComplement(w, mask, End(w));
    AsManyRanks(w, ms);
    forall i: nat
      ensures i in Taken(w, mask, End(w)) <==> i in Ranks(w, ms)
    {
      if i in Taken(w, mask, End(w)) {
        TakenInRanks(w, mask, ms, i);
      }
      if i in Ranks(w, ms) {
        var m :| m in ms && PlaceRank(w, m) == i;
        RankIsTaken(w, mask, ms, m);
      }
    }
    assert Taken(w, mask, End(w)) == Ranks(w, ms);
  }

  // ---------------------------------------------------------------- rectangles

  ghost function Column1(x: int, y0: int, y1: int): set<(int, int)> {
    set y | y0 <= y < y1 :: (x, y)
  }

  ghost function Rect(x0: int, x1: int, y0: int, y1: int): set<(int, int)> {
    set x, y | x0 <= x < x1 && y0 <= y < y1 :: (x, y)
  }

  lemma ColumnMore(x: int, y0: int, y1: int)
    requires y0 < y1
    ensures Column1(x, y0, y1) == Column1(x, y0, y1 - 1) + {(x, y1 - 1)} && (x, y1 - 1) !in Column1(x, y0, y1 - 1)
  {
  }

  lemma {:induction false} ColumnSize(x: int, y0: int, y1: int)
    requires y0 <= y1
    ensures |Column1(x, y0, y1)| == y1 - y0
    decreases y1 - y0
  {
    hide Column1;
    if y0 == y1 {
      NoColumn(x, y0);
    } else {
      ColumnSize(x, y0, y1 - 1);
      ColumnMore(x, y0, y1);
    }
  }

  lemma NoColumn(x: int, y: int)
    ensures Column1(x, y, y) == {} && forall z :: Rect(x, x, y, z) == {}
  {
  }

  lemma RectMore(x0: int, x1: int, y0: int, y1: int)
    requires x0 < x1
    ensures Rect(x0, x1, y0, y1) == Rect(x0, x1 - 1, y0, y1) + Column1(x1 - 1, y0, y1)
    ensures Rect(x0, x1 - 1, y0, y1) !! Column1(x1 - 1, y0, y1)
  {
  }

  lemma {:induction false} RectSize(x0: int, x1: int, y0: int, y1: int)
    requires x0 <= x1 && y0 <= y1
    ensures |Rect(x0, x1, y0, y1)| == (x1 - x0) * (y1 - y0)
    decreases x1 - x0
  {
    hide Rect, Column1;
    if x0 == x1 {
      NoColumn(x0, y0);
    } else {
      RectSize(x0, x1 - 1, y0, y1);
      ColumnSize(x1 - 1, y0, y1);
      RectMore(x0, x1, y0, y1);
      Apart(Rect(x0, x1 - 1, y0, y1), Column1(x1 - 1, y0, y1));
      OneColumn(x0, x1, y1 - y0);
    }
  }

  lemma OneColumn(x0: int, x1: int, h: int)
    ensures (x1 - 1 - x0) * h + h == (x1 - x0) * h
  {
  }

  // ---------------------------------------------------------------- a cover of the function patterns

  ghost function UpperCover(w: nat): set<(int, int)> {
    Rect(0, 6, 0, 9) + Rect(7, 9, 0, 9) + Rect(w - 8, w, 0, 9)
  }

  ghost function LowerCover(w: nat): set<(int, int)> {
    Rect(0, 6, w - 8, w) + Rect(7, 9, w - 8, w) + Rect(9, w - 8, 6, 7)
  }

  ghost function FinderCover(w: nat): set<(int, int)> {
    UpperCover(w) + LowerCover(w)
  }

  ghost function VersionCover(w: nat): set<(int, int)> {
    Rect(0, 6, w - 11, w - 8) + Rect(w - 11, w - 8, 0, 6)
  }

  ghost function SquareAt(x: int, y: int): set<(int, int)> {
    Rect(x - 2, x + 3, y - 2, y + 3)
  }

  ghost function RowCover(v: nat, r: int, j: nat): set<(int, int)> {
    if j == 0 then {} else RowCover(v, r, j - 1) + SquareAt(Coordinate(v, j - 1), Coordinate(v, r))
  }

  ghost function GridCover(v: nat, r: nat): set<(int, int)> {
    if r == 0 then {} else GridCover(v, r - 1) + RowCover(v, r - 1, Along(v))
  }

  /** The patterns on column 6 and row 6, without their modules there. */
  ghost function SidesAt(c: int): set<(int, int)> {
    Rect(4, 6, c - 2, c + 3) + Rect(7, 9, c - 2, c + 3) + Rect(c - 2, c + 3, 4, 6) + Rect(c - 2, c + 3, 7, 9)
  }

  ghost function CrossCover(v: nat, r: nat): set<(int, int)> {
    if r <= 1 then {} else CrossCover(v, r - 1) + SidesAt(Coordinate(v, r - 1))
  }

  ghost function Cover(v: nat): set<(int, int)> {
    FinderCover(Width(v))
    + (if v > 6 then VersionCover(Width(v)) else {})
    + (if v < 2 then {} else GridCover(v, Along(v)) + CrossCover(v, Along(v)))
  }

  lemma RectIs(x0: int, x1: int, y0: int, y1: int, size: int)
    requires x0 <= x1 && y0 <= y1 && (x1 - x0) * (y1 - y0) == size
    ensures |Rect(x0, x1, y0, y1)| == size
  {
    hide Rect;
    RectSize(x0, x1, y0, y1);
  }

  lemma UpperCoverSize(w: nat)
    requires w >= 21
    ensures |UpperCover(w)| == 144
  {
    var a, b, c := Rect(0, 6, 0, 9), Rect(7, 9, 0, 9), Rect(w - 8, w, 0, 9);
    RectIs(0, 6, 0, 9, 54);
    RectIs(7, 9, 0, 9, 18);
    RectIs(w - 8, w, 0, 9, 72);
    Apart(a, b);
    Apart(a + b, c);
  }

  lemma LowerCoverSize(w: nat)
    requires w >= 21
    ensures |LowerCover(w)| == 47 + w
  {
    var a, b, c := Rect(0, 6, w - 8, w), Rect(7, 9, w - 8, w), Rect(9, w - 8, 6, 7);
    RectIs(0, 6, w - 8, w, 48);
    RectIs(7, 9, w - 8, w, 16);
    RectIs(9, w - 8, 6, 7, w - 17);
    Apart(a, b);
    Apart(a + b, c);
  }

  lemma FinderCoverSize(w: nat)
    requires w >= 21
    ensures |FinderCover(w)| == 191 + w
  {
    hide UpperCover, LowerCover;
    UpperCoverSize(w);
    LowerCoverSize(w);
    var a, b := UpperCover(w), LowerCover(w);
    forall m | m in a
      ensures m !in b
    {
      UpperApart(w, m);
    }
    Apart(a, b);
  }

  lemma UpperApart(w: nat, m: (int, int))
    requires w >= 21 && m in UpperCover(w)
    ensures m !in LowerCover(w)
  {
  }

  lemma VersionCoverSize(w: nat)
    requires w >= 21
    ensures |VersionCover(w)| == 36
  {
    RectIs(0, 6, w - 11, w - 8, 18);
    RectIs(w - 11, w - 8, 0, 6, 18);
    Apart(Rect(0, 6, w - 11, w - 8), Rect(w - 11, w - 8, 0, 6));
  }

  // Coordinates decrease by the spacing, so patterns do not touch.

  lemma Steps(v: nat, j: nat, k: nat)
    requires 2 <= v <= 40 && j < k < Along(v)
    ensures Coordinate(v, j) >= Coordinate(v, k) + 12
    ensures Coordinate(v, k) >= 18 && Coordinate(v, j) <= Width(v) - 7
  {
    hide Spacing, Width, Along, Coordinate;
    SpacingFits(v);
    CoordinateAbove(v, j, k);
    CoordinateAbove(v, k, Along(v) - 1);
  }

  lemma Between(v: nat, k: nat)
    requires 2 <= v <= 40 && k < Along(v)
    ensures 18 <= Coordinate(v, k) <= Width(v) - 7
  {
    hide Spacing, Width, Along, Coordinate;
    SpacingFits(v);
    CoordinateAbove(v, k, Along(v) - 1);
  }

  lemma {:induction false} OfRow(v: nat, r: int, j: nat, m: (int, int))
    requires m in RowCover(v, r, j)
    ensures exists k: nat :: k < j && -2 <= m.0 - Coordinate(v, k) <= 2 && -2 <= m.1 - Coordinate(v, r) <= 2
  {
    hide Coordinate;
    if m in RowCover(v, r, j - 1) {
      OfRow(v, r, j - 1, m);
    } else {
      assert -2 <= m.0 - Coordinate(v, j - 1) <= 2;
    }
  }

  lemma SquaresApart(v: nat, r: int, j: nat, m: (int, int))
    requires 2 <= v <= 40 && j < Along(v) && m in RowCover(v, r, j)
    ensures m !in SquareAt(Coordinate(v, j), Coordinate(v, r))
  {
    hide Coordinate, Along, RowCover;
    OfRow(v, r, j, m);
    var k: nat :| k < j && -2 <= m.0 - Coordinate(v, k) <= 2;
    Steps(v, k, j);
  }

  lemma {:induction false} RowCoverSize(v: nat, r: int, j: nat)
    requires 2 <= v <= 40 && j <= Along(v)
    ensures |RowCover(v, r, j)| == 25 * j
  {
    hide Coordinate, Along, Rect;
    if j > 0 {
      var x, y := Coordinate(v, j - 1), Coordinate(v, r);
      RowCoverSize(v, r, j - 1);
      RectIs(x - 2, x + 3, y - 2, y + 3, 25);
      var h, n := RowCover(v, r, j - 1), SquareAt(x, y);
      forall m | m in h
        ensures m !in n
      {
        SquaresApart(v, r, j - 1, m);
      }
      Apart(h, n);
    }
  }

  lemma {:induction false} OfGrid(v: nat, r: nat, m: (int, int))
    requires m in GridCover(v, r)
    ensures exists k: nat, i: nat ::
              k < Along(v) && i < r && -2 <= m.0 - Coordinate(v, k) <= 2 && -2 <= m.1 - Coordinate(v, i) <= 2
  {
    hide Coordinate, RowCover, Along;
    if m in GridCover(v, r - 1) {
      OfGrid(v, r - 1, m);
    } else {
      OfRow(v, r - 1, Along(v), m);
    }
  }

  lemma RowsApart(v: nat, r: nat, m: (int, int))
    requires 2 <= v <= 40 && r < Along(v) && m in RowCover(v, r, Along(v))
    ensures m !in GridCover(v, r)
  {
    hide Along, RowCover, Coordinate, GridCover;
    OfRow(v, r, Along(v), m);
    if m in GridCover(v, r) {
      OfGrid(v, r, m);
      var i: nat :| i < r && -2 <= m.1 - Coordinate(v, i) <= 2;
      Steps(v, i, r);
      assert false;
    }
  }

  lemma GridMore(v: nat, r: nat)
    requires 2 <= v <= 40 && 0 < r <= Along(v)
    ensures |GridCover(v, r)| == |GridCover(v, r - 1)| + 25 * Along(v)
  {
    hide Along, RowCover, Coordinate;
    RowCoverSize(v, r - 1, Along(v));
    var g, n := GridCover(v, r - 1), RowCover(v, r - 1, Along(v));
    forall m | m in g
      ensures m !in n
    {
      if m in n {
        RowsApart(v, r - 1, m);
        assert false;
      }
    }
    Apart(g, n);
  }

  lemma {:induction false} GridCoverSize(v: nat, r: nat)
    requires 2 <= v <= 40 && r <= Along(v)
    ensures |GridCover(v, r)| == 25 * Along(v) * r
  {
    hide Along, GridCover;
    if r == 0 {
      NoGrid(v);
    } else {
      GridCoverSize(v, r - 1);
      GridMore(v, r);
      OneRow(25 * Along(v), r);
    }
  }

  lemma NoGrid(v: nat)
    ensures GridCover(v, 0) == {}
  {
  }

  lemma OneRow(a: nat, r: nat)
    requires r > 0
    ensures a * (r - 1) + a == a * r
  {
  }

  lemma SidesSize(c: int)
    requires c >= 18
    ensures |SidesAt(c)| == 40
  {
    var a, b, d, e := Rect(4, 6, c - 2, c + 3), Rect(7, 9, c - 2, c + 3), Rect(c - 2, c + 3, 4, 6), Rect(c - 2, c + 3, 7, 9);
    RectIs(4, 6, c - 2, c + 3, 10);
    RectIs(7, 9, c - 2, c + 3, 10);
    RectIs(c - 2, c + 3, 4, 6, 10);
    RectIs(c - 2, c + 3, 7, 9, 10);
    Apart(a, b);
    Apart(a + b, d);
    Apart(a + b + d, e);
  }

  /** Beside column 6 or row 6, near a coordinate. */
  predicate BesideSix(c: int, m: (int, int)) {
    || (4 <= m.0 < 9 && m.0 != 6 && -2 <= m.1 - c <= 2)
    || (4 <= m.1 < 9 && m.1 != 6 && -2 <= m.0 - c <= 2)
  }

  lemma InSides(c: int, m: (int, int))
    ensures m in SidesAt(c) <==> BesideSix(c, m)
  {
  }

  lemma {:induction false} OfCross(v: nat, r: nat, m: (int, int))
    requires m in CrossCover(v, r)
    ensures exists k: nat :: 1 <= k < r && BesideSix(Coordinate(v, k), m)
  {
    hide Coordinate, SidesAt, BesideSix;
    if m in CrossCover(v, r - 1) {
      OfCross(v, r - 1, m);
    } else {
      InSides(Coordinate(v, r - 1), m);
    }
  }

  lemma SidesApart(v: nat, r: nat, m: (int, int))
    requires 2 <= v <= 40 && r < Along(v) && m in CrossCover(v, r)
    ensures m !in SidesAt(Coordinate(v, r))
  {
    hide SidesAt, Coordinate, Along, CrossCover;
    OfCross(v, r, m);
    var k: nat :| 1 <= k < r && BesideSix(Coordinate(v, k), m);
    Steps(v, k, r);
    Between(v, k);
    InSides(Coordinate(v, r), m);
  }

  lemma {:induction false} CrossCoverSize(v: nat, r: nat)
    requires 2 <= v <= 40 && 1 <= r <= Along(v)
    ensures |CrossCover(v, r)| == 40 * (r - 1)
  {
    hide SidesAt, Coordinate, Along;
    if r > 1 {
      CrossCoverSize(v, r - 1);
      Between(v, r - 1);
      SidesSize(Coordinate(v, r - 1));
      var h, n := CrossCover(v, r - 1), SidesAt(Coordinate(v, r - 1));
      forall m | m in h
        ensures m !in n
      {
        SidesApart(v, r - 1, m);
      }
      Apart(h, n);
    }
  }

  /** The modules that the cover takes. */
  function Patterns(v: nat): nat {
    191 + Width(v) + (if v > 6 then 36 else 0) + (if v < 2 then 0 else 25 * Along(v) * Along(v) + 40 * (Along(v) - 1))
  }

  lemma GridIsFar(v: nat, m: (int, int))
    requires 2 <= v <= 40 && m in GridCover(v, Along(v))
    ensures 16 <= m.0 < Width(v) - 4 && 16 <= m.1 < Width(v) - 4
  {
    hide Along, Coordinate, GridCover, Width;
    OfGrid(v, Along(v), m);
    var k: nat, i: nat :|
      k < Along(v) && i < Along(v) && -2 <= m.0 - Coordinate(v, k) <= 2 && -2 <= m.1 - Coordinate(v, i) <= 2;
    Between(v, k);
    Between(v, i);
  }

  lemma CrossIsBetween(v: nat, m: (int, int))
    requires 2 <= v <= 40 && m in CrossCover(v, Along(v))
    ensures (4 <= m.0 < 9 && m.0 != 6 && 16 <= m.1 < Width(v) - 16) || (4 <= m.1 < 9 && m.1 != 6 && 16 <= m.0 < Width(v) - 16)
  {
    hide Along, Coordinate, CrossCover, Width;
    OfCross(v, Along(v), m);
    var k: nat :| 1 <= k < Along(v) && BesideSix(Coordinate(v, k), m);
    Between(v, k);
    Steps(v, 0, k);
  }

  lemma AlignmentSize(v: nat)
    requires 2 <= v <= 40
    ensures |GridCover(v, Along(v)) + CrossCover(v, Along(v))| == 25 * Along(v) * Along(v) + 40 * (Along(v) - 1)
  {
    hide GridCover, CrossCover, Width;
    var k := Along(v);
    GridCoverSize(v, k);
    CrossCoverSize(v, k);
    forall m | m in GridCover(v, k)
      ensures m !in CrossCover(v, k)
    {
      GridIsFar(v, m);
      if m in CrossCover(v, k) {
        CrossIsBetween(v, m);
        assert false;
      }
    }
    Apart(GridCover(v, k), CrossCover(v, k));
  }

  /** Alignment patterns touch neither the finders, nor the timing patterns outside column 6 and row 6,
      nor the version information. */
  lemma AlignmentApart(v: nat, m: (int, int))
    requires 2 <= v <= 40 && m in GridCover(v, Along(v)) + CrossCover(v, Along(v))
    ensures m !in FinderCover(Width(v)) && m !in VersionCover(Width(v)) && Inside(Width(v), m)
  {
    hide GridCover, CrossCover;
    if m in GridCover(v, Along(v)) {
      GridIsFar(v, m);
    } else {
      CrossIsBetween(v, m);
    }
  }

  lemma VersionApart(w: nat, m: (int, int))
    requires w >= 45 && m in VersionCover(w)
    ensures m !in FinderCover(w) && Inside(w, m)
  {
  }

  lemma FinderInside(w: nat, m: (int, int))
    requires w >= 21 && m in FinderCover(w)
    ensures Inside(w, m)
  {
  }

  lemma CoverSize(v: nat)
    requires 1 <= v <= 40
    ensures |Cover(v)| == Patterns(v)
  {
    hide FinderCover, VersionCover, GridCover, CrossCover, Along;
    var w, k := Width(v), Along(v);
    FinderCoverSize(w);
    VersionCoverSize(w);
    var a := FinderCover(w);
    var b := if v > 6 then VersionCover(w) else {};
    var c := if v < 2 then {} else GridCover(v, k) + CrossCover(v, k);
    if v > 6 {
      forall m | m in b
        ensures m !in a
      {
        VersionApart(w, m);
      }
    }
    if v >= 2 {
      AlignmentSize(v);
      forall m | m in c
        ensures m !in a + b
      {
        AlignmentApart(v, m);
      }
    }
    Apart(a, b);
    Apart(a + b, c);
  }

  // ---------------------------------------------------------------- it is a cover

  lemma {:induction false} InRowCover(v: nat, r: int, j: nat, k: nat, x: int, y: int)
    requires k < j && -2 <= x - Coordinate(v, k) <= 2 && -2 <= y - Coordinate(v, r) <= 2
    ensures (x, y) in RowCover(v, r, j)
    decreases j
  {
    hide Coordinate;
    if k < j - 1 {
      InRowCover(v, r, j - 1, k, x, y);
    }
  }

  lemma {:induction false} InGridCover(v: nat, r: nat, k: nat, i: nat, x: int, y: int)
    requires i < r && k < Along(v) && -2 <= x - Coordinate(v, k) <= 2 && -2 <= y - Coordinate(v, i) <= 2
    ensures (x, y) in GridCover(v, r)
    decreases r
  {
    hide Coordinate, RowCover, Along;
    if i < r - 1 {
      InGridCover(v, r - 1, k, i, x, y);
    } else {
      InRowCover(v, i, Along(v), k, x, y);
    }
  }

  lemma {:induction false} InCrossCover(v: nat, r: nat, k: nat, x: int, y: int)
    requires 1 <= k < r && (x, y) in SidesAt(Coordinate(v, k))
    ensures (x, y) in CrossCover(v, r)
    decreases r
  {
    hide Coordinate, SidesAt;
    if k < r - 1 {
      InCrossCover(v, r - 1, k, x, y);
    }
  }

  lemma NearSix(c: int, x: int, y: int)
    requires x != 6 && y != 6
    requires (-2 <= x - 6 <= 2 && -2 <= y - c <= 2) || (-2 <= x - c <= 2 && -2 <= y - 6 <= 2)
    ensures (x, y) in SidesAt(c)
  {
    hide SidesAt;
    InSides(c, (x, y));
  }

  lemma NearIsCovered(v: nat, x: int, y: int)
    requires v >= 2 && x != 6 && y != 6 && NearCentre(Centres(v), x, y)
    ensures (x, y) in GridCover(v, Along(v)) + CrossCover(v, Along(v))
  {
    hide Coordinate, Along, GridCover, CrossCover, SidesAt, BesideSix;
    var p :| p in Centres(v) && -2 <= x - p.0 <= 2 && -2 <= y - p.1 <= 2;
    if p in Grid(v, Along(v)) {
      var j, k :| 0 <= j < Along(v) && 0 <= k < Along(v) && p == (Coordinate(v, j), Coordinate(v, k));
      InGridCover(v, Along(v), j, k, x, y);
    } else if k :| 1 <= k < Along(v) && p == (6, Coordinate(v, k)) {
      NearSix(Coordinate(v, k), x, y);
      InCrossCover(v, Along(v), k, x, y);
    } else {
      var k :| 1 <= k < Along(v) && p == (Coordinate(v, k), 6);
      NearSix(Coordinate(v, k), x, y);
      InCrossCover(v, Along(v), k, x, y);
    }
  }

  lemma FunctionIsCovered(v: nat, x: int, y: int)
    requires v >= 1 && FunctionModule(v, x, y) && 0 <= x < Width(v) && 0 <= y < Width(v) && x != 6
    ensures (x, y) in Cover(v)
  {
    hide GridCover, CrossCover, NearCentre, Centres, Along;
    var w := Width(v);
    if y == 6 || (x < 9 && y < 9) || (x >= w - 8 && y < 9) || (x < 9 && y >= w - 8) {
      assert (x, y) in FinderCover(w);
    } else if NearCentre(Centres(v), x, y) {
      if v < 2 {
        NoCentres(v, x, y);
      } else {
        NearIsCovered(v, x, y);
      }
    } else {
      assert (x, y) in VersionCover(w);
    }
  }

  lemma NoCentres(v: nat, x: int, y: int)
    requires v < 2
    ensures !NearCentre(Centres(v), x, y)
  {
  }

  lemma AreCentres(v: nat, j: nat, k: nat)
    requires v >= 2 && j < Along(v) && k < Along(v)
    ensures (Coordinate(v, j), Coordinate(v, k)) in Centres(v)
    ensures k >= 1 ==> (6, Coordinate(v, k)) in Centres(v) && (Coordinate(v, k), 6) in Centres(v)
  {
    hide Coordinate, Along;
  }

  lemma GridIsNear(v: nat, x: int, y: int)
    requires 2 <= v <= 40 && (x, y) in GridCover(v, Along(v))
    ensures NearCentre(Centres(v), x, y)
  {
    hide Coordinate, Along, GridCover, Centres;
    var r := Along(v);
    OfGrid(v, r, (x, y));
    var k: nat, i: nat :| k < r && i < r && -2 <= x - Coordinate(v, k) <= 2 && -2 <= y - Coordinate(v, i) <= 2;
    AreCentres(v, k, i);
    var p := (Coordinate(v, k), Coordinate(v, i));
    assert p in Centres(v) && -2 <= x - p.0 <= 2 && -2 <= y - p.1 <= 2;
  }

  lemma CrossIsNear(v: nat, x: int, y: int)
    requires 2 <= v <= 40 && (x, y) in CrossCover(v, Along(v))
    ensures NearCentre(Centres(v), x, y)
  {
    hide Coordinate, Along, CrossCover, Centres;
    OfCross(v, Along(v), (x, y));
    var k: nat :| 1 <= k < Along(v) && BesideSix(Coordinate(v, k), (x, y));
    AreCentres(v, k, k);
    var p := if -2 <= x - 6 <= 2 && -2 <= y - Coordinate(v, k) <= 2 then (6, Coordinate(v, k)) else (Coordinate(v, k), 6);
    assert p in Centres(v) && -2 <= x - p.0 <= 2 && -2 <= y - p.1 <= 2;
  }

  lemma CoverIsFunction(v: nat, x: int, y: int)
    requires 1 <= v <= 40 && (x, y) in Cover(v)
    ensures FunctionModule(v, x, y) && Inside(Width(v), (x, y))
  {
    hide GridCover, CrossCover, NearCentre, Centres, Along;
    var w := Width(v);
    if (x, y) in FinderCover(w) {
      FinderInside(w, (x, y));
    } else if v > 6 && (x, y) in VersionCover(w) {
      VersionApart(w, (x, y));
    } else {
      AlignmentApart(v, (x, y));
      if (x, y) in GridCover(v, Along(v)) {
        GridIsNear(v, x, y);
      } else {
        CrossIsNear(v, x, y);
      }
    }
  }

  // ---------------------------------------------------------------- the count

  lemma PatternsLeave(v: nat)
    requires 1 <= v <= 40
    ensures Wide(Width(v))
    ensures End(Width(v)) - Patterns(v) == BlockLayout.DataModules(v)
  {
    var w, q := Width(v), v / 7;
    assert Pairs(w) == 8 + 2 * v;
    assert End(w) == (8 + 2 * v) * (17 + 4 * v) * 2;
  }

  /** The function patterns leave exactly the modules that the block table reckons with: those of its
      codewords and fewer than eight more. */
  lemma ModulesLeft(v: nat, mask: seq<bool>)
    requires 1 <= v <= 40 && forall x: nat, y: nat :: IsMasked(mask, x, y) <==> Reserved(v, x, y)
    ensures Wide(Width(v)) && CountFree(Width(v), mask, End(Width(v))) == BlockLayout.DataModules(v)
  {
    hide Width, End, CountFree, Reserved, IsMasked, Cover, Patterns, Wide, BlockLayout.DataModules, FunctionModule;
    var w := Width(v);
    PatternsLeave(v);
    forall m | m in Cover(v)
      ensures Inside(w, m)
    {
      CoverIsFunction(v, m.0, m.1);
    }
    forall x: nat, y: nat | x < w && y < w && x != 6
      ensures IsMasked(mask, x, y) <==> (x as int, y as int) in Cover(v)
    {
      ReservedIs(v, x, y);
      if (x as int, y as int) in Cover(v) {
        CoverIsFunction(v, x, y);
      }
      if FunctionModule(v, x, y) {
        FunctionIsCovered(v, x, y);
      }
    }
    FreeIs(w, mask, Cover(v));
    CoverSize(v);
  }
}
