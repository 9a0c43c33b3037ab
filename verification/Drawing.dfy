/** Drawing the function patterns: dark modules in the matrix, reserved modules in the mask. */
module Drawing {
  import opened Arithmetic
  import opened MaskPattern

  // ---------------------------------------------------------------- single modules

  /** The module of column x and row y is dark. */
  predicate Dark(w: nat, b: seq<bool>, x: int, y: int) {
    0 <= x < w && 0 <= y < w && 0 <= x + w * y < |b| && b[x + w * y]
  }

  lemma IndexInjective(w: nat, x: nat, y: nat, x': nat, y': nat)
    requires x < w && x' < w
    ensures x + w * y == x' + w * y' <==> x == x' && y == y'
  {
    DivMod(y, w, x);
    DivMod(y', w, x');
  }

  lemma IndexInMatrix(w: nat, x: nat, y: nat)
    requires x < w && y < w
    ensures 0 <= x + w * y < w * w
  {
    Below(y, w, w, x);
  }

  ghost predicate Sizes(w: nat, b: array<bool>, mask: array<bool>) {
    b != mask && b.Length == w * w && mask.Length > (w + w * w) / 2
  }

  method SetDark(b: array<bool>, w: nat, x: nat, y: nat)
    requires b.Length == w * w && x < w && y < w
    modifies b
    ensures forall i, j :: Dark(w, b[..], i, j) <==> Dark(w, old(b[..]), i, j) || (i == x && j == y)
  {
    IndexInMatrix(w, x, y);
    ghost var was := b[..];
    b[x + w * y] := true;
    forall i, j
      ensures Dark(w, b[..], i, j) <==> Dark(w, was, i, j) || (i == x && j == y)
    {
      if 0 <= i < w && 0 <= j < w {
        IndexInMatrix(w, i, j);
        IndexInjective(w, i, j, x, y);
      }
    }
  }

  /** Marks a module, and with it its mirror image, as part of a function pattern. */
  method SetMask(mask: array<bool>, w: nat, x: nat, y: nat)
    requires x < w && y < w && mask.Length > (w + w * w) / 2
    modifies mask
    ensures forall i: nat, j: nat :: IsMasked(mask[..], i, j) <==>
      IsMasked(old(mask[..]), i, j) || (i == x && j == y) || (i == y && j == x)
  {
    hide MaskBit;
    MaskBitInBounds(x, y, w);
    mask[MaskBit(x, y)] := true;
    forall i: nat, j: nat
      ensures MaskBit(i, j) == MaskBit(x, y) <==> (i == x && j == y) || (i == y && j == x)
    {
      MaskBitInjective(i, j, x, y);
    }
  }

  // ---------------------------------------------------------------- finders

  /** The dark frame and the dark core of a finder, and the light ring in between. */
  predicate FinderFrame(dx: int, dy: int) {
    0 <= dx <= 6 && 0 <= dy <= 6 && (dx == 0 || dx == 6 || dy == 0 || dy == 6)
  }

  predicate FinderCore(dx: int, dy: int) {
    2 <= dx <= 4 && 2 <= dy <= 4
  }

  predicate FinderRing(dx: int, dy: int) {
    1 <= dx <= 5 && 1 <= dy <= 5 && (dx == 1 || dx == 5 || dy == 1 || dy == 5)
  }

  method FrameOfFinder(b: array<bool>, w: nat, n: nat, e: nat)
    requires b.Length == w * w && n + 6 < w && e + 6 < w
    modifies b
    ensures forall x, y :: Dark(w, b[..], x, y) <==> Dark(w, old(b[..]), x, y) || FinderFrame(x - n, y - e)
  {
    hide Dark;
    for i := 0 to 6
      invariant forall x, y :: Dark(w, b[..], x, y) <==>
        Dark(w, old(b[..]), x, y) || (0 <= x - n < i && y == e) || (x == n && 1 <= y - e <= i)
        || (x == n + 6 && 0 <= y - e < i) || (1 <= x - n <= i && y == e + 6)
    {
      SetDark(b, w, n + i, e);
      SetDark(b, w, n, e + i + 1);
      SetDark(b, w, n + 6, e + i);
      SetDark(b, w, n + i + 1, e + 6);
    }
  }

  method CoreOfFinder(b: array<bool>, w: nat, n: nat, e: nat)
    requires b.Length == w * w && n + 6 < w && e + 6 < w
    modifies b
    ensures forall x, y :: Dark(w, b[..], x, y) <==> Dark(w, old(b[..]), x, y) || (FinderCore(x - n, y - e) && !(x == n + 3 && y == e + 3))
  {
    hide Dark;
    for i := 2 to 4
      invariant forall x, y :: Dark(w, b[..], x, y) <==>
        Dark(w, old(b[..]), x, y) || (2 <= x - n < i && y == e + 2) || (x == n + 2 && 3 <= y - e <= i)
        || (x == n + 4 && 2 <= y - e < i) || (3 <= x - n <= i && y == e + 4)
    {
      SetDark(b, w, n + i, e + 2);
      SetDark(b, w, n + 2, e + i + 1);
      SetDark(b, w, n + 4, e + i);
      SetDark(b, w, n + i + 1, e + 4);
    }
  }

  method RingOfFinder(mask: array<bool>, w: nat, n: nat, e: nat)
    requires mask.Length > (w + w * w) / 2 && n + 6 < w && e + 6 < w
    modifies mask
    ensures forall x: nat, y: nat :: IsMasked(mask[..], x, y) <==>
      IsMasked(old(mask[..]), x, y) || FinderRing(x - n, y - e) || FinderRing(y - n, x - e)
  {
    hide IsMasked;
    for i := 1 to 5
      invariant forall x: nat, y: nat :: IsMasked(mask[..], x, y) <==>
        IsMasked(old(mask[..]), x, y) || RingPart(i, x - n, y - e) || RingPart(i, y - n, x - e)
    {
      SetMask(mask, w, n + i, e + 1);
      SetMask(mask, w, n + 1, e + i + 1);
      SetMask(mask, w, n + 5, e + i);
      SetMask(mask, w, n + i + 1, e + 5);
    }
  }

  predicate RingPart(i: int, dx: int, dy: int) {
    (1 <= dx < i && dy == 1) || (dx == 1 && 2 <= dy <= i) || (dx == 5 && 1 <= dy < i) || (2 <= dx <= i && dy == 5)
  }

  method InsertFinder(b: array<bool>, mask: array<bool>, w: nat, n: nat, e: nat)
    requires Sizes(w, b, mask) && n + 6 < w && e + 6 < w
    modifies b, mask
    ensures forall x, y :: Dark(w, b[..], x, y) <==>
      Dark(w, old(b[..]), x, y) || FinderFrame(x - n, y - e) || FinderCore(x - n, y - e)
    ensures forall x: nat, y: nat :: IsMasked(mask[..], x, y) <==>
      IsMasked(old(mask[..]), x, y) || FinderRing(x - n, y - e) || FinderRing(y - n, x - e)
  {
    hide Dark, IsMasked, FinderRing;
    SetDark(b, w, n + 3, e + 3);
    FrameOfFinder(b, w, n, e);
    RingOfFinder(mask, w, n, e);
    CoreOfFinder(b, w, n, e);
  }

  // ---------------------------------------------------------------- alignment patterns

  /** The dark frame and centre of an alignment pattern, and the light ring in between. */
  predicate Eye(dx: int, dy: int) {
    (dx == 0 && dy == 0) || (-2 <= dx <= 2 && -2 <= dy <= 2 && (dx == 2 || dx == -2 || dy == 2 || dy == -2))
  }

  predicate EyeRing(dx: int, dy: int) {
    -1 <= dx <= 1 && -1 <= dy <= 1 && !(dx == 0 && dy == 0)
  }

  method FrameOfEye(b: array<bool>, w: nat, t: nat, e: nat)
    requires b.Length == w * w && 2 <= t && t + 2 < w && 2 <= e && e + 2 < w
    modifies b
    ensures forall x, y :: Dark(w, b[..], x, y) <==> Dark(w, old(b[..]), x, y) || Eye(x - t, y - e)
  {
    hide Dark;
    SetDark(b, w, t, e);
    for i := -2 to 2
      invariant forall x, y :: Dark(w, b[..], x, y) <==>
        Dark(w, old(b[..]), x, y) || (x == t && y == e)
        || (-2 <= x - t < i && y == e - 2) || (x == t - 2 && -1 <= y - e <= i)
        || (x == t + 2 && -2 <= y - e < i) || (-1 <= x - t <= i && y == e + 2)
    {
      SetDark(b, w, t + i, e - 2);
      SetDark(b, w, t - 2, e + i + 1);
      SetDark(b, w, t + 2, e + i);
      SetDark(b, w, t + i + 1, e + 2);
    }
  }

  method RingOfEye(mask: array<bool>, w: nat, t: nat, e: nat)
    requires mask.Length > (w + w * w) / 2 && 2 <= t && t + 2 < w && 2 <= e && e + 2 < w
    modifies mask
    ensures forall x: nat, y: nat :: IsMasked(mask[..], x, y) <==>
      IsMasked(old(mask[..]), x, y) || EyeRing(x - t, y - e) || EyeRing(y - t, x - e)
  {
    hide IsMasked;
    for i := 0 to 2
      invariant forall x: nat, y: nat :: IsMasked(mask[..], x, y) <==>
        IsMasked(old(mask[..]), x, y) || EyePart(i, x - t, y - e) || EyePart(i, y - t, x - e)
    {
      SetMask(mask, w, t - 1, e + i);
      SetMask(mask, w, t + 1, e - i);
      SetMask(mask, w, t - i, e - 1);
      SetMask(mask, w, t + i, e + 1);
    }
  }

  predicate EyePart(i: int, dx: int, dy: int) {
    (dx == -1 && 0 <= dy < i) || (dx == 1 && 0 <= -dy < i) || (0 <= -dx < i && dy == -1) || (0 <= dx < i && dy == 1)
  }

  method AddAlignment(b: array<bool>, mask: array<bool>, w: nat, t: nat, e: nat)
    requires Sizes(w, b, mask) && 2 <= t && t + 2 < w && 2 <= e && e + 2 < w
    modifies b, mask
    ensures forall x, y :: Dark(w, b[..], x, y) <==> Dark(w, old(b[..]), x, y) || Eye(x - t, y - e)
    ensures forall x: nat, y: nat :: IsMasked(mask[..], x, y) <==>
      IsMasked(old(mask[..]), x, y) || EyeRing(x - t, y - e) || EyeRing(y - t, x - e)
  {
    hide Dark, IsMasked, Eye, EyeRing;
    FrameOfEye(b, w, t, e);
    RingOfEye(mask, w, t, e);
  }

  /** The distance of alignment patterns, by version. */
  function Spacing(version: nat): nat {
    if version < 20 then
      if version < 10 then
        if version < 5 then
          if version < 2 then
            if version == 0 then 0 else 11
          else
            if version == 2 then 15 else if version == 3 then 19 else 23
        else
          if version < 7 then
            if version == 5 then 27 else 31
          else
            if version == 7 then 16 else if version == 8 then 18 else 20
      else
        if version < 15 then
          if version < 12 then
            if version == 10 then 22 else 24
          else
            if version == 12 then 26 else if version == 13 then 28 else 20
        else
          if version < 17 then
            if version == 15 then 22 else 24
          else
            if version == 17 then 24 else if version == 18 then 26 else 28
    else
      if version < 30 then
        if version < 25 then
          if version < 22 then
            if version == 20 then 28 else 22
          else
            if version == 22 then 24 else if version == 23 then 24 else 26
        else
          if version < 27 then
            if version == 25 then 26 else 28
          else
            if version == 27 then 28 else if version == 28 then 24 else 24
      else
        if version < 35 then
          if version < 32 then
            if version == 30 then 26 else 26
          else
            if version == 32 then 26 else if version == 33 then 28 else 28
        else
          if version < 38 then
            if version == 35 then 24 else if version == 36 then 26 else 26
          else
            if version == 38 then 26 else if version == 39 then 28 else 28
  }

  /** How many alignment patterns there are along a side, the one on column 6 not counted. */
  function Along(version: nat): nat {
    version / 7 + 1
  }

  function Width(version: nat): nat {
    17 + 4 * version
  }

  /** The k-th coordinate of alignment patterns, from the far side. */
  function Coordinate(version: nat, k: int): int {
    Width(version) - 7 - k * Spacing(version)
  }

  ghost predicate OnEye(c: set<(int, int)>, x: int, y: int) {
    exists p :: p in c && Eye(x - p.0, y - p.1)
  }

  ghost predicate OnEyeRing(c: set<(int, int)>, x: int, y: int) {
    exists p :: p in c && EyeRing(x - p.0, y - p.1)
  }

  lemma OneMoreEye(c: set<(int, int)>, t: int, e: int, x: int, y: int)
    ensures OnEye(c + {(t, e)}, x, y) <==> OnEye(c, x, y) || Eye(x - t, y - e)
    ensures OnEyeRing(c + {(t, e)}, x, y) <==> OnEyeRing(c, x, y) || EyeRing(x - t, y - e)
  {
    hide Eye, EyeRing;
    var d := c + {(t, e)};
    assert (t, e) in d;
    if Eye(x - t, y - e) {
      assert Eye(x - (t, e).0, y - (t, e).1);
    }
    if EyeRing(x - t, y - e) {
      assert EyeRing(x - (t, e).0, y - (t, e).1);
    }
  }

  /** The matrix and the mask have the patterns of exactly these centres on top of what was. */
  ghost predicate Centred(w: nat, b: seq<bool>, mask: seq<bool>, was: seq<bool>, wasMask: seq<bool>, c: set<(int, int)>) {
    && (forall x, y :: Dark(w, b, x, y) <==> Dark(w, was, x, y) || OnEye(c, x, y))
    && (forall x: nat, y: nat :: IsMasked(mask, x, y) <==> IsMasked(wasMask, x, y) || OnEyeRing(c, x, y) || OnEyeRing(c, y, x))
  }

  method AddCentre(b: array<bool>, mask: array<bool>, w: nat, t: nat, e: nat,
                   ghost was: seq<bool>, ghost wasMask: seq<bool>, ghost c: set<(int, int)>)
    requires Sizes(w, b, mask) && 2 <= t && t + 2 < w && 2 <= e && e + 2 < w
    requires Centred(w, b[..], mask[..], was, wasMask, c)
    modifies b, mask
    ensures Centred(w, b[..], mask[..], was, wasMask, c + {(t as int, e as int)})
  {
    hide Dark, IsMasked, Eye, EyeRing, OnEye, OnEyeRing;
    AddAlignment(b, mask, w, t, e);
    ghost var d := c + {(t as int, e as int)};
    forall x, y
      ensures OnEye(d, x, y) <==> OnEye(c, x, y) || Eye(x - t, y - e)
      ensures OnEyeRing(d, x, y) <==> OnEyeRing(c, x, y) || EyeRing(x - t, y - e)
    {
      OneMoreEye(c, t, e, x, y);
    }
  }

  /** The centres in the rows before the r-th. */
  ghost function Grid(v: nat, r: int): set<(int, int)> {
    set j, k | 0 <= j < Along(v) && 0 <= k < r :: (Coordinate(v, j), Coordinate(v, k))
  }

  /** The first centres of the r-th row. */
  ghost function RowOf(v: nat, r: int, j: int): set<(int, int)> {
    set k | 0 <= k < j :: (Coordinate(v, k), Coordinate(v, r))
  }

  /** The centres on column 6 and on row 6 before the r-th row. */
  ghost function Cross(v: nat, r: int): set<(int, int)> {
    (set k | 1 <= k < r :: (6, Coordinate(v, k))) + (set k | 1 <= k < r :: (Coordinate(v, k), 6))
  }

  /** All centres. */
  ghost function Centres(v: nat): set<(int, int)> {
    if v < 2 then {} else Grid(v, Along(v)) + Cross(v, Along(v))
  }

  lemma GridStart(v: nat)
    ensures Grid(v, 0) == {} && Cross(v, 1) == {} && forall r :: RowOf(v, r, 0) == {}
  {
  }

  lemma RowMore(v: nat, r: int, j: nat)
    ensures RowOf(v, r, j + 1) == RowOf(v, r, j) + {(Coordinate(v, j), Coordinate(v, r))}
  {
    hide Coordinate;
  }

  lemma GridMore(v: nat, r: nat)
    ensures Grid(v, r + 1) == Grid(v, r) + RowOf(v, r, Along(v))
  {
    hide Coordinate, Along;
  }

  lemma CrossMore(v: nat, r: nat)
    requires r >= 1
    ensures Cross(v, r + 1) == Cross(v, r) + {(6, Coordinate(v, r))} + {(Coordinate(v, r), 6)}
  {
    hide Coordinate;
  }

  lemma NextCoordinate(v: nat, k: int)
    ensures Coordinate(v, k + 1) == Coordinate(v, k) - Spacing(v)
  {
    hide Spacing;
  }

  /** The table fits the symbols: the coordinate nearest to column 6 is where the loops end. */
  lemma SpacingFits(v: nat)
    requires 2 <= v <= 40
    ensures var t, k := Spacing(v), Along(v);
            t >= 12 && k >= 1 && Coordinate(v, k - 1) >= 18 && t - 3 < Coordinate(v, k - 1) <= t + 9
  {
    assert Along(v) in {1, 2, 3, 4, 5, 6};
  }

  lemma {:induction false} CoordinateAbove(v: nat, k: nat, last: nat)
    requires k <= last
    ensures Coordinate(v, k) >= Coordinate(v, last) && (k < last ==> Coordinate(v, k) >= Coordinate(v, last) + Spacing(v))
    ensures Coordinate(v, k) <= Width(v) - 7
    decreases last - k
  {
    hide Spacing, Width, Coordinate;
    CoordinateFrom(v, k);
    if k < last {
      CoordinateAbove(v, k + 1, last);
      NextCoordinate(v, k);
    }
  }

  lemma CoordinateFrom(v: nat, k: nat)
    ensures Coordinate(v, k) <= Width(v) - 7 && Coordinate(v, 0) == Width(v) - 7
  {
    hide Spacing, Width;
    assert k * Spacing(v) >= 0;
  }

  /** The patterns of one row, the loop going down to the coordinate nearest to column 6. */
  method AlignmentRow(b: array<bool>, mask: array<bool>, w: nat, v: nat, t: nat, i: nat, ghost r: nat,
                      ghost was: seq<bool>, ghost wasMask: seq<bool>, ghost c: set<(int, int)>)
    requires Sizes(w, b, mask) && 2 <= v <= 40 && w == Width(v) && t == Spacing(v)
    requires r < Along(v) && i == Coordinate(v, r) && 2 <= i && i + 2 < w
    requires Centred(w, b[..], mask[..], was, wasMask, c)
    modifies b, mask
    ensures Centred(w, b[..], mask[..], was, wasMask, c + RowOf(v, r, Along(v)))
  {
    hide Centred, Spacing, Along, Coordinate, RowOf, Width, Grid;
    SpacingFits(v);
    GridStart(v);
    var e: int := w - 7;
    ghost var j := 0;
    CoordinateFrom(v, 0);
    assert c + RowOf(v, r, 0) == c;
    while e > t - 3
      invariant 0 <= j <= Along(v) && e == Coordinate(v, j)
      invariant Centred(w, b[..], mask[..], was, wasMask, c + RowOf(v, r, j))
      decreases Along(v) - j
    {
      StillInRow(v, j);
      AddCentre(b, mask, w, e, i, was, wasMask, c + RowOf(v, r, j));
      RowMore(v, r, j);
      assert c + RowOf(v, r, j) + {(e as int, i as int)} == c + RowOf(v, r, j + 1);
      if e < t {
        LastInRow(v, j);
        j := j + 1;
        break;
      }
      NextCoordinate(v, j);
      e := e - t;
      j := j + 1;
    }
    if j < Along(v) && e <= t - 3 {
      CoordinateAbove(v, j, Along(v) - 1);
      assert false;
    }
  }

  lemma StillInRow(v: nat, j: nat)
    requires 2 <= v <= 40 && j <= Along(v) && Coordinate(v, j) > Spacing(v) - 3
    ensures j < Along(v) && 2 <= Coordinate(v, j) && Coordinate(v, j) + 2 < Width(v)
  {
    hide Spacing, Along, Width, Coordinate;
    SpacingFits(v);
    if j == Along(v) {
      NextCoordinate(v, j - 1);
    } else {
      CoordinateAbove(v, j, Along(v) - 1);
    }
  }

  lemma LastInRow(v: nat, j: nat)
    requires 2 <= v <= 40 && j < Along(v) && Coordinate(v, j) < Spacing(v)
    ensures j == Along(v) - 1
  {
    hide Spacing, Along, Width, Coordinate;
    SpacingFits(v);
    CoordinateAbove(v, j, Along(v) - 1);
  }

  lemma RowInMatrix(v: nat, r: nat)
    requires 2 <= v <= 40 && r < Along(v)
    ensures 18 <= Coordinate(v, r) <= Width(v) - 7
    ensures r > 0 ==> Coordinate(v, r) <= Width(v) - 19
    ensures Coordinate(v, r) <= Spacing(v) + 9 <==> r == Along(v) - 1
  {
    hide Spacing, Along, Width, Coordinate;
    SpacingFits(v);
    CoordinateAbove(v, r, Along(v) - 1);
    if r > 0 {
      CoordinateFrom(v, r - 1);
      NextCoordinate(v, r - 1);
    }
  }

  method InsertAlignments(b: array<bool>, mask: array<bool>, w: nat, v: nat)
    requires Sizes(w, b, mask) && 1 <= v <= 40 && w == Width(v)
    modifies b, mask
    ensures Centred(w, b[..], mask[..], old(b[..]), old(mask[..]), Centres(v))
  {
    hide Centred, Spacing, Along, Coordinate, RowOf, Width, Grid, Cross;
    ghost var was, wasMask := b[..], mask[..];
    NothingCentred(w, was, wasMask);
    if v > 1 {
      var t := Spacing(v);
      var i: int := w - 7;
      ghost var r := 0;
      GridStart(v);
      CoordinateFrom(v, 0);
      SpacingFits(v);
      assert Grid(v, 0) + Cross(v, 1) == {};
      while true
        invariant 0 <= r < Along(v) && i == Coordinate(v, r)
        invariant Centred(w, b[..], mask[..], was, wasMask, Grid(v, r) + Cross(v, r + 1))
        decreases Along(v) - r
      {
        RowInMatrix(v, r);
        WidthAtLeast(v);
        AlignmentRow(b, mask, w, v, t, i, r, was, wasMask, Grid(v, r) + Cross(v, r + 1));
        GridMore(v, r);
        assert Grid(v, r) + Cross(v, r + 1) + RowOf(v, r, Along(v)) == Grid(v, r + 1) + Cross(v, r + 1);
        if i <= t + 9 {
          break;
        }
        NextCoordinate(v, r);
        i := i - t;
        r := r + 1;
        RowInMatrix(v, r);
        ghost var c := Grid(v, r) + Cross(v, r);
        AddCentre(b, mask, w, 6, i, was, wasMask, c);
        AddCentre(b, mask, w, i, 6, was, wasMask, c + {(6, i as int)});
        CrossMore(v, r);
        assert c + {(6, i as int)} + {(i as int, 6)} == Grid(v, r) + Cross(v, r + 1);
      }
    }
  }

  lemma WidthAtLeast(v: nat)
    requires v >= 1
    ensures Width(v) >= 21
  {
  }

  lemma NothingCentred(w: nat, b: seq<bool>, mask: seq<bool>)
    ensures Centred(w, b, mask, b, mask, {})
  {
    hide Dark, IsMasked;
  }

  // ---------------------------------------------------------------- separators, format and timing

  /** The light separators of the finders. */
  predicate Separator(w: nat, x: int, y: int) {
    || (x == 7 && 0 <= y < 7) || (x == w - 8 && 0 <= y < 7) || (x == 7 && w - 7 <= y < w)
    || (0 <= x < 8 && y == 7) || (w - 8 <= x < w && y == 7) || (0 <= x < 8 && y == w - 8)
  }

  method InsertTimingGap(mask: array<bool>, w: nat)
    requires w >= 21 && mask.Length > (w + w * w) / 2
    modifies mask
    ensures forall x: nat, y: nat :: IsMasked(mask[..], x, y) <==>
      IsMasked(old(mask[..]), x, y) || Separator(w, x, y) || Separator(w, y, x)
  {
    hide IsMasked;
    for e := 0 to 7
      invariant forall x: nat, y: nat :: IsMasked(mask[..], x, y) <==>
        IsMasked(old(mask[..]), x, y) || SeparatorColumns(w, e, x, y) || SeparatorColumns(w, e, y, x)
    {
      SetMask(mask, w, 7, e);
      SetMask(mask, w, w - 8, e);
      SetMask(mask, w, 7, e + w - 7);
    }
    for t := 0 to 8
      invariant forall x: nat, y: nat :: IsMasked(mask[..], x, y) <==>
        IsMasked(old(mask[..]), x, y) || SeparatorColumns(w, 7, x, y) || SeparatorColumns(w, 7, y, x)
        || SeparatorRows(w, t, x, y) || SeparatorRows(w, t, y, x)
    {
      SetMask(mask, w, t, 7);
      SetMask(mask, w, t + w - 8, 7);
      SetMask(mask, w, t, w - 8);
    }
  }

  predicate SeparatorColumns(w: nat, e: int, x: int, y: int) {
    (x == 7 && 0 <= y < e) || (x == w - 8 && 0 <= y < e) || (x == 7 && w - 7 <= y < w - 7 + e)
  }

  predicate SeparatorRows(w: nat, t: int, x: int, y: int) {
    (0 <= x < t && y == 7) || (w - 8 <= x < w - 8 + t && y == 7) || (0 <= x < t && y == w - 8)
  }

  /** The modules kept for the format information. */
  predicate FormatArea(w: nat, x: int, y: int) {
    (0 <= x < 9 && y == 8) || (w - 8 <= x < w && y == 8) || (x == 8 && 0 <= y < 8) || (x == 8 && w - 7 <= y < w)
  }

  method ReverseMask(mask: array<bool>, w: nat)
    requires w >= 21 && mask.Length > (w + w * w) / 2
    modifies mask
    ensures forall x: nat, y: nat :: IsMasked(mask[..], x, y) <==>
      IsMasked(old(mask[..]), x, y) || FormatArea(w, x, y) || FormatArea(w, y, x)
  {
    hide IsMasked;
    for t := 0 to 9
      invariant forall x: nat, y: nat :: IsMasked(mask[..], x, y) <==>
        IsMasked(old(mask[..]), x, y) || FormatPart(w, t, 0, 0, x, y) || FormatPart(w, t, 0, 0, y, x)
    {
      SetMask(mask, w, t, 8);
    }
    for t := 0 to 8
      invariant forall x: nat, y: nat :: IsMasked(mask[..], x, y) <==>
        IsMasked(old(mask[..]), x, y) || FormatPart(w, 9, t, 0, x, y) || FormatPart(w, 9, t, 0, y, x)
    {
      SetMask(mask, w, t + w - 8, 8);
      SetMask(mask, w, 8, t);
    }
    for e := 0 to 7
      invariant forall x: nat, y: nat :: IsMasked(mask[..], x, y) <==>
        IsMasked(old(mask[..]), x, y) || FormatPart(w, 9, 8, e, x, y) || FormatPart(w, 9, 8, e, y, x)
    {
      SetMask(mask, w, 8, e + w - 7);
    }
  }

  predicate FormatPart(w: nat, a: int, t: int, e: int, x: int, y: int) {
    (0 <= x < a && y == 8) || (w - 8 <= x < w - 8 + t && y == 8) || (x == 8 && 0 <= y < t)
    || (x == 8 && w - 7 <= y < w - 7 + e)
  }

  /** The timing patterns up to some length, dark and light modules in turn. */
  predicate Timing(w: nat, t: int, light: bool, x: int, y: int) {
    y == 6 && 8 <= x < 8 + t && (if light then x % 2 == 1 else x % 2 == 0)
  }

  method InsertTimingRowAndColumn(b: array<bool>, mask: array<bool>, w: nat)
    requires Sizes(w, b, mask) && w >= 21
    modifies b, mask
    ensures forall x, y :: Dark(w, b[..], x, y) <==>
      Dark(w, old(b[..]), x, y) || Timing(w, w - 14, false, x, y) || Timing(w, w - 14, false, y, x)
    ensures forall x: nat, y: nat :: IsMasked(mask[..], x, y) <==>
      IsMasked(old(mask[..]), x, y) || Timing(w, w - 14, true, x, y) || Timing(w, w - 14, true, y, x)
  {
    hide Dark, IsMasked;
    for t := 0 to w - 14
      invariant forall x, y :: Dark(w, b[..], x, y) <==>
        Dark(w, old(b[..]), x, y) || Timing(w, t, false, x, y) || Timing(w, t, false, y, x)
      invariant forall x: nat, y: nat :: IsMasked(mask[..], x, y) <==>
        IsMasked(old(mask[..]), x, y) || Timing(w, t, true, x, y) || Timing(w, t, true, y, x)
    {
      EvenStep(t);
      if t % 2 == 1 {
        SetMask(mask, w, 8 + t, 6);
        SetMask(mask, w, 6, 8 + t);
      } else {
        SetDark(b, w, 8 + t, 6);
        SetDark(b, w, 6, 8 + t);
      }
    }
  }

  lemma EvenStep(t: nat)
    ensures (8 + t) % 2 == t % 2
  {
  }

  // ---------------------------------------------------------------- version information

  function VersionInfo(version: nat): nat {
    if version < 24 then
      if version < 15 then
        if version < 11 then
          if version == 7 then 3220 else if version == 8 then 1468 else if version == 9 then 2713 else 1235
        else
          if version == 11 then 3062 else if version == 12 then 1890 else if version == 13 then 2119 else 1549
      else
        if version < 19 then
          if version == 15 then 2344 else if version == 16 then 2936 else if version == 17 then 1117 else 2583
        else
          if version < 21 then
            if version == 19 then 1330 else 2470
          else
            if version == 21 then 1667 else if version == 22 then 2249 else 2028
    else
      if version < 32 then
        if version < 28 then
          if version == 24 then 3780 else if version == 25 then 481 else if version == 26 then 4011 else 142
        else
          if version == 28 then 3098 else if version == 29 then 831 else if version == 30 then 3445 else 592
      else
        if version < 36 then
          if version == 32 then 2517 else if version == 33 then 1776 else if version == 34 then 2234 else 1951
        else
          if version < 38 then
            if version == 36 then 2827 else 1070
          else
            if version == 38 then 2660 else if version == 39 then 1345 else 3177
  }

  function Shifted(n: nat, k: nat): nat {
    if k == 0 then n else Shifted(n, k - 1) / 2
  }

  /** One bit of the version information: six bits of the version, twelve for their protection. */
  predicate VersionBit(version: nat, e: int) {
    if e > 11 then Shifted(version, e - 12) % 2 == 1 else e >= 0 && Shifted(VersionInfo(version), e) % 2 == 1
  }

  /** The modules of the version information at the lower left, and their order. */
  predicate VersionArea(w: nat, x: int, y: int) {
    0 <= x < 6 && w - 11 <= y < w - 8
  }

  function VersionOrder(w: nat, x: int, y: int): int {
    3 * (5 - x) + (w - 9 - y)
  }

  /** The first modules of the version information that are dark, or those that are light. */
  predicate VersionModule(w: nat, v: nat, count: int, light: bool, x: int, y: int) {
    && VersionArea(w, x, y) && VersionOrder(w, x, y) < count
    && (if light then !VersionBit(v, 17 - VersionOrder(w, x, y)) else VersionBit(v, 17 - VersionOrder(w, x, y)))
  }

  lemma OrderDetermines(w: nat, x: int, y: int, i: int, n: int)
    requires VersionArea(w, x, y) && 0 <= i < 6 && 0 <= n < 3
    ensures VersionOrder(w, x, y) == 3 * i + n <==> x == 5 - i && y == w - 9 - n
  {
  }

  /** One module and its mirror image. */
  method VersionStep(b: array<bool>, mask: array<bool>, w: nat, v: nat, i: nat, n: nat)
    requires Sizes(w, b, mask) && w >= 21 && i < 6 && n < 3
    modifies b, mask
    ensures forall x, y :: Dark(w, b[..], x, y) <==>
      Dark(w, old(b[..]), x, y)
      || (VersionBit(v, 17 - (3 * i + n)) && ((x == 5 - i && y == w - 9 - n) || (y == 5 - i && x == w - 9 - n)))
    ensures forall x: nat, y: nat :: IsMasked(mask[..], x, y) <==>
      IsMasked(old(mask[..]), x, y)
      || (!VersionBit(v, 17 - (3 * i + n)) && ((x == 5 - i && y == w - 9 - n) || (y == 5 - i && x == w - 9 - n)))
  {
    hide Dark, IsMasked, VersionBit;
    if VersionBit(v, 17 - (3 * i + n)) {
      SetDark(b, w, 5 - i, w - 9 - n);
      SetDark(b, w, w - 9 - n, 5 - i);
    } else {
      SetMask(mask, w, 5 - i, w - 9 - n);
      SetMask(mask, w, w - 9 - n, 5 - i);
    }
  }

  lemma VersionMore(w: nat, v: nat, i: nat, n: nat, light: bool, x: int, y: int)
    requires i < 6 && n < 3
    ensures VersionModule(w, v, 3 * i + n + 1, light, x, y) <==>
            VersionModule(w, v, 3 * i + n, light, x, y)
            || (VersionBit(v, 17 - (3 * i + n)) != light && x == 5 - i && y == w - 9 - n)
  {
    hide VersionBit;
    if VersionArea(w, x, y) {
      OrderDetermines(w, x, y, i, n);
    }
  }

  /** The version information so far. */
  ghost predicate Versioned(w: nat, v: nat, count: int, b: seq<bool>, mask: seq<bool>, was: seq<bool>, wasMask: seq<bool>) {
    && (forall x, y :: Dark(w, b, x, y) <==>
          Dark(w, was, x, y) || VersionModule(w, v, count, false, x, y) || VersionModule(w, v, count, false, y, x))
    && (forall x: nat, y: nat :: IsMasked(mask, x, y) <==>
          IsMasked(wasMask, x, y) || VersionModule(w, v, count, true, x, y) || VersionModule(w, v, count, true, y, x))
  }

  method InsertVersion(b: array<bool>, mask: array<bool>, w: nat, v: nat)
    requires Sizes(w, b, mask) && w >= 21
    modifies b, mask
    ensures Versioned(w, v, if v > 6 then 18 else 0, b[..], mask[..], old(b[..]), old(mask[..]))
  {
    hide Dark, IsMasked, VersionModule, Versioned;
    ghost var was, wasMask := b[..], mask[..];
    NothingVersioned(w, v, was, wasMask);
    if v > 6 {
      for i := 0 to 6
        invariant Versioned(w, v, 3 * i, b[..], mask[..], was, wasMask)
      {
        for n := 0 to 3
          invariant Versioned(w, v, 3 * i + n, b[..], mask[..], was, wasMask)
        {
          ghost var b', mask' := b[..], mask[..];
          VersionStep(b, mask, w, v, i, n);
          VersionedMore(w, v, i, n, b[..], mask[..], b', mask', was, wasMask);
        }
      }
    }
  }

  lemma NothingVersioned(w: nat, v: nat, b: seq<bool>, mask: seq<bool>)
    ensures Versioned(w, v, 0, b, mask, b, mask)
  {
    hide Dark, IsMasked, VersionBit;
  }

  lemma VersionedMore(w: nat, v: nat, i: nat, n: nat, b: seq<bool>, mask: seq<bool>, b': seq<bool>, mask': seq<bool>,
                      was: seq<bool>, wasMask: seq<bool>)
    requires i < 6 && n < 3 && Versioned(w, v, 3 * i + n, b', mask', was, wasMask)
    requires forall x, y :: Dark(w, b, x, y) <==>
      Dark(w, b', x, y)
      || (VersionBit(v, 17 - (3 * i + n)) && ((x == 5 - i && y == w - 9 - n) || (y == 5 - i && x == w - 9 - n)))
    requires forall x: nat, y: nat :: IsMasked(mask, x, y) <==>
      IsMasked(mask', x, y)
      || (!VersionBit(v, 17 - (3 * i + n)) && ((x == 5 - i && y == w - 9 - n) || (y == 5 - i && x == w - 9 - n)))
    ensures Versioned(w, v, 3 * i + n + 1, b, mask, was, wasMask)
  {
    hide Dark, IsMasked, VersionModule, VersionBit;
    forall x, y
      ensures Dark(w, b, x, y) <==>
        Dark(w, was, x, y) || VersionModule(w, v, 3 * i + n + 1, false, x, y) || VersionModule(w, v, 3 * i + n + 1, false, y, x)
    {
      VersionMore(w, v, i, n, false, x, y);
      VersionMore(w, v, i, n, false, y, x);
    }
    forall x: nat, y: nat
      ensures IsMasked(mask, x, y) <==>
        IsMasked(wasMask, x, y) || VersionModule(w, v, 3 * i + n + 1, true, x, y) || VersionModule(w, v, 3 * i + n + 1, true, y, x)
    {
      VersionMore(w, v, i, n, true, x, y);
      VersionMore(w, v, i, n, true, y, x);
    }
  }

  // ---------------------------------------------------------------- dark modules are reserved

  /** A dark module on or below the diagonal, in the rows done. */
  predicate Synced(w: nat, b: seq<bool>, e: int, t: int, x: int, y: int) {
    0 <= x <= y && (y < e || (y == e && x < t)) && Dark(w, b, x, y)
  }

  method SyncMask(b: array<bool>, mask: array<bool>, w: nat)
    requires Sizes(w, b, mask)
    modifies mask
    ensures forall x: nat, y: nat :: IsMasked(mask[..], x, y) <==>
      IsMasked(old(mask[..]), x, y) || (x <= y && Dark(w, b[..], x, y)) || (y <= x && Dark(w, b[..], y, x))
  {
    hide IsMasked, Dark;
    ghost var dark := b[..];
    for e := 0 to w
      invariant b[..] == dark
      invariant forall x: nat, y: nat :: IsMasked(mask[..], x, y) <==>
        IsMasked(old(mask[..]), x, y) || Synced(w, dark, e, 0, x, y) || Synced(w, dark, e, 0, y, x)
    {
      for t := 0 to e + 1
        invariant b[..] == dark
        invariant forall x: nat, y: nat :: IsMasked(mask[..], x, y) <==>
          IsMasked(old(mask[..]), x, y) || Synced(w, dark, e, t, x, y) || Synced(w, dark, e, t, y, x)
      {
        IndexInMatrix(w, t, e);
        DarkAt(w, dark, t, e);
        if b[t + w * e] {
          SetMask(mask, w, t, e);
        }
      }
    }
    DarkInside(w, dark);
  }

  lemma DarkAt(w: nat, b: seq<bool>, x: nat, y: nat)
    requires x < w && y < w && 0 <= x + w * y < |b|
    ensures Dark(w, b, x, y) <==> b[x + w * y]
  {
  }

  lemma DarkInside(w: nat, b: seq<bool>)
    ensures forall x, y :: Dark(w, b, x, y) ==> 0 <= x < w && 0 <= y < w
  {
  }
}
