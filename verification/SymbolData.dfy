/** The passes that turn bytes into the codeword sequence of a symbol, in place on arrays. */
module SymbolData {
  import opened BlockCode
  import opened BlockLayout
  import opened Interleaving
  import opened BitStream
  import opened ErrorCorrection

  // ---------------------------------------------------------------- error correction of all blocks

  /** In the sequence s, the error-correction codewords of block b belong to its data codewords. */
  ghost predicate BlockDone(l: Layout, s: seq<bv8>, b: nat) {
    var d, n := DataStart(l, b), EccStart(l, b);
    l.eccBlock > 0 && d + DataLength(l, b) <= n && n + l.eccBlock <= |s| &&
    s[n..n + l.eccBlock] == Register(s[d..d + DataLength(l, b)], l.eccBlock)
  }

  /** Block b stays done when only a region behind it changes. */
  lemma BlockStaysDone(l: Layout, s: seq<bv8>, s': seq<bv8>, b: nat, i: nat)
    requires BlockDone(l, s, b) && |s| == |s'| && EccStart(l, b) + l.eccBlock <= i <= |s|
    requires forall j :: 0 <= j < i ==> s'[j] == s[j]
    ensures BlockDone(l, s', b)
  {
    hide Register, DataStart, EccStart;
    var d, n := DataStart(l, b), EccStart(l, b);
    assert s'[n..n + l.eccBlock] == s[n..n + l.eccBlock];
    assert s'[d..d + DataLength(l, b)] == s[d..d + DataLength(l, b)];
  }

  /** Block b's codewords lie inside the sequence, data before error correction. */
  lemma BlockBounds(l: Layout, b: nat)
    requires b < l.Blocks()
    ensures DataStart(l, b) + DataLength(l, b) == DataStart(l, b + 1) <= l.MaxLength()
    ensures l.MaxLength() <= EccStart(l, b)
    ensures EccStart(l, b) + l.eccBlock == EccStart(l, b + 1) <= l.Total()
  {
    hide DataStart, EccStart;
    NextBlock(l, b);
    BlocksOrdered(l, b + 1, l.Blocks());
    BlocksOrdered(l, 0, b);
    LastBlock(l);
    FirstBlock(l);
  }

  lemma FirstBlock(l: Layout)
    ensures EccStart(l, 0) == l.MaxLength() && DataStart(l, 0) == 0
  {
  }

  ghost predicate BlocksDone(l: Layout, s: seq<bv8>, count: nat) {
    forall b: nat :: b < count ==> BlockDone(l, s, b)
  }

  /** One block: its error-correction codewords are written, the finished blocks stay as they are. */
  method AppendBlock(h: array<bv8>, a: array<bv8>, l: Layout, b: nat, e: nat, len: nat, n: nat)
    requires a != h && a.Length == l.eccBlock + 1 && HoldsLogs(a, l.eccBlock) && l.eccBlock > 0
    requires l.MaxLength() <= l.Total() < h.Length && b < l.Blocks()
    requires e == DataStart(l, b) && len == DataLength(l, b) && n == EccStart(l, b)
    requires BlocksDone(l, h[..], b)
    modifies h
    ensures BlocksDone(l, h[..], b + 1)
    ensures h[..l.MaxLength()] == old(h[..l.MaxLength()])
  {
    hide Register, DataStart, EccStart, DataLength, HoldsLogs, BlockDone, Layout.MaxLength, Layout.Total;
    BlockBounds(l, b);
    ghost var was := h[..];
    AppendData(h, a, e, len, n, l.eccBlock);
    Settle(l, was, h[..], b);
  }

  lemma Settle(l: Layout, was: seq<bv8>, now: seq<bv8>, b: nat)
    requires l.eccBlock > 0 && b < l.Blocks() && |was| == |now| && l.Total() < |was|
    requires DataStart(l, b) + DataLength(l, b) <= EccStart(l, b) && EccStart(l, b) + l.eccBlock <= l.Total()
    requires l.MaxLength() <= EccStart(l, b)
    requires BlocksDone(l, was, b)
    requires forall j :: 0 <= j < |was| && !(EccStart(l, b) <= j < EccStart(l, b) + l.eccBlock) ==> now[j] == was[j]
    requires now[EccStart(l, b)..EccStart(l, b) + l.eccBlock]
          == Register(now[DataStart(l, b)..DataStart(l, b) + DataLength(l, b)], l.eccBlock)
    ensures BlocksDone(l, now, b + 1) && now[..l.MaxLength()] == was[..l.MaxLength()]
  {
    hide Register, DataStart, EccStart, DataLength, Layout.MaxLength, Layout.Total;
    forall c: nat | c < b
      ensures BlockDone(l, now, c)
    {
      BlockBounds(l, c);
      BlocksOrdered(l, c + 1, b);
      BlockStaysDone(l, was, now, c, EccStart(l, b));
    }
  }

  /** Every block's error-correction codewords, behind the data codewords of all blocks. */
  method AppendEccToData(h: array<bv8>, a: array<bv8>, l: Layout)
    requires a != h && a.Length == l.eccBlock + 1 && HoldsLogs(a, l.eccBlock) && l.eccBlock > 0
    requires l.MaxLength() <= l.Total() < h.Length
    modifies h
    ensures BlocksDone(l, h[..], l.Blocks())
    ensures h[..l.MaxLength()] == old(h[..l.MaxLength()])
  {
    hide DataStart, EccStart, DataLength, HoldsLogs, BlockDone, Layout.MaxLength, Layout.Total;
    var e, n := 0, l.MaxLength();
    var t := 0;
    Sizes(l);
    FirstBlock(l);
    while t < l.neccBlock1
      invariant t <= l.neccBlock1 && e == DataStart(l, t) && n == EccStart(l, t)
      invariant BlocksDone(l, h[..], t) && h[..l.MaxLength()] == old(h[..l.MaxLength()])
    {
      NextBlock(l, t);
      LengthOf(l, t);
      AppendBlock(h, a, l, t, e, l.dataBlock, n);
      e := e + l.dataBlock;
      n := n + l.eccBlock;
      t := t + 1;
    }
    t := 0;
    while t < l.neccBlock2
      invariant t <= l.neccBlock2
      invariant e == DataStart(l, l.neccBlock1 + t) && n == EccStart(l, l.neccBlock1 + t)
      invariant BlocksDone(l, h[..], l.neccBlock1 + t) && h[..l.MaxLength()] == old(h[..l.MaxLength()])
    {
      NextBlock(l, l.neccBlock1 + t);
      LengthOf(l, l.neccBlock1 + t);
      AppendBlock(h, a, l, l.neccBlock1 + t, e, l.dataBlock + 1, n);
      e := e + l.dataBlock + 1;
      n := n + l.eccBlock;
      t := t + 1;
    }
  }

  lemma LengthOf(l: Layout, b: nat)
    ensures DataLength(l, b) == if b < l.neccBlock1 then l.dataBlock else l.dataBlock + 1
  {
  }

  // ---------------------------------------------------------------- interleaving

  /** The first r entries of n are in placement order. */
  ghost predicate Placed(l: Layout, n: array<bv8>, f: array<bv8>, r: nat)
    requires l.Blocks() > 0
    reads n, f
  {
    r <= l.Total() <= n.Length && l.Total() <= f.Length &&
    forall k :: 0 <= k < r ==> Source(l, k) < l.Total() && n[k] == f[Source(l, k)]
  }

  lemma StartOf(l: Layout, e: nat)
    ensures e < l.neccBlock1 ==> DataStart(l, e) == e * l.dataBlock
    ensures DataStart(l, l.neccBlock1 + e) == l.neccBlock1 * l.dataBlock + e * (l.dataBlock + 1)
  {
  }

  method PlaceOne(l: Layout, n: array<bv8>, f: array<bv8>, r: nat, p: nat)
    requires n != f && l.Blocks() > 0 && Placed(l, n, f, r) && r < l.Total() && p == Source(l, r)
    modifies n
    ensures Placed(l, n, f, r + 1)
  {
    hide Source, Layout.Total, Layout.MaxLength, Layout.Blocks;
    SourceSide(l, r);
    n[r] := f[p];
  }

  /** Column t of the data codewords: one codeword of every block. */
  method PlaceDataColumn(l: Layout, n: array<bv8>, f: array<bv8>, t: nat, r: nat) returns (r': nat)
    requires n != f && l.Blocks() > 0 && Placed(l, n, f, r) && t < l.dataBlock && r == t * l.Blocks()
    modifies n
    ensures Placed(l, n, f, r') && r' == (t + 1) * l.Blocks()
  {
    hide Source, Layout.Total, Layout.MaxLength, DataStart, Placed;
    r' := r;
    var e := 0;
    while e < l.neccBlock1
      invariant e <= l.neccBlock1 && r' == t * l.Blocks() + e && Placed(l, n, f, r')
    {
      DataSlotSource(l, e, t);
      StartOf(l, e);
      PlaceOne(l, n, f, r', t + e * l.dataBlock);
      r' := r' + 1;
      e := e + 1;
    }
    e := 0;
    while e < l.neccBlock2
      invariant e <= l.neccBlock2 && r' == t * l.Blocks() + l.neccBlock1 + e && Placed(l, n, f, r')
    {
      DataSlotSource(l, l.neccBlock1 + e, t);
      StartOf(l, e);
      PlaceOne(l, n, f, r', l.neccBlock1 * l.dataBlock + t + e * (l.dataBlock + 1));
      r' := r' + 1;
      e := e + 1;
    }
  }

  /** The last data codewords of the longer blocks. */
  method PlaceLastColumn(l: Layout, n: array<bv8>, f: array<bv8>, r: nat) returns (r': nat)
    requires n != f && l.Blocks() > 0 && Placed(l, n, f, r) && r == l.dataBlock * l.Blocks()
    modifies n
    ensures Placed(l, n, f, r') && r' == l.MaxLength()
  {
    hide Source, Layout.Total, Layout.MaxLength, DataStart, Placed;
    Sizes(l);
    r' := r;
    var t, e := l.dataBlock, 0;
    while e < l.neccBlock2
      invariant e <= l.neccBlock2 && r' == l.dataBlock * l.Blocks() + e && Placed(l, n, f, r')
    {
      DataSlotSource(l, l.neccBlock1 + e, t);
      StartOf(l, e);
      PlaceOne(l, n, f, r', l.neccBlock1 * l.dataBlock + t + e * (l.dataBlock + 1));
      r' := r' + 1;
      e := e + 1;
    }
  }

  /** Column t of the error-correction codewords. */
  method PlaceEccColumn(l: Layout, n: array<bv8>, f: array<bv8>, t: nat, r: nat) returns (r': nat)
    requires n != f && l.Blocks() > 0 && Placed(l, n, f, r)
    requires t < l.eccBlock && r == l.MaxLength() + t * l.Blocks()
    modifies n
    ensures Placed(l, n, f, r') && r' == l.MaxLength() + (t + 1) * l.Blocks()
  {
    hide Source, Layout.Total, Layout.MaxLength, Placed;
    r' := r;
    var e := 0;
    while e < l.neccBlock1 + l.neccBlock2
      invariant e <= l.Blocks() && r' == l.MaxLength() + t * l.Blocks() + e && Placed(l, n, f, r')
    {
      EccSlotSource(l, e, t);
      PlaceOne(l, n, f, r', l.MaxLength() + t + e * l.eccBlock);
      r' := r' + 1;
      e := e + 1;
    }
  }

  /** Moves the codewords of all blocks into placement order. */
  method InterleaveBlocks(l: Layout, n: array<bv8>, f: array<bv8>)
    requires n != f && l.Blocks() > 0 && l.Total() <= n.Length && l.Total() <= f.Length
    modifies n
    ensures n[..l.Total()] == Interleaved(l, f[..l.Total()])
  {
    hide Source, Layout.Total, Layout.MaxLength, Layout.Blocks;
    Sizes(l);
    var r, t := 0, 0;
    while t < l.dataBlock
      invariant t <= l.dataBlock && r == t * l.Blocks() && Placed(l, n, f, r)
    {
      r := PlaceDataColumn(l, n, f, t, r);
      t := t + 1;
    }
    r := PlaceLastColumn(l, n, f, r);
    t := 0;
    while t < l.eccBlock
      invariant t <= l.eccBlock && r == l.MaxLength() + t * l.Blocks() && Placed(l, n, f, r)
    {
      r := PlaceEccColumn(l, n, f, t, r);
      t := t + 1;
    }
  }

  // ---------------------------------------------------------------- the bit stream

  /** What a symbol of this capacity keeps of the value. */
  function Kept(version: nat, value: seq<bv8>, capacity: nat): (t: seq<bv8>)
    requires capacity >= 3
    ensures |t| + 3 <= capacity + (if version > 9 then 0 else 1)
    ensures |value| + 3 <= capacity + (if version > 9 then 0 else 1) ==> t == value
  {
    var room := capacity - (if version > 9 then 3 else 2);
    if |value| <= room then value else value[..room]
  }

  /** The data codewords of a symbol. */
  function DataCodewords(version: nat, l: Layout, value: seq<bv8>): (s: seq<bv8>)
    requires Sound(version, l)
    ensures |s| == l.MaxLength()
  {
    hide Layout.MaxLength, Codewords;
    Codewords(version, Kept(version, value, l.MaxLength()), l.MaxLength())
  }

  /** Moves the first t bytes up by k bytes and a half, in place and from the back. */
  method MoveNibbles(r: array<bv8>, t: nat, k: nat, ghost x: seq<bv8>)
    requires 0 < k && t + k + 1 < r.Length && |x| == t + k + 2 && x[t + k + 1] == 0
    requires forall j :: 0 <= j < t ==> r[j] == x[j + k + 1]
    modifies r
    ensures forall j :: k < j <= t + k ==> r[j] == Join(x[j], x[j + 1])
    ensures r[k] == x[k + 1] >> 4
  {
    hide Join;
    var a := t;
    r[a + k], r[a + k + 1] := 0, 0;
    ZeroNibble();
    while a > 0
      invariant 0 <= a <= t
      invariant forall j :: 0 <= j < a ==> r[j] == x[j + k + 1]
      invariant forall j :: a + k < j <= t + k ==> r[j] == Join(x[j], x[j + 1])
      invariant r[a + k] == x[a + k + 1] >> 4
    {
      a := a - 1;
      var e := r[a];
      NibblesJoin(e, x[a + k + 2]);
      r[a + k + 1] := r[a + k + 1] | (e << 4);
      r[a + k] := e >> 4;
    }
  }

  lemma ZeroNibble()
    ensures 0 as bv8 >> 4 == 0
  {
  }

  lemma NibblesJoin(e: bv8, next: bv8)
    ensures (next >> 4) | (e << 4) == Join(e, next)
  {
  }

  /** The first n bytes of r are x moved up by half a byte. */
  ghost predicate Moved(r: array<bv8>, x: seq<bv8>, from: nat)
    reads r
  {
    0 < |x| <= r.Length && forall j :: from <= j < |x| - 1 ==> r[j] == Join(x[j], x[j + 1])
  }

  /** A 16-bit count and the mode indicator, in front of the moved bytes. */
  method WriteLongHeader(r: array<bv8>, t: nat, ghost x: seq<bv8>)
    requires t < 4096 && |x| > 3 && x[0] == 4 && x[1] == High(t) && x[2] == Low(t)
    requires Moved(r, x, 3) && r[2] == x[3] >> 4
    modifies r
    ensures Moved(r, x, 0)
  {
    hide Join, Word, High, Low;
    WordParts(t);
    NibblesJoin(x[2], x[3]);
    r[2] := r[2] | ((Word(t) << 4) & 0xFF) as bv8;
    r[1] := (Word(t) >> 4) as bv8;
    r[0] := 0x40 | (Word(t) >> 12) as bv8;
  }

  /** An 8-bit count and the mode indicator. */
  method WriteShortHeader(r: array<bv8>, t: nat, ghost x: seq<bv8>)
    requires t < 256 && |x| > 2 && x[0] == 4 && x[1] == Low(t)
    requires Moved(r, x, 2) && r[1] == x[2] >> 4
    modifies r
    ensures Moved(r, x, 0)
  {
    hide Join, Word, High, Low;
    WordShort(t);
    NibblesJoin(x[1], x[2]);
    r[1] := r[1] | ((Word(t) << 4) & 0xFF) as bv8;
    r[0] := 0x40 | (Word(t) >> 4) as bv8;
  }

  lemma UnshiftedBytes(version: nat, v: seq<bv8>)
    requires |v| < 65536
    ensures var x, k := Unshifted(version, v), if version > 9 then 2 else 1;
            && |x| == |v| + k + 2 && x[0] == 4 && x[|v| + k + 1] == 0
            && (if version > 9 then x[1] == High(|v|) && x[2] == Low(|v|) else x[1] == Low(|v|))
            && forall j :: 0 <= j < |v| ==> x[j + k + 1] == v[j]
  {
    hide High, Low;
  }

  /** Fills the rest of the capacity with the two padding bytes, perhaps writing one too many. */
  method WritePadding(r: array<bv8>, from: nat, o: nat)
    requires from <= o < r.Length
    modifies r
    ensures forall j :: from <= j < o ==> r[j] == PadByte(j - from)
    ensures forall j :: 0 <= j < from ==> r[j] == old(r[j])
  {
    var a := from;
    while a < o
      invariant from <= a <= o + 1 && (a - from) % 2 == 0
      invariant forall j :: from <= j < a && j < o ==> r[j] == PadByte(j - from)
      invariant forall j :: 0 <= j < from ==> r[j] == old(r[j])
    {
      r[a] := 236;
      a := a + 1;
      r[a] := 17;
      a := a + 1;
    }
  }

  /** Turns the bytes at the front of r into the data codewords of a symbol of capacity o. */
  method ConvertBitStream(r: array<bv8>, version: nat, o: nat, length: nat, ghost value: seq<bv8>)
    requires 3 < o <= (if version < 10 then 257 else 4096) && o + 2 < r.Length
    requires |value| == length <= r.Length && forall j :: 0 <= j < length ==> r[j] == value[j]
    modifies r
    ensures r[..o] == Codewords(version, Kept(version, value, o), o)
  {
    hide Codewords, PadByte, Join;
    var t := length;
    if t >= o - 2 {
      t := o - 2;
      if version > 9 {
        t := t - 1;
      }
    }
    WriteStream(r, version, o, t, Kept(version, value, o));
  }

  method WriteStream(r: array<bv8>, version: nat, o: nat, t: nat, ghost v: seq<bv8>)
    requires |v| == t < (if version > 9 then 4096 else 256) && o + 2 < r.Length
    requires t + 3 <= o + (if version > 9 then 0 else 1)
    requires forall j :: 0 <= j < t ==> r[j] == v[j]
    modifies r
    ensures r[..o] == Codewords(version, v, o)
  {
    hide Join, Unshifted, PadByte, Codewords;
    MoveBytes(r, version, t, Unshifted(version, v), v);
    WritePadding(r, t + 3 - (if version < 10 then 1 else 0), o);
    FinishStream(r[..o], version, v, o);
  }

  method MoveBytes(r: array<bv8>, version: nat, t: nat, ghost x: seq<bv8>, ghost v: seq<bv8>)
    requires |v| == t < (if version > 9 then 4096 else 256) && t + 4 < r.Length && x == Unshifted(version, v)
    requires forall j :: 0 <= j < t ==> r[j] == v[j]
    modifies r
    ensures forall j :: 0 <= j < |x| - 1 ==> r[j] == Join(x[j], x[j + 1])
  {
    hide Join, Unshifted, High, Low;
    UnshiftedBytes(version, v);
    if version > 9 {
      MoveNibbles(r, t, 2, x);
      WriteLongHeader(r, t, x);
    } else {
      MoveNibbles(r, t, 1, x);
      WriteShortHeader(r, t, x);
    }
  }

  lemma FinishStream(r: seq<bv8>, version: nat, v: seq<bv8>, o: nat)
    requires |r| == o && |v| < 65536 && |v| + 3 <= o + (if version > 9 then 0 else 1)
    requires var x := Unshifted(version, v); forall j :: 0 <= j < |x| - 1 ==> r[j] == Join(x[j], x[j + 1])
    requires var n := |v| + (if version > 9 then 3 else 2); forall j :: n <= j < o ==> r[j] == PadByte(j - n)
    ensures r == Codewords(version, v, o)
  {
    hide Join, PadByte, Unshifted;
    var x := Unshifted(version, v);
    var c := Codewords(version, v, o);
    forall j | 0 <= j < o
      ensures r[j] == c[j]
    {
      if j < |x| - 1 {
        assert c[j] == Shifted(x)[j];
      } else {
        assert c[j] == PadByte(j - (|x| - 1));
      }
    }
  }
}
