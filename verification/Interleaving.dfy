/** The order of the codewords in a symbol, section 7.6 of ISO/IEC 18004:2015: the first codeword
    of every block, then the second of every block, and so on. */
module Interleaving {
  import opened Arithmetic
  import opened BlockLayout

  function DataLength(l: Layout, b: nat): nat {
    if b < l.neccBlock1 then l.dataBlock else l.dataBlock + 1
  }

  /** Where block b's data codewords start in the uninterleaved sequence. */
  function DataStart(l: Layout, b: nat): nat {
    if b < l.neccBlock1 then b * l.dataBlock
    else l.neccBlock1 * l.dataBlock + (b - l.neccBlock1) * (l.dataBlock + 1)
  }

  /** Where block b's error-correction codewords start. */
  function EccStart(l: Layout, b: nat): nat {
    l.MaxLength() + b * l.eccBlock
  }

  /** The place in the uninterleaved sequence of the r-th codeword of the symbol: full data columns,
      the column of the longer blocks, error-correction columns. */
  function Source(l: Layout, r: nat): nat
    requires l.Blocks() > 0
  {
    Sizes(l);
    SourceIn(l, r, l.dataBlock * l.Blocks(), l.MaxLength())
  }

  function SourceIn(l: Layout, r: nat, columns: nat, data: nat): nat
    requires l.Blocks() > 0 && columns <= data
  {
    Naturals(r, l.Blocks());
    Naturals(r - data, l.Blocks());
    if r < columns then DataStart(l, r % l.Blocks()) + r / l.Blocks()
    else if r < data then DataStart(l, l.neccBlock1 + (r - columns)) + l.dataBlock
    else EccStart(l, (r - data) % l.Blocks()) + (r - data) / l.Blocks()
  }

  lemma Naturals(x: int, n: nat)
    requires n > 0
    ensures x >= 0 ==> x / n >= 0
    ensures 0 <= x % n < n
  {
  }

  lemma Sizes(l: Layout)
    ensures l.MaxLength() == l.dataBlock * l.Blocks() + l.neccBlock2
    ensures l.MaxLength() == l.neccBlock1 * l.dataBlock + l.neccBlock2 * (l.dataBlock + 1)
    ensures l.Total() == l.MaxLength() + l.eccBlock * l.Blocks()
    ensures l.dataBlock * l.Blocks() >= 0 && l.eccBlock * l.Blocks() >= 0 && l.neccBlock1 * l.dataBlock >= 0
  {
  }

  /** The place in the symbol of codeword c of block b. */
  function DataSlot(l: Layout, b: nat, c: nat): int {
    if c < l.dataBlock then c * l.Blocks() + b else l.dataBlock * l.Blocks() + b - l.neccBlock1
  }

  function EccSlot(l: Layout, b: nat, c: nat): int {
    l.MaxLength() + c * l.Blocks() + b
  }

  // ---------------------------------------------------------------- the blocks lie side by side

  lemma NextBlock(l: Layout, b: nat)
    ensures DataStart(l, b + 1) == DataStart(l, b) + DataLength(l, b)
    ensures EccStart(l, b + 1) == EccStart(l, b) + l.eccBlock
    ensures DataStart(l, 0) == 0
  {
  }

  lemma LastBlock(l: Layout)
    ensures DataStart(l, l.Blocks()) == l.MaxLength()
    ensures EccStart(l, l.Blocks()) == l.Total()
  {
  }

  lemma {:induction false} BlocksOrdered(l: Layout, a: nat, b: nat)
    requires a <= b
    ensures DataStart(l, a) <= DataStart(l, b) && EccStart(l, a) <= EccStart(l, b)
    decreases b - a
  {
    if a < b {
      NextBlock(l, a);
      BlocksOrdered(l, a + 1, b);
    }
  }

  /** A data position of the uninterleaved sequence belongs to one codeword of one block. */
  lemma DataBlockOf(l: Layout, p: nat) returns (b: nat, c: nat)
    requires p < l.MaxLength()
    ensures b < l.Blocks() && c < DataLength(l, b) && p == DataStart(l, b) + c
  {
    Sizes(l);
    if p < l.neccBlock1 * l.dataBlock {
      b, c := Split(p, l.neccBlock1, l.dataBlock);
    } else {
      b, c := Split(p - l.neccBlock1 * l.dataBlock, l.neccBlock2, l.dataBlock + 1);
      b := l.neccBlock1 + b;
    }
  }

  lemma EccBlockOf(l: Layout, p: nat) returns (b: nat, c: nat)
    requires l.MaxLength() <= p < l.Total()
    ensures b < l.Blocks() && c < l.eccBlock && p == EccStart(l, b) + c
  {
    Sizes(l);
    b, c := Split(p - l.MaxLength(), l.Blocks(), l.eccBlock);
  }

  // ---------------------------------------------------------------- slots

  /** The slot of a codeword is in range and holds that codeword. */
  lemma DataSlotSource(l: Layout, b: nat, c: nat)
    requires b < l.Blocks() && c < DataLength(l, b)
    ensures 0 <= DataSlot(l, b, c) < l.MaxLength() <= l.Total()
    ensures Source(l, DataSlot(l, b, c)) == DataStart(l, b) + c
  {
    hide DataStart;
    Sizes(l);
    if c < l.dataBlock {
      DivMod(c, l.Blocks(), b);
      Below(c, l.dataBlock, l.Blocks(), b);
    }
  }

  lemma EccSlotSource(l: Layout, b: nat, c: nat)
    requires b < l.Blocks() && c < l.eccBlock
    ensures l.MaxLength() <= EccSlot(l, b, c) < l.Total()
    ensures Source(l, EccSlot(l, b, c)) == EccStart(l, b) + c
  {
    hide DataStart, EccStart;
    Sizes(l);
    DivMod(c, l.Blocks(), b);
    Below(c, l.eccBlock, l.Blocks(), b);
  }

  /** Every place of the uninterleaved sequence is the source of some slot. */
  lemma SourceOnto(l: Layout, p: nat) returns (r: nat)
    requires p < l.Total()
    ensures r < l.Total() && l.Blocks() > 0 && Source(l, r) == p
    ensures r < l.MaxLength() <==> p < l.MaxLength()
  {
    if p < l.MaxLength() {
      var b, c := DataBlockOf(l, p);
      DataSlotSource(l, b, c);
      r := DataSlot(l, b, c);
    } else {
      var b, c := EccBlockOf(l, p);
      EccSlotSource(l, b, c);
      r := EccSlot(l, b, c);
    }
  }

  /** The codeword a slot holds: every slot is some codeword's slot. */
  lemma SlotOf(l: Layout, r: nat) returns (b: nat, c: nat)
    requires r < l.Total() && l.Blocks() > 0
    ensures b < l.Blocks()
    ensures r < l.MaxLength() ==>
      c < DataLength(l, b) && DataSlot(l, b, c) == r && Source(l, r) == DataStart(l, b) + c < DataStart(l, b + 1)
    ensures r >= l.MaxLength() ==>
      c < l.eccBlock && EccSlot(l, b, c) == r && Source(l, r) == EccStart(l, b) + c < EccStart(l, b + 1)
  {
    hide DataStart, EccStart, Layout.MaxLength, Layout.Total;
    Sizes(l);
    if r < l.dataBlock * l.Blocks() {
      c, b := Split(r, l.dataBlock, l.Blocks());
      NextBlock(l, b);
    } else if r < l.MaxLength() {
      b, c := l.neccBlock1 + (r - l.dataBlock * l.Blocks()), l.dataBlock;
      NextBlock(l, b);
    } else {
      c, b := Split(r - l.MaxLength(), l.eccBlock, l.Blocks());
      NextBlock(l, b);
    }
  }

  /** No codeword is placed twice. */
  lemma SourceInjective(l: Layout, r: nat, s: nat)
    requires r < l.Total() && s < l.Total() && l.Blocks() > 0
    requires Source(l, r) == Source(l, s)
    ensures r == s
  {
    hide Source, DataSlot, EccSlot;
    var b, c := SlotOf(l, r);
    var b', c' := SlotOf(l, s);
    SourceSide(l, r);
    SourceSide(l, s);
    if b < b' {
      BlocksOrdered(l, b + 1, b');
    } else if b' < b {
      BlocksOrdered(l, b' + 1, b);
    }
  }

  lemma SourceSide(l: Layout, r: nat)
    requires r < l.Total() && l.Blocks() > 0
    ensures Source(l, r) < l.Total()
    ensures Source(l, r) < l.MaxLength() <==> r < l.MaxLength()
  {
    hide Source, DataSlot, EccSlot;
    var b, c := SlotOf(l, r);
    BlocksOrdered(l, b + 1, l.Blocks());
    LastBlock(l);
  }

  // ---------------------------------------------------------------- interleaving a sequence

  /** The symbol's codewords in placement order. */
  ghost function Interleaved<T>(l: Layout, f: seq<T>): (s: seq<T>)
    requires |f| == l.Total() && l.Blocks() > 0
    ensures |s| == |f|
  {
    seq(|f|, r requires 0 <= r < |f| => SourceSide(l, r); f[Source(l, r)])
  }

  /** Interleaving loses nothing: the original sequence is read back slot by slot. */
  lemma InterleavedInjective<T>(l: Layout, f: seq<T>, g: seq<T>)
    requires |f| == |g| == l.Total() && l.Blocks() > 0
    requires Interleaved(l, f) == Interleaved(l, g)
    ensures f == g
  {
    hide Source;
    forall p: nat | p < |f|
      ensures f[p] == g[p]
    {
      var r := SourceOnto(l, p);
      assert Interleaved(l, f)[r] == f[p] && Interleaved(l, g)[r] == g[p];
    }
  }
}
