/** The QR symbol under construction: the encoder's fields and its passes over them. */
module QrFrame {
  import opened Arithmetic
  import opened Galois
  import opened BlockCode
  import opened BlockLayout
  import opened Interleaving
  import opened BitStream
  import opened ErrorCorrection
  import opened SymbolData
  import opened MaskPattern
  import opened Zigzag
  import Drawing
  import FunctionPatterns
  import opened DrawnPatterns
  import opened FormatReading
  import P = Packing
  import F = Finishing
  import opened Reading

  /** The number of bytes that fit into a symbol. */
  function Room(version: nat, l: Layout): int {
    l.MaxLength() - if version > 9 then 3 else 2
  }

  /** The smallest version whose symbol holds `length` bytes, or version 40. */
  method ChooseVersion(length: nat, level: nat) returns (version: nat, layout: Layout)
    ensures 1 <= version <= 40 && layout == LayoutOf(version, level)
    ensures version < 40 ==> length <= Room(version, layout)
    ensures forall v :: 1 <= v < version ==> length > Room(v, LayoutOf(v, level))
  {
    hide LayoutOf;
    version := 1;
    layout := LayoutOf(1, level);
    while version < 40 && length > layout.MaxLength() - 3 + (if version <= 9 then 1 else 0)
      invariant 1 <= version <= 40 && layout == LayoutOf(version, level)
      invariant forall v :: 1 <= v < version ==> length > Room(v, LayoutOf(v, level))
    {
      version := version + 1;
      layout := LayoutOf(version, level);
    }
  }

  /** The work area has room behind the data for the nibbles pushed out of it. */
  lemma RoomBehind(version: nat, l: Layout)
    requires Sound(version, l)
    ensures 3 < l.MaxLength() <= (if version < 10 then 257 else 4096)
    ensures l.MaxLength() + 2 < l.dataBlock + l.Total()
  {
    hide Layout.Total, Layout.MaxLength;
    Sizes(l);
    var b := l.Blocks();
    Multiple(1, l.eccBlock, b);
    if l.dataBlock == 1 {
      assert l.dataBlock * b == b;
    } else {
      assert b >= 1;
    }
  }

  class Frame {
    const version: nat
    const level: nat
    const layout: Layout
    const width: nat
    const polynomial: array<bv8>
    var ecc: array<bv8>
    const mask: array<bool>
    var stringBuffer: array<bv8>
    var buffer: array<bool>

    /** The sizes of the arrays, and that no two of them are the same. */
    ghost predicate Shape()
      reads this
    {
      && 1 <= version <= 40 && 1 <= level <= 4 && Sound(version, layout) && width == 17 + 4 * version && Wide(width)
      && polynomial.Length == layout.eccBlock + 1
      && ecc.Length >= layout.dataBlock + layout.Total() && mask.Length > (width + width * width) / 2
      && buffer.Length == width * width && buffer != mask
      && polynomial != ecc && polynomial as object != buffer && ecc as object != buffer
      && polynomial as object != mask && ecc as object != mask
      && stringBuffer as object != buffer
    }

    /** What drawing the function patterns leaves behind. */
    ghost predicate Drawn()
      requires Shape()
      reads this, buffer, mask
    {
      && JumpIsSafe(width, mask[..]) && P.ExitIsClear(width, mask[..])
      && !IsMasked(mask[..], width - 1, width - 1)
      && FormatReserved(width, mask[..])
      && Blank(width, mask[..], buffer[..]) && FormatLight(width, buffer[..])
      && 8 * layout.Total() <= CountFree(width, mask[..], End(width))
    }

    constructor (length: nat, level: nat)
      requires 1 <= level <= 4
      ensures Shape() && layout == LayoutOf(version, level) && this.level == level
      ensures version < 40 ==> length <= Room(version, layout)
      ensures forall v :: 1 <= v < version ==> length > Room(v, LayoutOf(v, level))
      ensures forall k :: 0 <= k < mask.Length ==> !mask[k]
      ensures forall k :: 0 <= k < buffer.Length ==> !buffer[k]
      ensures fresh(polynomial) && fresh(ecc) && fresh(mask) && fresh(buffer) && fresh(stringBuffer)
    {
      hide LayoutOf, Layout.Total, Layout.MaxLength;
      var v, l := ChooseVersion(length, level);
      var w := 17 + 4 * v;
      version, layout, width := v, l, w;
      this.level := level;
      polynomial := new bv8[l.eccBlock + 1](_ => 0);
      ecc := new bv8[l.dataBlock + l.Total()](_ => 0);
      mask := new bool[(w + w * w) / 2 + 1](_ => false);
      buffer := new bool[w * w](_ => false);
      stringBuffer := new bv8[0];
    }

    /** Draws the function patterns into an empty frame. */
    method DrawPatterns()
      requires Shape() && layout == LayoutOf(version, level)
      requires forall k :: 0 <= k < mask.Length ==> !mask[k]
      requires forall k :: 0 <= k < buffer.Length ==> !buffer[k]
      modifies buffer, mask
      ensures Shape() && Drawn() && AsDrawn(version, buffer[..], mask[..])
    {
      hide LayoutOf, Layout.Total, Layout.MaxLength, FunctionPatterns.DarkPattern, FunctionPatterns.Reserved, Drawing.Dark,
           IsMasked, CountFree, JumpIsSafe, Blank, FormatReserved, FormatLight, P.ExitIsClear, FunctionPatterns.AllClear, Wide;
      NothingDrawn(width, buffer[..], mask[..]);
      FunctionPatterns.Draw(buffer, mask, width, version);
      PatternsDrawn(version, level, buffer[..], mask[..]);
    }

    method ConvertBitStream(value: seq<bv8>)
      requires Shape()
      modifies this`stringBuffer, this`ecc, ecc
      ensures ecc == old(ecc) || fresh(ecc)
      ensures Shape() && fresh(stringBuffer) && stringBuffer != ecc && layout.MaxLength() <= stringBuffer.Length == ecc.Length
      ensures stringBuffer[..layout.MaxLength()] == DataCodewords(version, layout, value)
    {
      hide Codewords, Layout.Total, Layout.MaxLength, Kept;
      RoomBehind(version, layout);
      LoadBytes(value);
      var r := Slice(ecc);
      SymbolData.ConvertBitStream(r, version, layout.MaxLength(), |value|, value);
      stringBuffer := r;
    }

    static method Slice(a: array<bv8>) returns (r: array<bv8>)
      ensures fresh(r) && r[..] == a[..]
    {
      r := new bv8[a.Length](k requires 0 <= k < a.Length reads a => a[k]);
    }

    /** Copies the value into the work area, which grows for a value that is too long for it. */
    method LoadBytes(value: seq<bv8>)
      requires Shape()
      modifies this`ecc, ecc
      ensures ecc == old(ecc) || fresh(ecc)
      ensures Shape() && |value| <= ecc.Length && forall j :: 0 <= j < |value| ==> ecc[j] == value[j]
    {
      hide Layout.Total, Sound;
      if |value| > ecc.Length {
        ecc := new bv8[|value|](_ => 0);
      }
      var i := 0;
      while i < |value|
        invariant i <= |value| <= ecc.Length && Shape() && (ecc == old(ecc) || fresh(ecc))
        invariant forall j :: 0 <= j < i ==> ecc[j] == value[j]
      {
        ecc[i] := value[i];
        i := i + 1;
      }
    }

    /** Leaves in `polynomial` the logarithms of the coefficients of the product of (x + alpha^t)
        over all t below eccBlock. */
    method CalculatePolynomial()
      requires Shape()
      modifies polynomial
      ensures HoldsLogs(polynomial, layout.eccBlock)
    {
      hide Layout.Total, Layout.MaxLength, Coefficient, LogByte;
      polynomial[0] := 1;
      FirstCoefficient();
      var t := 0;
      while t < layout.eccBlock
        invariant t <= layout.eccBlock && Holds(polynomial, t)
      {
        MultiplyByRoot(polynomial, t);
        t := t + 1;
      }
      TakeLogs(polynomial, layout.eccBlock);
    }

    lemma FirstCoefficient()
      ensures Coefficient(0, 0) == 1
    {
    }

    method AppendEccToData()
      requires Shape() && HoldsLogs(polynomial, layout.eccBlock)
      requires stringBuffer != polynomial && stringBuffer.Length == ecc.Length
      modifies stringBuffer
      ensures BlocksDone(layout, stringBuffer[..], layout.Blocks())
      ensures layout.MaxLength() <= stringBuffer.Length
      ensures stringBuffer[..layout.MaxLength()] == old(stringBuffer[..layout.MaxLength()])
    {
      hide Layout.Total, Layout.MaxLength, Layout.Blocks, BlockDone, HoldsLogs;
      Sizes(layout);
      SymbolData.AppendEccToData(stringBuffer, polynomial, layout);
    }

    method InterleaveBlocks()
      requires Shape() && stringBuffer != ecc && stringBuffer.Length == ecc.Length
      modifies this`stringBuffer, ecc
      ensures Shape() && stringBuffer == ecc
      ensures stringBuffer[..layout.Total()] == Interleaved(layout, old(stringBuffer[..layout.Total()]))
    {
      hide Layout.Total, Layout.MaxLength, Interleaved;
      SymbolData.InterleaveBlocks(layout, ecc, stringBuffer);
      stringBuffer := ecc;
    }

    method Pack()
      requires Shape() && Drawn() && layout.Total() <= stringBuffer.Length
      modifies buffer
      ensures Shape() && Packed(width, mask[..], Bits(stringBuffer[..layout.Total()]), old(buffer[..]), buffer[..])
    {
      hide Layout.Total, Layout.MaxLength, JumpIsSafe, IsMasked, CountFree, Packed, Bits, Blank, FormatReserved, FormatLight,
           P.ExitIsClear;
      P.Pack(stringBuffer, layout.Total(), buffer, mask, width);
    }

    /** Chooses and applies a data mask and adds the format information. */
    method Finish(penalty: seq<bool> -> int) returns (pattern: nat)
      requires Shape()
      modifies this`buffer, buffer
      ensures buffer == old(buffer) || fresh(buffer)
      ensures buffer.Length == width * width && pattern < 8
      ensures F.Chosen(penalty, width, mask[..], old(buffer[..]), pattern)
      ensures F.Formatted(width, F.FinalFormat(level, pattern), 15,
                          Masked(pattern, width, mask[..], old(buffer[..])), buffer[..])
    {
      hide Masked, F.Chosen, F.Formatted, F.FinalFormat;
      var result, i := F.SearchMask(buffer, mask, width, penalty);
      F.WriteFormat(result, width, F.FinalFormat(level, i));
      buffer := result;
      pattern := i;
    }

    /** The passes in order. Whoever reads the finished symbol with the chosen pattern gets the value
        back, or the part of it that a version 40 symbol keeps. */
    method Encode(value: seq<bv8>, penalty: seq<bool> -> int) returns (pattern: nat)
      requires Shape() && Drawn()
      modifies this`stringBuffer, this`buffer, this`ecc, polynomial, ecc, buffer
      ensures pattern < 8
      ensures Carries(version, layout, width, mask[..], buffer[..], pattern, Kept(version, value, layout.MaxLength()))
      ensures buffer.Length == width * width && ShowsFormat(width, buffer[..], F.FinalFormat(level, pattern))
      ensures ReservedKept(width, mask[..], F.FinalFormat(level, pattern), old(buffer[..]), buffer[..])
    {
      hide Layout.Total, Layout.MaxLength, JumpIsSafe, IsMasked, CountFree, Packed, Bits, Blank, FormatReserved,
        P.ExitIsClear, Codewords, HoldsLogs, BlocksDone, Interleaved, Masked, F.Chosen, F.Formatted, F.FinalFormat,
        CarriesCodewords, Carries, LayoutOf, Kept, FormatLight, ShowsFormat, ReservedKept;
      Sizes(layout);
      ConvertBitStream(value);
      CalculatePolynomial();
      AppendEccToData();
      ghost var f := stringBuffer[..layout.Total()];
      BlocksInPrefix(layout, stringBuffer[..], layout.Total());
      InterleaveBlocks();
      ghost var blank := buffer[..];
      assert blank == old(buffer[..]) && mask[..] == old(mask[..]);
      Pack();
      ghost var packed := buffer[..];
      pattern := Finish(penalty);
      FinishedCarries(layout, width, mask[..], blank, packed, buffer[..], pattern,
                      F.FinalFormat(level, pattern), f, Bits(Interleaved(layout, f)));
      FormatShown(width, mask[..], Bits(Interleaved(layout, f)), blank, packed, buffer[..], pattern,
                  F.FinalFormat(level, pattern));
      ReservedIsKept(width, mask[..], Bits(Interleaved(layout, f)), blank, packed, buffer[..], pattern,
                     F.FinalFormat(level, pattern));
      ValueCarried(version, layout, width, mask[..], buffer[..], pattern, f, Kept(version, value, layout.MaxLength()));
    }
  }

  /** A symbol from beginning to end: for every value and level, reading it with the chosen pattern
      gives the value back, or the part of it that a version 40 symbol keeps. */
  method CreateSymbol(value: seq<bv8>, level: nat, penalty: seq<bool> -> int) returns (frame: Frame, pattern: nat)
    requires 1 <= level <= 4
    ensures fresh(frame) && pattern < 8 && 1 <= frame.version <= 40 && frame.layout == LayoutOf(frame.version, level)
    ensures Corrects(level, frame.layout)
    ensures Carries(frame.version, frame.layout, frame.width, frame.mask[..], frame.buffer[..], pattern,
                    Kept(frame.version, value, frame.layout.MaxLength()))
    ensures forall x: nat, y: nat :: IsMasked(frame.mask[..], x, y) <==> FunctionPatterns.Reserved(frame.version, x, y)
    ensures frame.width == Drawing.Width(frame.version) && frame.buffer.Length == frame.width * frame.width
    ensures frame.width >= 21 && ShowsFormat(frame.width, frame.buffer[..], F.FinalFormat(level, pattern))
    ensures ShowsPatterns(frame.version, frame.width, frame.buffer[..], F.FinalFormat(level, pattern))
    ensures frame.version < 40 ==> Kept(frame.version, value, frame.layout.MaxLength()) == value
    ensures frame.version == 40 ==> frame.layout.MaxLength() >= 3
    ensures frame.version == 40 ==>
              var room := frame.layout.MaxLength() - 3;
              Kept(40, value, room + 3) == if |value| <= room then value else value[..room]
    ensures forall v :: 1 <= v < frame.version ==> |value| > Room(v, LayoutOf(v, level))
  {
    hide LayoutOf, Corrects, Carries, Layout.MaxLength, Layout.Total, Kept, ShowsFormat, FunctionPatterns.Reserved, IsMasked,
         ReservedKept, ShowsPatterns, Drawing.Dark, FunctionPatterns.DarkPattern;
    frame := new Frame(|value|, level);
    if frame.version < 40 {
      KeptWhole(frame.version, frame.layout, value);
    }
    KeptPrefix(frame.version, frame.layout, value);
    frame.DrawPatterns();
    ghost var drawn := frame.buffer[..];
    pattern := frame.Encode(value, penalty);
    PatternsRemain(frame.version, drawn, frame.mask[..], frame.buffer[..], F.FinalFormat(level, pattern));
  }

  lemma KeptPrefix(version: nat, l: Layout, value: seq<bv8>)
    requires Sound(version, l)
    ensures l.MaxLength() >= 3
    ensures version == 40 ==> Kept(40, value, l.MaxLength())
                              == if |value| <= l.MaxLength() - 3 then value else value[..l.MaxLength() - 3]
  {
    hide Layout.MaxLength;
  }

  lemma KeptWhole(version: nat, l: Layout, value: seq<bv8>)
    requires Sound(version, l) && |value| <= Room(version, l)
    ensures Kept(version, value, l.MaxLength()) == value
  {
    hide Layout.MaxLength;
  }
}
