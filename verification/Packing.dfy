/** Placing the codeword bits in the symbol, in place. */
module Packing {
  import opened MaskPattern
  import opened Zigzag
  import opened BitStream

  /** The cursor of the walk: column o, row a, direction n, side s. */
  ghost predicate CursorAt(w: nat, p: Place, o: int, a: int, n: bool, s: bool) {
    o == Column(w, p) && a == Row(w, p) && (n <==> Upwards(p.pair)) && (s <==> p.right)
  }

  /** The place behind the last module; its column is -1. */
  ghost function Exit(w: nat): Place {
    Place(Pairs(w), 0, true)
  }

  /** The walk stops when it leaves the matrix: the mask bit that its cursor then reads is clear. */
  ghost predicate ExitIsClear(w: nat, mask: seq<bool>) {
    !IsMasked(mask, Column(w, Exit(w)), Row(w, Exit(w)))
  }

  /** One move of the cursor. */
  method Move(w: nat, o: int, a: int, n: bool, s: bool, ghost p: Place) returns (o': int, a': int, n': bool, s': bool)
    requires Wide(w) && InWalk(w, p) && CursorAt(w, p, o, a, n, s)
    ensures CursorAt(w, Next(w, p), o', a', n', s')
  {
    o', a', n' := o, a, n;
    if s {
      o' := o' - 1;
    } else {
      o' := o' + 1;
      if n {
        if a != 0 {
          a' := a' - 1;
        } else {
          n' := !n;
          o' := o' - 2;
          if o' == 6 {
            o' := o' - 1;
            a' := 9;
          }
        }
      } else if a != w - 1 {
        a' := a' + 1;
      } else {
        n' := !n;
        o' := o' - 2;
        if o' == 6 {
          o' := o' - 1;
          a' := a' - 8;
        }
      }
    }
    s' := !s;
  }

  lemma PlaceOfRank(w: nat, p: Place)
    requires InWalk(w, p)
    ensures Rank(w, p) < End(w) && PlaceAt(w, Rank(w, p)) == p
  {
    hide PlaceAt;
    RankBelowEnd(w, p);
    RankInjective(w, p, PlaceAt(w, Rank(w, p)));
  }

  lemma ExitRank(w: nat)
    ensures Rank(w, Exit(w)) == End(w)
  {
  }

  /** Moves on to the next module that takes a bit, or out of the matrix. */
  method NextModule(w: nat, mask: array<bool>, o: int, a: int, n: bool, s: bool, ghost p: Place)
    returns (o': int, a': int, n': bool, s': bool, ghost q: Place)
    requires Wide(w) && InWalk(w, p) && CursorAt(w, p, o, a, n, s)
    requires JumpIsSafe(w, mask[..]) && ExitIsClear(w, mask[..])
    ensures CursorAt(w, q, o', a', n', s')
    ensures Rank(w, p) < Rank(w, q) <= End(w)
    ensures CountFree(w, mask[..], Rank(w, q)) == CountFree(w, mask[..], Rank(w, p) + 1)
    ensures (Rank(w, q) < End(w) && InWalk(w, q) && Free(w, mask[..], Rank(w, q))) || Rank(w, q) == End(w)
  {
    hide CountFree, JumpIsSafe, IsMasked, Column, Row, Next, Rank, InWalk, PlaceAt;
    PlaceOfRank(w, p);
    NextPlace(w, p);
    NextSkipsNothing(w, mask[..], p);
    q := Next(w, p);
    o', a', n', s' := Move(w, o, a, n, s, p);
    while IsMasked(mask[..], o', a')
      invariant CursorAt(w, q, o', a', n', s') && (InWalk(w, q) || q == Exit(w))
      invariant Rank(w, p) < Rank(w, q) <= End(w)
      invariant CountFree(w, mask[..], Rank(w, q)) == CountFree(w, mask[..], Rank(w, p) + 1)
      decreases End(w) - Rank(w, q)
    {
      PlaceOfRank(w, q);
      NextPlace(w, q);
      NextSkipsNothing(w, mask[..], q);
      Skipped(w, mask[..], q);
      o', a', n', s' := Move(w, o', a', n', s', q);
      q := Next(w, q);
    }
    if InWalk(w, q) {
      PlaceOfRank(w, q);
    } else {
      ExitRank(w);
    }
  }

  lemma NextPlace(w: nat, p: Place)
    requires Wide(w) && InWalk(w, p)
    ensures InWalk(w, Next(w, p)) || Next(w, p) == Exit(w)
    ensures Rank(w, Next(w, p)) > Rank(w, p)
  {
    NextRank(w, p);
  }

  lemma Skipped(w: nat, mask: seq<bool>, p: Place)
    requires InWalk(w, p) && IsMasked(mask, Column(w, p), Row(w, p))
    ensures Rank(w, p) < End(w) && CountFree(w, mask, Rank(w, p) + 1) == CountFree(w, mask, Rank(w, p))
  {
    hide IsMasked, Column, Row;
    PlaceOfRank(w, p);
  }

  // ---------------------------------------------------------------- packing all bits

  lemma {:induction false} BitOfByte(s: seq<bv8>, e: nat, i: nat)
    requires e < |s| && i < 8
    ensures Bits(s)[8 * e + i] == BitsOfByte(s[e])[i]
  {
    hide BitsOfByte;
    if e < |s| - 1 {
      BitOfByte(s[..|s| - 1], e, i);
    }
  }

  lemma TopBit(b: bv8)
    ensures BitsOfByte(b)[0] == (b & 0x80 != 0)
    ensures BitsOfByte(b << 1)[..7] == BitsOfByte(b)[1..]
  {
    assert (b << 1) & 0x80 != 0 <==> b & 0x40 != 0;
    assert (b << 1) & 0x40 != 0 <==> b & 0x20 != 0;
    assert (b << 1) & 0x20 != 0 <==> b & 0x10 != 0;
    assert (b << 1) & 0x10 != 0 <==> b & 8 != 0;
    assert (b << 1) & 8 != 0 <==> b & 4 != 0;
    assert (b << 1) & 4 != 0 <==> b & 2 != 0;
    assert (b << 1) & 2 != 0 <==> b & 1 != 0;
  }

  /** The cursor stands on the module that receives bit number i, if there is one. */
  ghost predicate Ready(w: nat, mask: seq<bool>, p: Place, i: nat, total: nat) {
    i < total ==> InWalk(w, p) && Receives(w, mask, Rank(w, p), i)
  }

  /** Places bit number i and moves on. */
  method PackBit(w: nat, r: array<bool>, mask: array<bool>, bit: bool, o: int, a: int, n: bool, s: bool,
                 ghost p: Place, ghost bits: seq<bool>, ghost i: nat, ghost was: seq<bool>)
    returns (o': int, a': int, n': bool, s': bool, ghost q: Place)
    requires r != mask && Wide(w) && r.Length == w * w
    requires JumpIsSafe(w, mask[..]) && ExitIsClear(w, mask[..])
    requires |bits| <= CountFree(w, mask[..], End(w)) && i < |bits| && bit == bits[i]
    requires CursorAt(w, p, o, a, n, s) && Ready(w, mask[..], p, i, |bits|)
    requires Packed(w, mask[..], bits[..i], was, r[..])
    modifies r
    ensures CursorAt(w, q, o', a', n', s') && Ready(w, mask[..], q, i + 1, |bits|)
    ensures Packed(w, mask[..], bits[..i + 1], was, r[..])
  {
    hide CountFree, JumpIsSafe, IsMasked, Column, Row, Rank, InWalk, PlaceAt, Packed, Wide, Free, End, CursorAt;
    Locate(w, p, o, a, n, s);
    ghost var before := r[..];
    if bit {
      r[o + w * a] := true;
    }
    Update(w, mask[..], bits, i, p, was, before, r[..]);
    o', a', n', s', q := NextModule(w, mask, o, a, n, s, p);
    NowReady(w, mask[..], p, q, i, |bits|);
  }

  lemma Locate(w: nat, p: Place, o: int, a: int, n: bool, s: bool)
    requires Wide(w) && InWalk(w, p) && CursorAt(w, p, o, a, n, s)
    ensures o + w * a == IndexOf(w, p) && 0 <= o + w * a < w * w
  {
    IndexInMatrix(w, p);
  }

  lemma NowReady(w: nat, mask: seq<bool>, p: Place, q: Place, i: nat, total: nat)
    requires Rank(w, p) < Rank(w, q) <= End(w)
    requires Wide(w) && InWalk(w, p) && Receives(w, mask, Rank(w, p), i) && i < total <= CountFree(w, mask, End(w))
    requires CountFree(w, mask, Rank(w, q)) == CountFree(w, mask, Rank(w, p) + 1)
    requires (Rank(w, q) < End(w) && InWalk(w, q) && Free(w, mask, Rank(w, q))) || Rank(w, q) == End(w)
    ensures Ready(w, mask, q, i + 1, total)
  {
    hide Free, Rank, InWalk;
    if InWalk(w, q) {
      PlaceOfRank(w, q);
    }
  }

  lemma Update(w: nat, mask: seq<bool>, bits: seq<bool>, i: nat, p: Place, was: seq<bool>, before: seq<bool>, now: seq<bool>)
    requires Wide(w) && i < |bits| && InWalk(w, p) && Receives(w, mask, Rank(w, p), i)
    requires Packed(w, mask, bits[..i], was, before) && |now| == |before|
    requires 0 <= IndexOf(w, p) < w * w
    requires now == if bits[i] then before[IndexOf(w, p) := true] else before
    ensures Packed(w, mask, bits[..i + 1], was, now)
  {
    hide BitAt, IndexOf, InWalk, Receives, Rank;
    assert bits[..i + 1] == bits[..i] + [bits[i]];
    forall idx: nat | idx < w * w
      ensures now[idx] == (was[idx] || BitAt(w, mask, bits[..i + 1], idx))
    {
      PackOne(w, mask, bits[..i], bits[i], p, idx);
      PackedBitIsNew(w, mask, bits[..i], p);
    }
  }

  /** The receiving module has not been given a bit before. */
  lemma PackedBitIsNew(w: nat, mask: seq<bool>, bits: seq<bool>, p: Place)
    requires Wide(w) && InWalk(w, p) && Receives(w, mask, Rank(w, p), |bits|)
    requires 0 <= IndexOf(w, p) < w * w
    ensures !BitAt(w, mask, bits, IndexOf(w, p))
  {
    hide CountFree, Free, PlaceAt, Column, Row, Rank, End;
    IndexInMatrix(w, p);
    PlaceInMatrix(w, p);
  }

  /** Places the first `count` codewords of h, most significant bit first, along the zigzag. */
  method Pack(h: array<bv8>, count: nat, r: array<bool>, mask: array<bool>, w: nat)
    requires count <= h.Length && h as object != r && r != mask && Wide(w) && r.Length == w * w
    requires JumpIsSafe(w, mask[..]) && ExitIsClear(w, mask[..]) && !IsMasked(mask[..], w - 1, w - 1)
    requires 8 * count <= CountFree(w, mask[..], End(w))
    modifies r
    ensures Packed(w, mask[..], Bits(h[..count]), old(r[..]), r[..])
  {
    hide CountFree, JumpIsSafe, IsMasked, Packed, Ready, CursorAt, Bits, BitsOfByte, End, Wide;
    ghost var was, bytes := r[..], h[..count];
    ghost var bits := Bits(bytes);
    BitsLength(bytes);
    var o, a, n, s := w - 1, w - 1, true, true;
    ghost var p := FirstPlace(w, mask[..], |bits|);
    NothingPacked(w, mask[..], was);
    assert bits[..0] == [];
    var e := 0;
    while e < count
      invariant e <= count && h[..count] == bytes
      invariant CursorAt(w, p, o, a, n, s) && Ready(w, mask[..], p, 8 * e, |bits|)
      invariant Packed(w, mask[..], bits[..8 * e], was, r[..])
    {
      assert h[e] == h[..count][e];
      o, a, n, s, p := PackByte(w, r, mask, h[e], o, a, n, s, p, bits, e, bytes, was);
      e := e + 1;
    }
    assert bits[..8 * count] == bits;
  }

  lemma BitsLength(s: seq<bv8>)
    ensures |Bits(s)| == 8 * |s|
  {
  }

  lemma FirstPlace(w: nat, mask: seq<bool>, total: nat) returns (p: Place)
    requires Wide(w) && !IsMasked(mask, w - 1, w - 1)
    ensures CursorAt(w, p, w - 1, w - 1, true, true) && Ready(w, mask, p, 0, total)
  {
    hide IsMasked;
    p := Place(0, 0, true);
    PlaceOfRank(w, p);
  }

  /** The eight bits of one codeword. */
  method PackByte(w: nat, r: array<bool>, mask: array<bool>, byte: bv8, o: int, a: int, n: bool, s: bool,
                  ghost p: Place, ghost bits: seq<bool>, ghost e: nat, ghost bytes: seq<bv8>, ghost was: seq<bool>)
    returns (o': int, a': int, n': bool, s': bool, ghost q: Place)
    requires r != mask && Wide(w) && r.Length == w * w
    requires JumpIsSafe(w, mask[..]) && ExitIsClear(w, mask[..])
    requires bits == Bits(bytes) && |bits| <= CountFree(w, mask[..], End(w)) && e < |bytes| && byte == bytes[e]
    requires CursorAt(w, p, o, a, n, s) && Ready(w, mask[..], p, 8 * e, |bits|)
    requires Packed(w, mask[..], bits[..8 * e], was, r[..])
    modifies r
    ensures CursorAt(w, q, o', a', n', s') && Ready(w, mask[..], q, 8 * (e + 1), |bits|)
    ensures Packed(w, mask[..], bits[..8 * (e + 1)], was, r[..])
  {
    hide CountFree, JumpIsSafe, IsMasked, Packed, Ready, CursorAt, ExitIsClear, Bits, BitsOfByte, End, Wide;
    o', a', n', s', q := o, a, n, s, p;
    var t := byte;
    var i := 0;
    while i < 8
      invariant i <= 8
      invariant BitsOfByte(t)[..8 - i] == BitsOfByte(byte)[i..]
      invariant CursorAt(w, q, o', a', n', s') && Ready(w, mask[..], q, 8 * e + i, |bits|)
      invariant Packed(w, mask[..], bits[..8 * e + i], was, r[..])
    {
      TopBit(t);
      BitOfByte(bytes, e, i);
      NextBits(BitsOfByte(t), BitsOfByte(byte), BitsOfByte(t << 1), i);
      o', a', n', s', q := PackBit(w, r, mask, 0x80 & t != 0, o', a', n', s', q, bits, 8 * e + i, was);
      t := t << 1;
      i := i + 1;
    }
  }

  lemma NextBits(t: seq<bool>, b: seq<bool>, t': seq<bool>, i: nat)
    requires |t| == 8 && |b| == 8 && |t'| == 8 && i < 8 && t[..8 - i] == b[i..] && t'[..7] == t[1..]
    ensures t[0] == b[i] && t'[..8 - (i + 1)] == b[i + 1..]
  {
    assert t[0] == t[..8 - i][0];
    forall k | 0 <= k < 7 - i
      ensures t'[k] == b[i + 1 + k]
    {
      assert t'[k] == t'[..7][k] == t[1..][k] == t[k + 1] == t[..8 - i][k + 1] == b[i..][k + 1];
    }
  }
}
