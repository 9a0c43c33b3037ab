/** The order in which the modules of a symbol of odd width w receive bits, section 7.7.3 of
    ISO/IEC 18004:2015: column pairs from right to left without column 6, alternately upwards and
    downwards, right module before left. */
module Zigzag {
  import opened Arithmetic
  import opened MaskPattern

  /** A position of the walk: column pair, step within the pair, right or left module. */
  datatype Place = Place(pair: nat, step: nat, right: bool)

  predicate Upwards(pair: nat) {
    pair % 2 == 0
  }

  /** The right column of a pair. */
  function RightColumn(w: nat, pair: nat): int {
    if w - 1 - 2 * pair > 6 then w - 1 - 2 * pair else w - 2 - 2 * pair
  }

  function Column(w: nat, p: Place): int {
    if p.right then RightColumn(w, p.pair) else RightColumn(w, p.pair) - 1
  }

  function Row(w: nat, p: Place): int {
    if Upwards(p.pair) then w - 1 - p.step else p.step
  }

  predicate Wide(w: nat) {
    w >= 21 && w % 2 == 1
  }

  function Pairs(w: nat): nat {
    w / 2
  }

  /** The number of places. */
  function End(w: nat): nat {
    Pairs(w) * w * 2
  }

  predicate InWalk(w: nat, p: Place) {
    p.pair < Pairs(w) && p.step < w
  }

  function Rank(w: nat, p: Place): nat {
    (p.pair * w + p.step) * 2 + if p.right then 0 else 1
  }

  /** The place of a module outside column 6. */
  function PlaceOf(w: nat, x: nat, y: nat): Place
    requires Wide(w) && x < w && y < w && x != 6
  {
    var c := if x > 6 then w - 1 - x else w - 2 - x;
    var pair := c / 2;
    Place(pair, if Upwards(pair) then w - 1 - y else y, c % 2 == 0)
  }

  // ---------------------------------------------------------------- places, ranks and modules

  lemma PlaceInMatrix(w: nat, p: Place)
    requires Wide(w) && InWalk(w, p)
    ensures 0 <= Column(w, p) < w && Column(w, p) != 6 && 0 <= Row(w, p) < w
    ensures PlaceOf(w, Column(w, p), Row(w, p)) == p
  {
  }

  /** Every module outside column 6 has one place. */
  lemma ModuleHasPlace(w: nat, x: nat, y: nat)
    requires Wide(w) && x < w && y < w && x != 6
    ensures InWalk(w, PlaceOf(w, x, y))
    ensures Column(w, PlaceOf(w, x, y)) == x && Row(w, PlaceOf(w, x, y)) == y
  {
  }

  lemma RankInjective(w: nat, p: Place, q: Place)
    requires InWalk(w, p) && InWalk(w, q) && Rank(w, p) == Rank(w, q)
    ensures p == q
  {
    DivMod(p.pair, w, p.step);
    DivMod(q.pair, w, q.step);
  }

  lemma RankBelowEnd(w: nat, p: Place)
    requires InWalk(w, p)
    ensures Rank(w, p) < End(w)
  {
    Below(p.pair, Pairs(w), w, p.step);
  }

  ghost function PlaceAt(w: nat, k: nat): (p: Place)
    requires k < End(w)
    ensures InWalk(w, p) && Rank(w, p) == k
  {
    Quotient(k / 2, Pairs(w), w);
    Place((k / 2) / w, (k / 2) % w, k % 2 == 0)
  }

  /** The walk begins at the lower right module. */
  lemma WalkBegins(w: nat)
    requires Wide(w)
    ensures 0 < End(w) && Column(w, PlaceAt(w, 0)) == w - 1 && Row(w, PlaceAt(w, 0)) == w - 1
  {
    hide PlaceAt;
    var p := Place(0, 0, true);
    RankBelowEnd(w, p);
    RankInjective(w, p, PlaceAt(w, 0));
  }

  /** It goes from the right module of a pair of columns to the left one, then to the right one of the next
      row, upwards in the first pair, downwards in the second, and so on; at the end of a pair it turns
      into the next pair, past column 6. */
  lemma WalkGoesOn(w: nat, k: nat)
    requires Wide(w) && k + 1 < End(w)
    ensures var p, q := PlaceAt(w, k), PlaceAt(w, k + 1);
            var x, y, x', y' := Column(w, p), Row(w, p), Column(w, q), Row(w, q);
            && (k % 2 == 0 ==> x' == x - 1 && y' == y)
            && (k % 2 == 1 && p.pair % 2 == 0 && y > 0 ==> x' == x + 1 && y' == y - 1 && q.pair == p.pair)
            && (k % 2 == 1 && p.pair % 2 == 1 && y < w - 1 ==> x' == x + 1 && y' == y + 1 && q.pair == p.pair)
            && (k % 2 == 1 && y == (if p.pair % 2 == 0 then 0 else w - 1) ==>
                  x' == (if x == 7 then 5 else x - 1) && y' == y && q.pair == p.pair + 1)
  {
    hide PlaceAt, Column, Row;
    var p := PlaceAt(w, k);
    StepAfter(w, p);
    var q := Following(w, p);
    RankBelowEnd(w, q);
    RankInjective(w, q, PlaceAt(w, k + 1));
    Neighbours(w, p);
  }

  /** The place after another, by pair and step. */
  function Following(w: nat, p: Place): Place {
    if p.right then p.(right := false)
    else if p.step + 1 < w then Place(p.pair, p.step + 1, true)
    else Place(p.pair + 1, 0, true)
  }

  lemma StepAfter(w: nat, p: Place)
    requires Wide(w) && InWalk(w, p) && Rank(w, p) + 1 < End(w)
    ensures InWalk(w, Following(w, p)) && Rank(w, Following(w, p)) == Rank(w, p) + 1
    ensures p.right <==> Rank(w, p) % 2 == 0
  {
    if !p.right && p.step + 1 == w {
      NextRow(p.pair, w);
      FewerPairs(w, p.pair + 1);
    }
  }

  lemma FewerPairs(w: nat, k: nat)
    requires k * w * 2 < End(w)
    ensures k < Pairs(w)
  {
    if k >= Pairs(w) {
      Multiple(Pairs(w), k, w);
    }
  }

  lemma Neighbours(w: nat, p: Place)
    requires Wide(w) && InWalk(w, p)
    ensures var q := Following(w, p);
            var x, y, x', y' := Column(w, p), Row(w, p), Column(w, q), Row(w, q);
            && (p.right ==> x' == x - 1 && y' == y)
            && (!p.right && p.pair % 2 == 0 && y > 0 ==> x' == x + 1 && y' == y - 1 && q.pair == p.pair)
            && (!p.right && p.pair % 2 == 1 && y < w - 1 ==> x' == x + 1 && y' == y + 1 && q.pair == p.pair)
            && (!p.right && y == (if p.pair % 2 == 0 then 0 else w - 1) ==>
                  x' == (if x == 7 then 5 else x - 1) && y' == y && q.pair == p.pair + 1)
  {
  }

  // ---------------------------------------------------------------- the free modules in order

  /** The k-th module of the walk is outside the function patterns. */
  ghost predicate Free(w: nat, mask: seq<bool>, k: nat)
    requires k < End(w)
  {
    !IsMasked(mask, Column(w, PlaceAt(w, k)), Row(w, PlaceAt(w, k)))
  }

  /** The number of free modules before the k-th of the walk. */
  ghost function CountFree(w: nat, mask: seq<bool>, k: nat): nat
    requires k <= End(w)
  {
    if k == 0 then 0 else CountFree(w, mask, k - 1) + if Free(w, mask, k - 1) then 1 else 0
  }

  lemma {:induction false} CountIncreases(w: nat, mask: seq<bool>, j: nat, k: nat)
    requires j <= k <= End(w)
    ensures CountFree(w, mask, j) <= CountFree(w, mask, k)
    ensures j < k && Free(w, mask, j) ==> CountFree(w, mask, j) < CountFree(w, mask, k)
    decreases k
  {
    hide Free;
    if j < k {
      CountIncreases(w, mask, j, k - 1);
    }
  }

  lemma {:induction false} NoneFree(w: nat, mask: seq<bool>, j: nat, k: nat)
    requires j <= k <= End(w) && forall i :: j <= i < k ==> !Free(w, mask, i)
    ensures CountFree(w, mask, k) == CountFree(w, mask, j)
    decreases k
  {
    hide Free;
    if j < k {
      NoneFree(w, mask, j, k - 1);
    }
  }

  /** The free module that receives bit i. */
  ghost predicate Receives(w: nat, mask: seq<bool>, k: nat, i: nat) {
    k < End(w) && Free(w, mask, k) && CountFree(w, mask, k) == i
  }

  lemma ReceivesOnce(w: nat, mask: seq<bool>, j: nat, k: nat, i: nat)
    requires Receives(w, mask, j, i) && Receives(w, mask, k, i)
    ensures j == k
  {
    hide Free, CountFree;
    if j < k {
      CountIncreases(w, mask, j, k);
    } else if k < j {
      CountIncreases(w, mask, k, j);
    }
  }

  lemma {:induction false} ReceiverExists(w: nat, mask: seq<bool>, i: nat, end: nat) returns (k: nat)
    requires end <= End(w) && i < CountFree(w, mask, end)
    ensures k < end && Receives(w, mask, k, i)
  {
    hide Free;
    if i < CountFree(w, mask, end - 1) {
      k := ReceiverExists(w, mask, i, end - 1);
    } else {
      k := end - 1;
    }
  }

  // ---------------------------------------------------------------- the walk with its jump

  /** The pair after column 6 is entered below its function patterns. */
  function Entry(w: nat, pair: nat): nat {
    if RightColumn(w, pair) != 5 then 0 else if Upwards(pair) then 8 else 9
  }

  function Next(w: nat, p: Place): Place {
    if p.right then p.(right := false)
    else if p.step + 1 < w then Place(p.pair, p.step + 1, true)
    else Place(p.pair + 1, Entry(w, p.pair + 1), true)
  }

  /** The places that the jump leaves out belong to function patterns. */
  ghost predicate JumpIsSafe(w: nat, mask: seq<bool>) {
    forall p: Place :: InWalk(w, p) && p.step < Entry(w, p.pair) ==> IsMasked(mask, Column(w, p), Row(w, p))
  }

  lemma NextRow(a: nat, w: nat)
    ensures (a + 1) * w == a * w + w
  {
  }

  lemma NextRank(w: nat, p: Place)
    requires Wide(w) && InWalk(w, p)
    ensures Rank(w, Next(w, p)) > Rank(w, p)
    ensures InWalk(w, Next(w, p)) || (Next(w, p) == Place(Pairs(w), 0, true) && Rank(w, p) + 1 == End(w))
    ensures p.right || p.step + 1 < w ==> Rank(w, Next(w, p)) == Rank(w, p) + 1
    ensures !p.right && p.step + 1 == w ==> Rank(w, p) + 1 == (p.pair + 1) * w * 2
  {
    NextRow(p.pair, w);
    if !InWalk(w, Next(w, p)) {
      assert p.pair + 1 == Pairs(w);
    }
  }

  /** Nothing free is jumped over. */
  lemma NextSkipsNothing(w: nat, mask: seq<bool>, p: Place)
    requires Wide(w) && InWalk(w, p) && JumpIsSafe(w, mask)
    ensures Rank(w, p) + 1 <= Rank(w, Next(w, p)) <= End(w)
    ensures CountFree(w, mask, Rank(w, Next(w, p))) == CountFree(w, mask, Rank(w, p) + 1)
  {
    hide Free, CountFree, Column, Row, Entry, RightColumn;
    var n := Next(w, p);
    NextRank(w, p);
    if InWalk(w, n) {
      RankBelowEnd(w, n);
    }
    var j := Rank(w, p) + 1;
    forall i | j <= i < Rank(w, n)
      ensures !Free(w, mask, i)
    {
      JumpedOver(w, mask, p, i);
    }
    NoneFree(w, mask, j, Rank(w, n));
  }

  lemma JumpedOver(w: nat, mask: seq<bool>, p: Place, i: nat)
    requires Wide(w) && InWalk(w, p) && JumpIsSafe(w, mask)
    requires Rank(w, p) < i < Rank(w, Next(w, p)) <= End(w)
    ensures !Free(w, mask, i)
  {
    hide CountFree, Column, Row, RightColumn;
    NextRank(w, p);
    var e := Entry(w, p.pair + 1);
    var q := PlaceAt(w, i);
    assert i == (p.pair + 1) * w * 2 + (i - (p.pair + 1) * w * 2);
    var s := i / 2 - (p.pair + 1) * w;
    assert i / 2 == (p.pair + 1) * w + s;
    DivMod(p.pair + 1, w, s);
    DivMod(q.pair, w, q.step);
  }

  // ---------------------------------------------------------------- what packing means

  /** Column and row of the module at index idx of the matrix. */
  function XOf(w: nat, idx: nat): (x: nat)
    requires idx < w * w
    ensures x < w
  {
    Quotient(idx, w, w);
    idx % w
  }

  function YOf(w: nat, idx: nat): (y: nat)
    requires idx < w * w
    ensures y < w
  {
    Quotient(idx, w, w);
    idx / w
  }

  /** The rank of a free module; End(w) for a module that takes no bit. */
  ghost function FreeRank(w: nat, mask: seq<bool>, x: nat, y: nat): (k: nat)
    requires Wide(w) && x < w && y < w
    ensures k <= End(w)
    ensures k < End(w) ==> x != 6 && k == Rank(w, PlaceOf(w, x, y)) && Free(w, mask, k)
  {
    if x == 6 then End(w)
    else
      RankOfModule(w, x, y);
      var k := Rank(w, PlaceOf(w, x, y));
      if Free(w, mask, k) then k else End(w)
  }

  lemma RankOfModule(w: nat, x: nat, y: nat)
    requires Wide(w) && x < w && y < w && x != 6
    ensures var k := Rank(w, PlaceOf(w, x, y)); k < End(w) && PlaceAt(w, k) == PlaceOf(w, x, y)
  {
    hide PlaceAt, End;
    var p := PlaceOf(w, x, y);
    ModuleHasPlace(w, x, y);
    RankBelowEnd(w, p);
    RankInjective(w, p, PlaceAt(w, Rank(w, p)));
  }

  /** The bit that the module at index idx of the matrix receives, or false. */
  ghost predicate BitAt(w: nat, mask: seq<bool>, bits: seq<bool>, idx: nat)
    requires Wide(w) && idx < w * w
  {
    var k := FreeRank(w, mask, XOf(w, idx), YOf(w, idx));
    k < End(w) && CountFree(w, mask, k) < |bits| && bits[CountFree(w, mask, k)]
  }

  /** The i-th free module of the walk has been set if bit i is set; nothing else has changed. */
  ghost predicate Packed(w: nat, mask: seq<bool>, bits: seq<bool>, was: seq<bool>, now: seq<bool>)
    requires Wide(w)
  {
    |was| == |now| == w * w &&
    forall idx :: 0 <= idx < w * w ==> now[idx] == (was[idx] || BitAt(w, mask, bits, idx))
  }

  lemma NothingPacked(w: nat, mask: seq<bool>, m: seq<bool>)
    requires Wide(w) && |m| == w * w
    ensures Packed(w, mask, [], m, m)
  {
  }

  /** The index of the module at place p. */
  function IndexOf(w: nat, p: Place): int {
    Column(w, p) + w * Row(w, p)
  }

  lemma IndexInMatrix(w: nat, p: Place)
    requires Wide(w) && InWalk(w, p)
    ensures 0 <= IndexOf(w, p) < w * w
    ensures XOf(w, IndexOf(w, p)) == Column(w, p) && YOf(w, IndexOf(w, p)) == Row(w, p)
  {
    hide Column, Row;
    PlaceInMatrix(w, p);
    Below(Row(w, p), w, w, Column(w, p));
    DivMod(Row(w, p), w, Column(w, p));
  }

  lemma IndexDetermines(w: nat, idx: nat)
    requires idx < w * w
    ensures idx == XOf(w, idx) + w * YOf(w, idx)
  {
    Quotient(idx, w, w);
  }

  /** One more bit: exactly the module at the receiving place may change. */
  lemma PackOne(w: nat, mask: seq<bool>, bits: seq<bool>, b: bool, p: Place, idx: nat)
    requires Wide(w) && InWalk(w, p) && idx < w * w
    requires Receives(w, mask, Rank(w, p), |bits|)
    ensures 0 <= IndexOf(w, p) < w * w
    ensures BitAt(w, mask, bits + [b], idx) == if idx == IndexOf(w, p) then b else BitAt(w, mask, bits, idx)
  {
    hide Column, Row, CountFree, Free, PlaceOf, PlaceAt, XOf, YOf, End, Rank, RightColumn;
    IndexInMatrix(w, p);
    PlaceInMatrix(w, p);
    var x, y := XOf(w, idx), YOf(w, idx);
    var k := FreeRank(w, mask, x, y);
    IndexDetermines(w, idx);
    if k < End(w) {
      ModuleHasPlace(w, x, y);
      if CountFree(w, mask, k) == |bits| {
        ReceivesOnce(w, mask, k, Rank(w, p), |bits|);
        RankInjective(w, p, PlaceOf(w, x, y));
      }
    }
    if idx == IndexOf(w, p) {
      RankOfModule(w, x, y);
    }
  }

  // ---------------------------------------------------------------- reading

  ghost function Receiver(w: nat, mask: seq<bool>, i: nat): (p: Place)
    requires i < CountFree(w, mask, End(w))
    ensures InWalk(w, p) && Receives(w, mask, Rank(w, p), i)
  {
    ReceiverWitness(w, mask, i);
    var p: Place :| InWalk(w, p) && Receives(w, mask, Rank(w, p), i);
    p
  }

  lemma ReceiverWitness(w: nat, mask: seq<bool>, i: nat)
    requires i < CountFree(w, mask, End(w))
    ensures exists p: Place :: InWalk(w, p) && Receives(w, mask, Rank(w, p), i)
  {
    var k := ReceiverExists(w, mask, i, End(w));
    assert InWalk(w, PlaceAt(w, k)) && Receives(w, mask, Rank(w, PlaceAt(w, k)), i);
  }

  /** The first n free modules in walking order. */
  ghost function Read(w: nat, mask: seq<bool>, m: seq<bool>, n: nat): (bits: seq<bool>)
    requires Wide(w) && |m| == w * w && n <= CountFree(w, mask, End(w))
    ensures |bits| == n
  {
    seq(n, i requires 0 <= i < n =>
      IndexInMatrix(w, Receiver(w, mask, i));
      m[IndexOf(w, Receiver(w, mask, i))])
  }

  /** No free module has been set yet. */
  ghost predicate Blank(w: nat, mask: seq<bool>, m: seq<bool>)
    requires |m| == w * w
  {
    forall idx :: 0 <= idx < w * w && !IsMasked(mask, XOf(w, idx), YOf(w, idx)) ==> !m[idx]
  }

  /** Walking the symbol again reads the bits that were packed into it. */
  lemma ReadPacked(w: nat, mask: seq<bool>, bits: seq<bool>, was: seq<bool>, now: seq<bool>)
    requires Wide(w) && Packed(w, mask, bits, was, now) && Blank(w, mask, was)
    requires |bits| <= CountFree(w, mask, End(w))
    ensures Read(w, mask, now, |bits|) == bits
  {
    hide BitAt, Receiver, CountFree, XOf, YOf, IndexOf, IsMasked;
    forall i: nat | i < |bits|
      ensures Read(w, mask, now, |bits|)[i] == bits[i]
    {
      ReadOne(w, mask, bits, i);
      var p := Receiver(w, mask, i);
      assert now[IndexOf(w, p)] == (was[IndexOf(w, p)] || BitAt(w, mask, bits, IndexOf(w, p)));
    }
  }

  lemma ReadOne(w: nat, mask: seq<bool>, bits: seq<bool>, i: nat)
    requires Wide(w) && i < |bits| <= CountFree(w, mask, End(w))
    ensures var idx := IndexOf(w, Receiver(w, mask, i));
            0 <= idx < w * w && BitAt(w, mask, bits, idx) == bits[i]
            && !IsMasked(mask, XOf(w, idx), YOf(w, idx))
  {
    hide Column, Row, CountFree, PlaceOf, PlaceAt, XOf, YOf, End, Rank, RightColumn, IndexOf;
    var p := Receiver(w, mask, i);
    IndexInMatrix(w, p);
    PlaceInMatrix(w, p);
    RankOfModule(w, Column(w, p), Row(w, p));
  }
}
