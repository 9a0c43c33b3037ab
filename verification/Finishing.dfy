/** The choice of the data mask and the format information. */
module Finishing {
  import opened MaskPattern
  import opened Masking

  // ---------------------------------------------------------------- the choice

  /** The penalty of the matrix under one mask. */
  ghost function Score(penalty: seq<bool> -> int, w: nat, mask: seq<bool>, m: seq<bool>, e: nat): int
    requires w > 0
  {
    penalty(Masked(e, w, mask, m))
  }

  /** Pattern i has the least penalty of the first `count`, and no earlier one ties with it. */
  ghost predicate FirstLeast(penalty: seq<bool> -> int, w: nat, mask: seq<bool>, m: seq<bool>, i: nat, count: nat)
    requires w > 0
  {
    i < count &&
    (forall e: nat :: e < count ==> Score(penalty, w, mask, m, i) <= Score(penalty, w, mask, m, e)) &&
    (forall e: nat :: e < i ==> Score(penalty, w, mask, m, i) < Score(penalty, w, mask, m, e))
  }

  /** The search starts from a bound of 30000 and only lower penalties count. */
  ghost predicate Found(penalty: seq<bool> -> int, w: nat, mask: seq<bool>, m: seq<bool>, i: nat, n: int, count: nat)
    requires w > 0
  {
    if n < 30000 then FirstLeast(penalty, w, mask, m, i, count) && n == Score(penalty, w, mask, m, i)
    else n == 30000 && i == 0 && forall e: nat :: e < count ==> Score(penalty, w, mask, m, e) >= 30000
  }

  /** What the search returns. */
  ghost predicate Chosen(penalty: seq<bool> -> int, w: nat, mask: seq<bool>, m: seq<bool>, i: nat)
    requires w > 0
  {
    exists n: int :: Found(penalty, w, mask, m, i, n, 8)
  }

  /** The chosen pattern is the first of least penalty exactly when some penalty is below the
      starting bound or pattern 0 happens to be that pattern. */
  lemma ChosenIsLeast(penalty: seq<bool> -> int, w: nat, mask: seq<bool>, m: seq<bool>, i: nat)
    requires w > 0 && Chosen(penalty, w, mask, m, i)
    ensures FirstLeast(penalty, w, mask, m, i, 8) <==>
      (exists e: nat :: e < 8 && Score(penalty, w, mask, m, e) < 30000)
      || (forall e: nat :: e < 8 ==> Score(penalty, w, mask, m, 0) <= Score(penalty, w, mask, m, e))
  {
    hide Score;
    var n: int :| Found(penalty, w, mask, m, i, n, 8);
    if n < 30000 {
      assert Score(penalty, w, mask, m, i) < 30000;
    }
  }

  /** A penalty beyond the starting bound that is worst for one matrix. */
  function WorstAt(bad: seq<bool>): seq<bool> -> int {
    (m: seq<bool>) => if m == bad then 30001 else 30000
  }

  /** Whenever patterns 0 and 1 treat some free module differently, there are penalties at which
      pattern 0 is chosen and is not least. */
  lemma NotAlwaysLeast(w: nat, mask: seq<bool>, m: seq<bool>, k: nat)
    requires w > 0 && k < |m| && !IsMasked(mask, k % w, k / w) && Inverts(0, k / w, k % w) != Inverts(1, k / w, k % w)
    ensures var penalty := WorstAt(Masked(0, w, mask, m));
            Chosen(penalty, w, mask, m, 0) && Score(penalty, w, mask, m, 1) < Score(penalty, w, mask, m, 0)
  {
    hide Masked, IsMasked, Inverts;
    var penalty := WorstAt(Masked(0, w, mask, m));
    MasksDiffer(w, mask, m, k);
    assert forall e: nat :: Score(penalty, w, mask, m, e) >= 30000;
    assert Found(penalty, w, mask, m, 0, 30000, 8);
  }

  lemma MasksDiffer(w: nat, mask: seq<bool>, m: seq<bool>, k: nat)
    requires w > 0 && k < |m| && !IsMasked(mask, k % w, k / w) && Inverts(0, k / w, k % w) != Inverts(1, k / w, k % w)
    ensures Masked(1, w, mask, m) != Masked(0, w, mask, m)
  {
    hide IsMasked, Masked, Inverts;
    assert Masked(1, w, mask, m)[k] != Masked(0, w, mask, m)[k];
  }

  method Slice(m: seq<bool>) returns (a: array<bool>)
    ensures fresh(a) && a[..] == m
  {
    a := new bool[|m|](k requires 0 <= k < |m| => m[k]);
  }

  lemma Consider(penalty: seq<bool> -> int, w: nat, mask: seq<bool>, m: seq<bool>, i: nat, n: int, e: nat)
    requires w > 0 && Found(penalty, w, mask, m, i, n, e) && (n < 30000 ==> i < e)
    ensures var t := Score(penalty, w, mask, m, e);
            if t < n then Found(penalty, w, mask, m, e, t, e + 1) else Found(penalty, w, mask, m, i, n, e + 1)
  {
    hide Score;
  }

  /** Tries the masks in turn, each on a fresh copy, and leaves the chosen one applied; the search
      ends early when pattern 7 is chosen, with that mask still in place. */
  method SearchMask(buffer: array<bool>, mask: array<bool>, w: nat, penalty: seq<bool> -> int)
    returns (result: array<bool>, i: nat)
    requires buffer != mask && buffer.Length == w * w && w > 0
    modifies buffer
    ensures result == buffer || fresh(result)
    ensures i < 8 && Chosen(penalty, w, mask[..], old(buffer[..]), i)
    ensures result[..] == Masked(i, w, mask[..], old(buffer[..]))
  {
    hide Masked, FirstLeast;
    var saved := buffer[..];
    result := buffer;
    i := 0;
    var n := 30000;
    var e := 0;
    while e < 8
      invariant e <= 8 && i < 8 && i <= e && (n < 30000 ==> i < e) && i != 7
      invariant result != mask && (result == buffer || fresh(result)) && result.Length == w * w
      invariant result[..] == saved
      invariant Found(penalty, w, mask[..], saved, i, n, e)
      decreases 8 - e
    {
      ApplyMask(e, result, mask, w);
      var t := penalty(result[..]);
      Consider(penalty, w, mask[..], saved, i, n, e);
      if t < n {
        n, i := t, e;
      }
      if i == 7 {
        break;
      }
      result := Slice(saved);
      e := e + 1;
    }
    if i != e {
      ApplyMask(i, result, mask, w);
    }
  }

  // ---------------------------------------------------------------- format information

  /** The FINAL_FORMAT word of a correction level (1 to 4) and a mask pattern. */
  function FinalFormat(level: nat, pattern: nat): nat
    requires 1 <= level <= 4 && pattern < 8
  {
    match level
    case 1 => [30660, 29427, 32170, 30877, 26159, 25368, 27713, 26998][pattern]
    case 2 => [21522, 20773, 24188, 23371, 17913, 16590, 20375, 19104][pattern]
    case 3 => [13663, 12392, 16177, 14854, 9396, 8579, 11994, 11245][pattern]
    case _ => [5769, 5054, 7399, 6608, 1890, 597, 3340, 2107][pattern]
  }

  /** Bit j of a format word, least significant first. */
  function FormatBit(word: nat, j: nat): bool {
    if j == 0 then word % 2 == 1 else FormatBit(word / 2, j - 1)
  }

  // The two modules of format bit j: beside the upper right and lower left finder, and around the
  // upper left finder.

  function FirstX(w: nat, j: nat): int {
    if j < 8 then w - 1 - j else 8
  }

  function FirstY(w: nat, j: nat): int {
    if j < 8 then 8 else w - 7 + (j - 8)
  }

  function SecondX(j: nat): int {
    if j < 8 then 8 else if j == 8 then 7 else 14 - j
  }

  function SecondY(j: nat): int {
    if j < 6 then j else if j < 8 then j + 1 else 8
  }

  ghost predicate IsFormatModule(w: nat, j: nat, k: int) {
    k == FirstX(w, j) + w * FirstY(w, j) || k == SecondX(j) + w * SecondY(j)
  }

  /** One copy of the format bits goes from the lower right corner of the upper right finder along row 8,
      and on downwards along column 8 beside the lower left finder; the other goes down column 8 and back
      along row 8 around the upper left finder, past the timing patterns. */
  lemma FormatPath(w: nat, j: nat)
    requires w >= 21 && j < 14
    ensures (FirstX(w, 0), FirstY(w, 0)) == (w - 1, 8) && (FirstX(w, 7), FirstY(w, 7)) == (w - 8, 8)
    ensures (FirstX(w, 8), FirstY(w, 8)) == (8, w - 7) && (FirstX(w, 14), FirstY(w, 14)) == (8, w - 1)
    ensures j < 7 ==> FirstX(w, j + 1) == FirstX(w, j) - 1 && FirstY(w, j + 1) == FirstY(w, j)
    ensures j > 7 ==> FirstX(w, j + 1) == FirstX(w, j) && FirstY(w, j + 1) == FirstY(w, j) + 1
    ensures (SecondX(0), SecondY(0)) == (8, 0) && (SecondX(7), SecondY(7)) == (8, 8) && (SecondX(14), SecondY(14)) == (0, 8)
    ensures j < 7 ==> SecondX(j + 1) == SecondX(j) && SecondY(j + 1) == (if SecondY(j) == 5 then 7 else SecondY(j) + 1)
    ensures j >= 7 ==> SecondX(j + 1) == (if SecondX(j) == 7 then 5 else SecondX(j) - 1) && SecondY(j + 1) == SecondY(j)
  {
  }

  /** The format bits below `count` have been added to the matrix. */
  ghost predicate Formatted(w: nat, word: nat, count: nat, was: seq<bool>, now: seq<bool>) {
    |was| == |now| &&
    forall k :: 0 <= k < |was| ==>
      (now[k] <==> was[k] || exists j: nat :: j < count && FormatBit(word, j) && IsFormatModule(w, j, k))
  }

  lemma FormatInMatrix(w: nat, j: nat)
    requires w >= 21 && j < 15
    ensures 0 <= FirstX(w, j) < w && 0 <= FirstY(w, j) < w && 0 <= SecondX(j) < w && 0 <= SecondY(j) < w
    ensures 0 <= FirstX(w, j) + w * FirstY(w, j) < w * w && 0 <= SecondX(j) + w * SecondY(j) < w * w
  {
    Position(w, FirstY(w, j), FirstX(w, j));
    Position(w, SecondY(j), SecondX(j));
  }

  /** Sets the modules of format bit j. */
  method PlaceFormatBit(r: array<bool>, w: nat, ghost word: nat, j: nat, bit: bool, ghost was: seq<bool>)
    requires r.Length == w * w && w >= 21 && j < 15 && bit == FormatBit(word, j)
    requires Formatted(w, word, j, was, r[..])
    modifies r
    ensures Formatted(w, word, j + 1, was, r[..])
  {
    hide FormatBit, FirstX, FirstY, SecondX, SecondY;
    FormatInMatrix(w, j);
    ghost var before := r[..];
    if bit {
      r[FirstX(w, j) + w * FirstY(w, j)] := true;
      r[SecondX(j) + w * SecondY(j)] := true;
    }
    FormatStep(w, word, j, was, before, r[..]);
  }

  lemma FormatStep(w: nat, word: nat, j: nat, was: seq<bool>, before: seq<bool>, now: seq<bool>)
    requires Formatted(w, word, j, was, before) && |now| == |was|
    requires forall k :: 0 <= k < |was| ==> now[k] == (before[k] || (FormatBit(word, j) && IsFormatModule(w, j, k)))
    ensures Formatted(w, word, j + 1, was, now)
  {
    hide FormatBit, IsFormatModule;
    forall k | 0 <= k < |was|
      ensures now[k] <==> was[k] || exists i: nat :: i < j + 1 && FormatBit(word, i) && IsFormatModule(w, i, k)
    {
      if i: nat :| i < j + 1 && FormatBit(word, i) && IsFormatModule(w, i, k) {
        assert i < j || i == j;
      }
    }
  }

  lemma {:induction false} FormatBitShift(word: nat, j: nat, n: nat)
    requires Halved(word, j) == n
    ensures FormatBit(word, j) == (n % 2 == 1)
  {
    if j > 0 {
      FormatBitShift(word / 2, j - 1, n);
    }
  }

  /** The word after j shifts. */
  function Halved(word: nat, j: nat): nat {
    if j == 0 then word else Halved(word / 2, j - 1)
  }

  lemma {:induction false} HalvedNext(word: nat, j: nat)
    ensures Halved(word, j + 1) == Halved(word, j) / 2
  {
    if j > 0 {
      HalvedNext(word / 2, j - 1);
    }
  }

  /** Adds the fifteen format bits, least significant first. */
  method WriteFormat(r: array<bool>, w: nat, word: nat)
    requires r.Length == w * w && w >= 21
    modifies r
    ensures Formatted(w, word, 15, old(r[..]), r[..])
  {
    hide FormatBit, Halved, Formatted;
    ghost var was := r[..];
    NoFormatYet(w, word, was);
    var n := word;
    assert Halved(word, 0) == word by {
      Unshifted(word);
    }
    var j := 0;
    while j < 15
      invariant j <= 15 && Halved(word, j) == n && Formatted(w, word, j, was, r[..])
    {
      FormatBitShift(word, j, n);
      PlaceFormatBit(r, w, word, j, n % 2 == 1, was);
      HalvedNext(word, j);
      n := n / 2;
      j := j + 1;
    }
  }

  lemma Unshifted(word: nat)
    ensures Halved(word, 0) == word
  {
  }

  lemma NoFormatYet(w: nat, word: nat, m: seq<bool>)
    ensures Formatted(w, word, 0, m, m)
  {
  }
}
