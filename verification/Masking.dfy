/** Data masking, in place, with the running counters of the encoder. */
module Masking {
  import opened Arithmetic
  import opened MaskPattern

  /** The modules before position pos carry the mask, the others are as they were. */
  ghost predicate Progress(p: nat, r: array<bool>, mask: array<bool>, w: nat, was: seq<bool>, pos: nat)
    requires w > 0
    reads r, mask
  {
    r.Length == |was| == w * w && pos <= |was| &&
    (forall k :: 0 <= k < pos ==> r[k] == Masked(p, w, mask[..], was)[k]) &&
    (forall k :: pos <= k < |was| ==> r[k] == was[k])
  }

  lemma Position(w: nat, s: nat, n: nat)
    requires s < w && n < w
    ensures n + s * w < w * w && (n + s * w) / w == s && (n + s * w) % w == n
  {
    DivMod(s, w, n);
    Below(s, w, w, n);
  }

  lemma MaskedAt(p: nat, w: nat, mask: seq<bool>, m: seq<bool>, k: nat)
    requires w > 0 && k < |m|
    ensures Masked(p, w, mask, m)[k] == (m[k] != (Inverts(p, k / w, k % w) && !IsMasked(mask, k % w, k / w)))
  {
    hide Inverts, IsMasked;
  }

  lemma NextRow(w: nat, s: nat)
    ensures s * w + w == (s + 1) * w
  {
  }

  /** Inverts one module unless the pattern or the function patterns exempt it. */
  method Visit(ghost p: nat, r: array<bool>, mask: array<bool>, w: nat, s: nat, n: nat, exempt: bool, ghost was: seq<bool>)
    requires r != mask && s < w && n < w && Progress(p, r, mask, w, was, s * w + n)
    requires exempt <==> !Inverts(p, s, n)
    modifies r
    ensures Progress(p, r, mask, w, was, s * w + n + 1)
  {
    hide Inverts, IsMasked, Masked;
    Position(w, s, n);
    MaskedAt(p, w, mask[..], was, n + s * w);
    if !exempt && !IsMasked(mask[..], n, s) {
      r[n + s * w] := !r[n + s * w];
    }
  }

  lemma Start(p: nat, r: array<bool>, mask: array<bool>, w: nat, was: seq<bool>)
    requires w > 0 && r.Length == w * w && was == r[..]
    ensures Progress(p, r, mask, w, was, 0 * w)
  {
  }

  lemma Complete(p: nat, r: array<bool>, mask: array<bool>, w: nat, was: seq<bool>)
    requires w > 0 && Progress(p, r, mask, w, was, w * w)
    ensures r[..] == Masked(p, w, mask[..], was)
  {
    hide Masked;
  }

  /** Column j lies in a run of three that starts with the flag of row i and alternates. */
  predicate Thirds(s: nat, n: nat, e: nat, i: bool) {
    if e == 3 then n % 3 == 0 && n > 0 && (i <==> (s / 2 + (n - 1) / 3) % 2 == 1)
    else n % 3 == e && (i <==> (s / 2 + n / 3) % 2 == 1)
  }

  lemma ThirdsStart(s: nat)
    ensures Thirds(s, 0, 0, (s / 2) % 2 == 1)
  {
  }

  lemma ThirdsReset(s: nat, n: nat, e: nat, i: bool)
    requires Thirds(s, n, e, i)
    ensures e == 3 ==> Thirds(s, n, 0, !i)
    ensures e <= 3
  {
  }

  lemma ThirdsNext(s: nat, n: nat, e: nat, i: bool)
    requires Thirds(s, n, e, i) && e != 3
    ensures Thirds(s, n + 1, e + 1, i)
  {
  }

  /** A counter that has not been reset yet. */
  predicate Counting(e: nat, n: nat) {
    e <= 3 && e % 3 == n % 3
  }

  predicate Remainder(e: nat, n: nat) {
    e == n % 3
  }

  lemma StartCounting()
    ensures Counting(0, 0)
  {
  }

  lemma Reset(e: nat, n: nat)
    requires Counting(e, n)
    ensures Remainder(if e == 3 then 0 else e, n)
  {
  }

  lemma Advance(e: nat, n: nat)
    requires Remainder(e, n)
    ensures Counting(e + 1, n + 1)
  {
  }

  lemma Carry(i: nat, s: nat)
    requires Remainder(i, s)
    ensures Counting(i, s)
  {
  }

  // The eight rules as the passes test them.

  lemma Rule0(s: nat, n: nat)
    ensures (n + s) % 2 == 1 <==> !Inverts(0, s, n)
  {
  }

  lemma Rule1(s: nat, n: nat)
    ensures s % 2 == 1 <==> !Inverts(1, s, n)
  {
  }

  lemma Rule2(s: nat, n: nat, e: nat)
    requires Remainder(e, n)
    ensures e != 0 <==> !Inverts(2, s, n)
  {
  }

  lemma Rule3(s: nat, n: nat, e: nat)
    requires Remainder(e, s + n)
    ensures e != 0 <==> !Inverts(3, s, n)
  {
  }

  lemma Rule4(s: nat, n: nat, e: nat, i: bool)
    requires Thirds(s, n, e, i) && e != 3
    ensures i <==> !Inverts(4, s, n)
  {
  }

  lemma Rule5(s: nat, n: nat, e: nat, i: nat)
    requires Remainder(e, n) && Remainder(i, s)
    ensures (n % 2) * (s % 2) + (if e == 0 || i == 0 then 0 else 1) != 0 <==> !Inverts(5, s, n)
  {
    Counters(s, n, e, i);
  }

  lemma Rule6(s: nat, n: nat, e: nat, i: nat)
    requires Remainder(e, n) && Remainder(i, s)
    ensures ((n % 2) * (s % 2) + (if e != 0 && e == i then 1 else 0)) % 2 == 1 <==> !Inverts(6, s, n)
  {
    Counters(s, n, e, i);
  }

  lemma Rule7(s: nat, n: nat, e: nat, i: nat)
    requires Remainder(e, n) && Remainder(i, s)
    ensures ((if e != 0 && e == i then 1 else 0) + (n + s) % 2) % 2 == 1 <==> !Inverts(7, s, n)
  {
    Counters(s, n, e, i);
  }

  method ApplyMask0(r: array<bool>, mask: array<bool>, w: nat)
    requires r != mask && r.Length == w * w && w > 0
    modifies r
    ensures r[..] == Masked(0, w, mask[..], old(r[..]))
  {
    hide Masked, Inverts, IsMasked, Progress, Counting, Remainder, Thirds;
    ghost var was := r[..];
    Start(0, r, mask, w, was);
    var s := 0;
    while s < w
      invariant s <= w && Progress(0, r, mask, w, was, s * w)
    {
      var n := 0;
      while n < w
        invariant n <= w && Progress(0, r, mask, w, was, s * w + n)
      {
        Rule0(s, n);
        Visit(0, r, mask, w, s, n, (n + s) % 2 == 1, was);
        n := n + 1;
      }
      NextRow(w, s);
      s := s + 1;
    }
    Complete(0, r, mask, w, was);
  }

  method ApplyMask1(r: array<bool>, mask: array<bool>, w: nat)
    requires r != mask && r.Length == w * w && w > 0
    modifies r
    ensures r[..] == Masked(1, w, mask[..], old(r[..]))
  {
    hide Masked, Inverts, IsMasked, Progress, Counting, Remainder, Thirds;
    ghost var was := r[..];
    Start(1, r, mask, w, was);
    var s := 0;
    while s < w
      invariant s <= w && Progress(1, r, mask, w, was, s * w)
    {
      var n := 0;
      while n < w
        invariant n <= w && Progress(1, r, mask, w, was, s * w + n)
      {
        Rule1(s, n);
        Visit(1, r, mask, w, s, n, s % 2 == 1, was);
        n := n + 1;
      }
      NextRow(w, s);
      s := s + 1;
    }
    Complete(1, r, mask, w, was);
  }

  method ApplyMask2(r: array<bool>, mask: array<bool>, w: nat)
    requires r != mask && r.Length == w * w && w > 0
    modifies r
    ensures r[..] == Masked(2, w, mask[..], old(r[..]))
  {
    hide Masked, Inverts, IsMasked, Progress, Counting, Remainder, Thirds;
    ghost var was := r[..];
    Start(2, r, mask, w, was);
    StartCounting();
    var s := 0;
    while s < w
      invariant s <= w && Progress(2, r, mask, w, was, s * w)
    {
      var e := 0;
      var n := 0;
      while n < w
        invariant n <= w && Counting(e, n) && Progress(2, r, mask, w, was, s * w + n)
      {
        Reset(e, n);
        if e == 3 {
          e := 0;
        }
        Rule2(s, n, e);
        Visit(2, r, mask, w, s, n, e != 0, was);
        Advance(e, n);
        n, e := n + 1, e + 1;
      }
      NextRow(w, s);
      s := s + 1;
    }
    Complete(2, r, mask, w, was);
  }

  method ApplyMask3(r: array<bool>, mask: array<bool>, w: nat)
    requires r != mask && r.Length == w * w && w > 0
    modifies r
    ensures r[..] == Masked(3, w, mask[..], old(r[..]))
  {
    hide Masked, Inverts, IsMasked, Progress, Counting, Remainder, Thirds;
    ghost var was := r[..];
    Start(3, r, mask, w, was);
    StartCounting();
    var i := 0;
    var s := 0;
    while s < w
      invariant s <= w && Counting(i, s) && Progress(3, r, mask, w, was, s * w)
    {
      Reset(i, s);
      if i == 3 {
        i := 0;
      }
      var e := i;
      Carry(i, s);
      var n := 0;
      while n < w
        invariant n <= w && Counting(e, s + n) && Remainder(i, s) && Progress(3, r, mask, w, was, s * w + n)
      {
        Reset(e, s + n);
        if e == 3 {
          e := 0;
        }
        Rule3(s, n, e);
        Visit(3, r, mask, w, s, n, e != 0, was);
        Advance(e, s + n);
        n, e := n + 1, e + 1;
      }
      NextRow(w, s);
      Advance(i, s);
      s, i := s + 1, i + 1;
    }
    Complete(3, r, mask, w, was);
  }

  method ApplyMask4(r: array<bool>, mask: array<bool>, w: nat)
    requires r != mask && r.Length == w * w && w > 0
    modifies r
    ensures r[..] == Masked(4, w, mask[..], old(r[..]))
  {
    hide Masked, Inverts, IsMasked, Progress, Counting, Remainder, Thirds;
    ghost var was := r[..];
    Start(4, r, mask, w, was);
    var s := 0;
    while s < w
      invariant s <= w && Progress(4, r, mask, w, was, s * w)
    {
      var e := 0;
      var i := (s / 2) % 2 == 1;
      ThirdsStart(s);
      var n := 0;
      while n < w
        invariant n <= w && Thirds(s, n, e, i) && Progress(4, r, mask, w, was, s * w + n)
      {
        ThirdsReset(s, n, e, i);
        if e == 3 {
          e, i := 0, !i;
        }
        Rule4(s, n, e, i);
        Visit(4, r, mask, w, s, n, i, was);
        ThirdsNext(s, n, e, i);
        n, e := n + 1, e + 1;
      }
      NextRow(w, s);
      s := s + 1;
    }
    Complete(4, r, mask, w, was);
  }

  method ApplyMask5(r: array<bool>, mask: array<bool>, w: nat)
    requires r != mask && r.Length == w * w && w > 0
    modifies r
    ensures r[..] == Masked(5, w, mask[..], old(r[..]))
  {
    hide Masked, Inverts, IsMasked, Progress, Counting, Remainder, Thirds;
    ghost var was := r[..];
    Start(5, r, mask, w, was);
    StartCounting();
    var i := 0;
    var s := 0;
    while s < w
      invariant s <= w && Counting(i, s) && Progress(5, r, mask, w, was, s * w)
    {
      Reset(i, s);
      if i == 3 {
        i := 0;
      }
      var e := 0;
      var n := 0;
      while n < w
        invariant n <= w && Counting(e, n) && Remainder(i, s) && Progress(5, r, mask, w, was, s * w + n)
      {
        Reset(e, n);
        if e == 3 {
          e := 0;
        }
        Rule5(s, n, e, i);
        Visit(5, r, mask, w, s, n, (n % 2) * (s % 2) + (if e == 0 || i == 0 then 0 else 1) != 0, was);
        Advance(e, n);
        n, e := n + 1, e + 1;
      }
      NextRow(w, s);
      Advance(i, s);
      s, i := s + 1, i + 1;
    }
    Complete(5, r, mask, w, was);
  }

  method ApplyMask6(r: array<bool>, mask: array<bool>, w: nat)
    requires r != mask && r.Length == w * w && w > 0
    modifies r
    ensures r[..] == Masked(6, w, mask[..], old(r[..]))
  {
    hide Masked, Inverts, IsMasked, Progress, Counting, Remainder, Thirds;
    ghost var was := r[..];
    Start(6, r, mask, w, was);
    StartCounting();
    var i := 0;
    var s := 0;
    while s < w
      invariant s <= w && Counting(i, s) && Progress(6, r, mask, w, was, s * w)
    {
      Reset(i, s);
      if i == 3 {
        i := 0;
      }
      var e := 0;
      var n := 0;
      while n < w
        invariant n <= w && Counting(e, n) && Remainder(i, s) && Progress(6, r, mask, w, was, s * w + n)
      {
        Reset(e, n);
        if e == 3 {
          e := 0;
        }
        Rule6(s, n, e, i);
        Visit(6, r, mask, w, s, n, ((n % 2) * (s % 2) + (if e != 0 && e == i then 1 else 0)) % 2 == 1, was);
        Advance(e, n);
        n, e := n + 1, e + 1;
      }
      NextRow(w, s);
      Advance(i, s);
      s, i := s + 1, i + 1;
    }
    Complete(6, r, mask, w, was);
  }

  method ApplyMask7(r: array<bool>, mask: array<bool>, w: nat)
    requires r != mask && r.Length == w * w && w > 0
    modifies r
    ensures r[..] == Masked(7, w, mask[..], old(r[..]))
  {
    hide Masked, Inverts, IsMasked, Progress, Counting, Remainder, Thirds;
    ghost var was := r[..];
    Start(7, r, mask, w, was);
    StartCounting();
    var i := 0;
    var s := 0;
    while s < w
      invariant s <= w && Counting(i, s) && Progress(7, r, mask, w, was, s * w)
    {
      Reset(i, s);
      if i == 3 {
        i := 0;
      }
      var e := 0;
      var n := 0;
      while n < w
        invariant n <= w && Counting(e, n) && Remainder(i, s) && Progress(7, r, mask, w, was, s * w + n)
      {
        Reset(e, n);
        if e == 3 {
          e := 0;
        }
        Rule7(s, n, e, i);
        Visit(7, r, mask, w, s, n, ((if e != 0 && e == i then 1 else 0) + (n + s) % 2) % 2 == 1, was);
        Advance(e, n);
        n, e := n + 1, e + 1;
      }
      NextRow(w, s);
      Advance(i, s);
      s, i := s + 1, i + 1;
    }
    Complete(7, r, mask, w, was);
  }

  /** The eight passes. */
  method ApplyMask(t: nat, r: array<bool>, mask: array<bool>, w: nat)
    requires t < 8 && r != mask && r.Length == w * w && w > 0
    modifies r
    ensures r[..] == Masked(t, w, mask[..], old(r[..]))
  {
    hide Masked;
    match t {
      case 0 => ApplyMask0(r, mask, w);
      case 1 => ApplyMask1(r, mask, w);
      case 2 => ApplyMask2(r, mask, w);
      case 3 => ApplyMask3(r, mask, w);
      case 4 => ApplyMask4(r, mask, w);
      case 5 => ApplyMask5(r, mask, w);
      case 6 => ApplyMask6(r, mask, w);
      case _ => ApplyMask7(r, mask, w);
    }
  }
}
