/** Paying a message to another node, in one keysend or in many. */
module Keysend {
  import opened Weave

  datatype Payment = Payment(amt: nat, data: string)

  /** The least amount of a keysend; min is the configured minimum. */
  function Least(min: nat): (r: nat)
    ensures r > 0 && r >= min
  {
    if min == 0 then 3 else min
  }

  /** The amount a keysend really carries. */
  function Clamp(amt: nat, min: nat): (r: nat)
    ensures r >= amt && r >= Least(min)
  {
    if amt < Least(min) then Least(min) else amt
  }

  /** The i-th of n payments: the amount rides on the last one. */
  function Part(ts: nat, i: nat, n: nat, amt: nat, data: string, min: nat): Payment
    requires data != ""
  {
    Payment(Clamp(if i == n - 1 then amt else min, min), Packet(ts, i, n, Body(data, i)))
  }

  /** The payments a message leads to. */
  function Payments(ts: nat, amt: nat, data: string, min: nat): (ps: seq<Payment>) {
    if data == "" then []
    else if |data| < MAX_MSG_LENGTH then [Payment(Clamp(amt, min), data)]
    else seq(Count(data), i requires 0 <= i < Count(data) => Part(ts, i, Count(data), amt, data, min))
  }

  /** The first k of n payments all go through, or none of them does. */
  predicate AllWork(works: nat -> bool, k: nat) {
    forall i: nat :: i < k ==> works(i)
  }

  predicate NoneWorks(works: nat -> bool, k: nat) {
    forall i: nat :: i < k ==> !works(i)
  }

  lemma OneMore(works: nat -> bool, k: nat)
    ensures AllWork(works, k + 1) <==> AllWork(works, k) && works(k)
    ensures NoneWorks(works, k + 1) <==> NoneWorks(works, k) && !works(k)
  {
  }

  lemma Mixed(works: nat -> bool, n: nat)
    requires n > 0 && AllWork(works, n)
    ensures !NoneWorks(works, n)
  {
    assert works(0);
  }

  lemma PartIs(ts: nat, i: nat, n: nat, amt: nat, data: string, min: nat)
    requires data != "" && n == Count(data)
    ensures n > 0
    ensures var spliti := Ceil(|data|, n);
            Part(ts, i, n, amt, data, min)
            == Payment(Clamp(if i == n - 1 then amt else min, min),
                       Packet(ts, i, n, Substring(data, i * spliti, i * spliti + spliti)))
  {
    hide Packet, Substring, Ceil;
    CountPositive(data);
  }

  /** Sends a message; works tells of each keysend whether it goes through. */
  method KeysendMessage(ts: nat, amt: nat, data: string, min: nat, works: nat -> bool)
    returns (tried: seq<Payment>, resolved: bool)
    ensures tried == Payments(ts, amt, data, min)
    ensures resolved <==> data != "" && AllWork(works, |tried|)
  {
    hide Part, Ceil, Clamp;
    tried := [];
    if data == "" {
      return tried, false;
    }
    if |data| < MAX_MSG_LENGTH {
      tried := [Payment(Clamp(amt, min), data)];
      assert works(0) <==> AllWork(works, 1);
      return tried, works(0);
    }
    hide AllWork, NoneWorks;
    var n := Ceil(|data|, MAX_MSG_LENGTH);
    var success, fail := false, false;
    var i := 0;
    NothingTried(works);
    CountPositive(data);
    while i < n
      invariant 0 <= i <= n
      invariant |tried| == i && forall k :: 0 <= k < i ==> tried[k] == Part(ts, k, n, amt, data, min)
      invariant success <==> !NoneWorks(works, i)
      invariant fail <==> !AllWork(works, i)
    {
      var spliti := Ceil(|data|, n);
      var m := Substring(data, i * spliti, i * spliti + spliti);
      var isLastThread := i == n - 1;
      PartIs(ts, i, n, amt, data, min);
      tried := tried + [Payment(Clamp(if isLastThread then amt else min, min), Packet(ts, i, n, m))];
      OneMore(works, i);
      if works(i) {
        success := true;
      } else {
        fail := true;
      }
      i := i + 1;
    }
    resolved := success && !fail;
    if AllWork(works, n) {
      Mixed(works, n);
    }
  }

  lemma NothingTried(works: nat -> bool)
    ensures AllWork(works, 0) && NoneWorks(works, 0)
  {
  }

  // ---------------------------------------------------------------- what it costs

  function Total(ps: seq<Payment>): nat {
    if ps == [] then 0 else Total(ps[..|ps| - 1]) + ps[|ps| - 1].amt
  }

  lemma {:induction false} TotalOfEqual(ps: seq<Payment>, a: nat)
    requires forall k :: 0 <= k < |ps| ==> ps[k].amt == a
    ensures Total(ps) == |ps| * a
  {
    if ps != [] {
      TotalOfEqual(ps[..|ps| - 1], a);
    }
  }

  /** A message in n parts costs the amount once and the minimum n - 1 times. */
  lemma TotalPaid(ts: nat, amt: nat, data: string, min: nat)
    requires data != ""
    ensures var n := if |data| < MAX_MSG_LENGTH then 1 else Count(data);
            Total(Payments(ts, amt, data, min)) == (n - 1) * Clamp(min, min) + Clamp(amt, min)
  {
    hide Packet, Body, Clamp;
    var ps := Payments(ts, amt, data, min);
    if |data| < MAX_MSG_LENGTH {
      assert ps[..0] == [];
    } else {
      TotalOfEqual(ps[..|ps| - 1], Clamp(min, min));
    }
  }

  /** The payments carry the numbered chunks of the message, in order. */
  lemma PaymentsCarry(ts: nat, amt: nat, data: string, min: nat)
    requires |data| >= MAX_MSG_LENGTH
    ensures |Payments(ts, amt, data, min)| == Count(data) == |Packets(ts, data)|
    ensures forall i :: 0 <= i < Count(data) ==> Payments(ts, amt, data, min)[i].data == Packets(ts, data)[i]
  {
    hide Packet, Body;
  }

  /** The amount is paid with the last chunk, the minimum with each of the others; nothing is paid below it. */
  lemma AmountsAre(ts: nat, amt: nat, data: string, min: nat, i: nat)
    requires i < |Payments(ts, amt, data, min)|
    ensures var ps := Payments(ts, amt, data, min);
            && (i < |ps| - 1 ==> ps[i].amt == if min == 0 then 3 else min)
            && (i == |ps| - 1 ==> ps[i].amt >= amt && ps[i].amt >= min && ps[i].amt > 0
                                  && (ps[i].amt == amt || ps[i].amt == min || (min == 0 && ps[i].amt == 3)))
  {
    hide Packet, Body, Count;
  }
}
