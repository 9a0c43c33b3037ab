/** From a signed text on one node to the same text on another: the whole wire. */
module Delivery {
  import opened Options
  import opened Text
  import opened Weave
  import opened Payloads
  import opened Receiver
  import Keysend
  import Zbase32

  /** The invoice a payment settles, under the hash of that payment. */
  function Settled(hash: string, p: Keysend.Payment): Invoice {
    Invoice(Some(hash), true, p.data)
  }

  /** A message in many payments, with the hash of each. */
  datatype Sending = Sending(ts: nat, amt: nat, min: nat, data: string, hashes: seq<string>) {
    ghost predicate Valid() {
      && |data| >= MAX_MSG_LENGTH && |hashes| == Count(data)
      && forall i, j :: 0 <= i < j < |hashes| ==> hashes[i] != hashes[j]
    }

    function Invoice(i: nat): Invoice
      requires |data| >= MAX_MSG_LENGTH && |hashes| == Count(data) && i < |hashes|
    {
      Settled(hashes[i], Keysend.Payments(ts, amt, data, min)[i])
    }
  }

  /** Invoices under a hash of the message, and those with its timestamp, are invoices of it. */
  ghost predicate Genuine(m: Sending, inv: Invoice)
    requires m.Valid()
  {
    Own(Decimal(m.ts), inv.data) || (inv.hash.Some? && inv.hash.value in m.hashes)
    ==> exists i :: 0 <= i < |m.hashes| && inv == m.Invoice(i)
  }

  /** Every payment is told of at least once, in any order, among other invoices. */
  ghost predicate Delivered(m: Sending, invs: seq<Invoice>)
    requires m.Valid()
  {
    && (forall inv :: inv in invs ==> Genuine(m, inv))
    && forall i :: 0 <= i < |m.hashes| ==> m.Invoice(i) in invs
  }

  ghost predicate NoTwice(q: seq<string>) {
    forall j, k :: 0 <= j < k < |q| ==> q[j] != q[k]
  }

  lemma {:induction false} SameMultiset(q: seq<string>, all: seq<string>)
    requires NoTwice(q) && NoTwice(all) && forall p :: p in q <==> p in all
    ensures multiset(q) == multiset(all)
  {
    forall p
      ensures multiset(q)[p] == multiset(all)[p]
    {
      CountedOnce(q, p);
      CountedOnce(all, p);
      assert p in multiset(q) <==> p in q;
      assert p in multiset(all) <==> p in all;
    }
  }

  lemma Facts(m: Sending, i: nat)
    requires m.Valid() && i < |m.hashes|
    ensures m.Invoice(i) == Invoice(Some(m.hashes[i]), true, Packets(m.ts, m.data)[i])
    ensures Own(Decimal(m.ts), m.Invoice(i).data)
  {
    hide Keysend.Payments, ParsePacket, Decimal, Body;
    Keysend.PaymentsCarry(m.ts, m.amt, m.data, m.min);
    PacketParsed(m.ts, m.data, i);
  }

  lemma PacketIsChunk(m: Sending, i: nat, keysend: string -> bool)
    requires m.Valid() && i < |m.hashes|
    requires !keysend(Packets(m.ts, m.data)[i])
    ensures IsChunk(m.Invoice(i), keysend)
  {
    hide Keysend.Payments, ParsePacket, Decimal, Body, Packet;
    Facts(m, i);
    PacketStartsWithDigit(m.ts, i, Count(m.data), Body(m.data, i));
  }

  /** What the packets that got through are. */
  ghost predicate Account(m: Sending, invs: seq<Invoice>, q: seq<string>)
    requires m.Valid()
  {
    && NoTwice(q)
    && (forall p :: p in q ==> p in Packets(m.ts, m.data))
    && forall i :: 0 <= i < |m.hashes| ==> (Packets(m.ts, m.data)[i] in q <==> m.Invoice(i) in invs)
  }

  /** A hash has been seen if and only if its invoice has. */
  lemma {:induction false} HashesOfOwn(m: Sending, seen: set<string>, invs: seq<Invoice>, i: nat)
    requires m.Valid() && i < |m.hashes| && m.hashes[i] !in seen
    requires forall inv :: inv in invs ==> Genuine(m, inv)
    ensures m.hashes[i] in Hashes(seen, invs) <==> m.Invoice(i) in invs
  {
    hide Own, Keysend.Payments, Decimal;
    if invs != [] {
      var k := |invs| - 1;
      var h := invs[..k];
      HashesOfOwn(m, seen, h, i);
      assert invs[k] in invs && Genuine(m, invs[k]);
      Facts(m, i);
      if invs[k].hash == Some(m.hashes[i]) {
        assert m.hashes[i] in m.hashes;
        var j :| 0 <= j < |m.hashes| && invs[k] == m.Invoice(j);
        Facts(m, j);
      }
    }
  }

  lemma AccountSame(m: Sending, h: seq<Invoice>, inv: Invoice, q: seq<string>)
    requires m.Valid() && Account(m, h, q)
    requires forall i :: 0 <= i < |m.hashes| && inv == m.Invoice(i) ==> inv in h
    ensures Account(m, h + [inv], q)
  {
    hide Packets, Sending.Invoice, NoTwice;
  }

  lemma NoTwiceMore(q: seq<string>, p: string)
    requires NoTwice(q) && p !in q
    ensures NoTwice(q + [p])
  {
  }

  lemma AccountMore(m: Sending, h: seq<Invoice>, j: nat, q: seq<string>)
    requires m.Valid() && j < |m.hashes| && Account(m, h, q) && m.Invoice(j) !in h
    ensures Account(m, h + [m.Invoice(j)], q + [Packets(m.ts, m.data)[j]])
  {
    hide Packets, NoTwice, Sending.Invoice, Count;
    var all, p := Packets(m.ts, m.data), Packets(m.ts, m.data)[j];
    PacketsDistinct(m.ts, m.data);
    NoTwiceMore(q, p);
    forall i | 0 <= i < |m.hashes|
      ensures all[i] in q + [p] <==> m.Invoice(i) in h + [m.Invoice(j)]
    {
      if i == j {
      } else {
        Facts(m, i);
        Facts(m, j);
        assert all[i] != all[j];
      }
    }
  }

  lemma AccountNone(m: Sending)
    requires m.Valid()
    ensures Account(m, [], [])
  {
    hide Packets, Sending.Invoice;
  }

  lemma OwnLast(ts: string, ps: seq<string>, p: string)
    ensures OwnPackets(ts, ps + [p]) == if Own(ts, p) then OwnPackets(ts, ps) + [p] else OwnPackets(ts, ps)
  {
    hide Own;
    assert (ps + [p])[..|ps|] == ps;
  }

  lemma {:induction false} Accounted(m: Sending, seen: set<string>, invs: seq<Invoice>, keysend: string -> bool)
    requires m.Valid() && forall h :: h in m.hashes ==> h !in seen
    requires forall inv :: inv in invs ==> Genuine(m, inv)
    requires forall i :: 0 <= i < |m.hashes| ==> IsChunk(m.Invoice(i), keysend)
    ensures Account(m, invs, OwnPackets(Decimal(m.ts), ChunkData(seen, invs, keysend)))
  {
    hide Own, Keysend.Payments, Decimal, Genuine, Packets, IsChunk, Sending.Invoice, Account, OwnPackets;
    if invs == [] {
      AccountNone(m);
      OwnNone(Decimal(m.ts));
    } else {
      var k := |invs| - 1;
      var h, inv := invs[..k], invs[k];
      Accounted(m, seen, h, keysend);
      assert invs == h + [inv];
      OwnLast(Decimal(m.ts), ChunkData(seen, h, keysend), inv.data);
      if j: nat :| j < |m.hashes| && inv == m.Invoice(j) {
        AccountedOwn(m, seen, h, j, keysend);
      } else {
        assert inv in invs;
        NotOwn(m, inv);
        AccountSame(m, h, inv, OwnPackets(Decimal(m.ts), ChunkData(seen, h, keysend)));
      }
    }
  }

  lemma OwnNone(ts: string)
    ensures OwnPackets(ts, []) == []
  {
  }

  lemma NotOwn(m: Sending, inv: Invoice)
    requires m.Valid() && Genuine(m, inv) && !exists i :: 0 <= i < |m.hashes| && inv == m.Invoice(i)
    ensures !Own(Decimal(m.ts), inv.data)
  {
    hide Own, Decimal, Sending.Invoice;
  }

  lemma AccountedOwn(m: Sending, seen: set<string>, h: seq<Invoice>, j: nat, keysend: string -> bool)
    requires m.Valid() && forall h :: h in m.hashes ==> h !in seen
    requires j < |m.hashes| && IsChunk(m.Invoice(j), keysend)
    requires forall inv :: inv in h ==> Genuine(m, inv)
    requires Account(m, h, OwnPackets(Decimal(m.ts), ChunkData(seen, h, keysend)))
    ensures Account(m, h + [m.Invoice(j)],
                    OwnPackets(Decimal(m.ts), ChunkData(seen, h + [m.Invoice(j)], keysend)))
  {
    hide Own, Decimal, Genuine, Packets, IsChunk, Sending.Invoice, Account, OwnPackets;
    var inv, q := m.Invoice(j), OwnPackets(Decimal(m.ts), ChunkData(seen, h, keysend));
    Facts(m, j);
    HashesOfOwn(m, seen, h, j);
    ChunkDataLast(seen, h, inv, keysend);
    OwnLast(Decimal(m.ts), ChunkData(seen, h, keysend), inv.data);
    if inv in h {
      AccountSame(m, h, inv, q);
    } else {
      AccountMore(m, h, j, q);
    }
  }

  lemma ChunkDataLast(seen: set<string>, h: seq<Invoice>, inv: Invoice, keysend: string -> bool)
    ensures ChunkData(seen, h + [inv], keysend)
         == if !Repeated(Hashes(seen, h), inv) && IsChunk(inv, keysend)
            then ChunkData(seen, h, keysend) + [inv.data] else ChunkData(seen, h, keysend)
  {
    hide IsChunk;
    assert (h + [inv])[..|h|] == h;
  }

  /** Once every payment is told of, exactly the packets of the message have got through. */
  lemma GotThrough(m: Sending, seen: set<string>, invs: seq<Invoice>, keysend: string -> bool)
    requires m.Valid() && Delivered(m, invs) && forall h :: h in m.hashes ==> h !in seen
    requires forall i :: 0 <= i < |m.hashes| ==> IsChunk(m.Invoice(i), keysend)
    ensures Shuffled(m.ts, m.data, OwnPackets(Decimal(m.ts), ChunkData(seen, invs, keysend)))
  {
    hide Own, Decimal, Genuine, Packets, IsChunk, Sending.Invoice, OwnPackets, ChunkData, Count;
    var q, all := OwnPackets(Decimal(m.ts), ChunkData(seen, invs, keysend)), Packets(m.ts, m.data);
    Accounted(m, seen, invs, keysend);
    PacketsDistinct(m.ts, m.data);
    forall p | p in all
      ensures p in q
    {
      var i :| 0 <= i < |all| && all[i] == p;
      assert m.Invoice(i) in invs;
    }
    SameMultiset(q, all);
  }

  lemma {:induction false} NothingBefore(k: nat)
    ensures NonEmpty(Nones(k)) == []
  {
    if k > 0 {
      NothingBefore(k - 1);
      assert Nones(k)[..k - 1] == Nones(k - 1);
    }
  }

  lemma LastHanded(k: nat, text: string)
    requires text != ""
    ensures NonEmpty(Nones(k) + [Some(text)]) == [text]
  {
    NothingBefore(k);
    assert (Nones(k) + [Some(text)])[..k] == Nones(k);
  }

  lemma OwnIsChunk(m: Sending, invs: seq<Invoice>, keysend: string -> bool)
    requires m.Valid() && forall inv :: inv in invs ==> Genuine(m, inv)
    requires forall i :: 0 <= i < |m.hashes| ==> IsChunk(m.Invoice(i), keysend)
    ensures Chunky(Decimal(m.ts), invs, keysend)
  {
    hide Own, Decimal, IsChunk, Sending.Invoice;
    forall k | 0 <= k < |invs| && Own(Decimal(m.ts), invs[k].data)
      ensures IsChunk(invs[k], keysend)
    {
      assert Genuine(m, invs[k]);
    }
  }

  /** Exactly once: however the payments of a long message are reordered, repeated and mixed with
      other invoices, the receiver hands its text on once, whole, and keeps no chunk of it. */
  lemma ExactlyOnce(m: Sending, s: State, invs: seq<Invoice>, keysend: string -> bool)
    requires m.Valid() && Delivered(m, invs)
    requires Decimal(m.ts) !in s.chunks && forall h :: h in m.hashes ==> h !in s.seen
    requires forall i :: 0 <= i < Count(m.data) ==> !keysend(Packets(m.ts, m.data)[i])
    ensures HandedOn(Decimal(m.ts), invs, Runs(s, invs, keysend).effects) == [m.data]
    ensures Decimal(m.ts) !in Runs(s, invs, keysend).state.chunks
  {
    hide *;
    AllChunks(m, keysend);
    assert forall inv :: inv in invs ==> Genuine(m, inv) by {
      FromDelivered(m, invs);
    }
    OwnIsChunk(m, invs, keysend);
    Follows(Decimal(m.ts), s, invs, keysend);
    GotThrough(m, s.seen, invs, keysend);
    NotEmpty(m);
    Reassembly(m.ts, m.data, s.chunks, ChunkData(s.seen, invs, keysend));
    LastHanded(Count(m.data) - 1, m.data);
  }

  lemma NotEmpty(m: Sending)
    requires m.Valid()
    ensures m.data != "" && Count(m.data) > 0
  {
  }

  lemma FromDelivered(m: Sending, invs: seq<Invoice>)
    requires m.Valid() && Delivered(m, invs)
    ensures forall inv :: inv in invs ==> Genuine(m, inv)
  {
    hide Genuine;
  }

  lemma AllChunks(m: Sending, keysend: string -> bool)
    requires m.Valid() && forall i :: 0 <= i < Count(m.data) ==> !keysend(Packets(m.ts, m.data)[i])
    ensures forall i :: 0 <= i < |m.hashes| ==> IsChunk(m.Invoice(i), keysend)
  {
    hide Packets, IsChunk, Sending.Invoice, Count;
    forall i | 0 <= i < |m.hashes|
      ensures IsChunk(m.Invoice(i), keysend)
    {
      PacketIsChunk(m, i, keysend);
    }
  }

  // ---------------------------------------------------------------- signed texts

  /** The payloads of the texts that are handed on. */
  function PayloadsOf(texts: seq<string>, w: Wire): seq<Json> {
    if texts == [] then []
    else
      var p := ParseAndVerifyPayload(texts[|texts| - 1], w);
      var r := PayloadsOf(texts[..|texts| - 1], w);
      if p.Some? then r + [p.value] else r
  }

  /** A short text is handed on as it is. */
  lemma ShortMessage(ts: nat, amt: nat, min: nat, text: string, hash: string, s: State, keysend: string -> bool)
    requires text != "" && text[0] == '{' && |text| < MAX_MSG_LENGTH && !keysend(text) && hash !in s.seen
    ensures var ps := Keysend.Payments(ts, amt, text, min);
            |ps| == 1 && Arrival(s, Settled(hash, ps[0]), keysend) == (State(s.seen + {hash}, s.chunks), Handed(text))
  {
    hide Step;
  }

  lemma OnePayload(text: string, w: Wire)
    ensures var p := ParseAndVerifyPayload(text, w);
            PayloadsOf([text], w) == if p.Some? then [p.value] else []
  {
    hide ParseAndVerifyPayload;
    assert PayloadsOf([], w) == [];
  }

  /** End to end: a JSON object with its zbase32 signature, too long for one payment, is handed on
      exactly once by the receiver and comes apart into the same object and signature; its payload is
      taken, once, if and only if it names its sender, whatever the verdict on the signature. */
  lemma SignedTextArrives(m: Sending, json: string, sig: string, s: State, invs: seq<Invoice>, w: Wire)
    requires m.data == json + sig && json != "" && json[|json| - 1] == '}' && Zbase32.IsWord(sig)
    requires m.Valid() && Delivered(m, invs)
    requires Decimal(m.ts) !in s.chunks && forall h :: h in m.hashes ==> h !in s.seen
    requires forall i :: 0 <= i < Count(m.data) ==> !Keysends(w)(Packets(m.ts, m.data)[i])
    ensures var texts := HandedOn(Decimal(m.ts), invs, Runs(s, invs, Keysends(w)).effects);
            && texts == [json + sig] && Unsigned(json + sig) == (json, sig)
            && PayloadsOf(texts, w) == if w.parse(json).Some? && Attributed(w.parse(json).value)
                                     then [w.parse(json).value] else []
  {
    hide *;
    ExactlyOnce(m, s, invs, Keysends(w));
    Zbase32.NoBrace(sig);
    SignatureSplitsOff(json, sig);
    HandedOnIfAttributed(json + sig, w);
    OnePayload(json + sig, w);
  }
}
