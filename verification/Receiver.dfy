/** The receiving side of keysend messages: each paid invoice is looked at once, chunks are woven. */
module Receiver {
  import opened Options
  import opened Text
  import opened Weave
  import opened Payloads
  import Numbers

  /** A settled invoice: its hash, whether its owner is known, and the message it carries. */
  datatype Invoice = Invoice(hash: Option<string>, known: bool, data: string)

  datatype Effect = Nothing | Anonymous | Handed(text: string)

  datatype State = State(seen: set<string>, chunks: Store)

  predicate Repeated(seen: set<string>, inv: Invoice) {
    inv.hash.Some? && inv.hash.value in seen
  }

  function Seen(seen: set<string>, inv: Invoice): set<string> {
    if inv.hash.Some? then seen + {inv.hash.value} else seen
  }

  predicate IsChunk(inv: Invoice, keysend: string -> bool) {
    inv.known && inv.data != "" && !keysend(inv.data) && inv.data[0] != '{'
  }

  function FromWoven(out: Option<string>): Effect {
    if out == None || out.value == "" then Nothing else Handed(out.value)
  }

  /** One settled invoice; keysend tells which texts are unencrypted keysend payloads. */
  function Arrival(s: State, inv: Invoice, keysend: string -> bool): (State, Effect) {
    if Repeated(s.seen, inv) then (s, Nothing)
    else
      var seen := Seen(s.seen, inv);
      if !inv.known then (State(seen, s.chunks), Nothing)
      else if inv.data == "" || keysend(inv.data) then (State(seen, s.chunks), Anonymous)
      else if inv.data[0] == '{' then (State(seen, s.chunks), Handed(inv.data))
      else
        var w := Step(s.chunks, inv.data);
        (State(seen, w.chunks), FromWoven(w.out))
  }

  /** The payload that an invoice leads to, if its text is handed on. */
  function Accepted(e: Effect, w: Wire): Option<Json> {
    if e.Handed? then ParseAndVerifyPayload(e.text, w) else None
  }

  class Node {
    var chunks: Store
    var hashCache: set<string>

    constructor ()
      ensures chunks == map[] && hashCache == {}
    {
      chunks := map[];
      hashCache := {};
    }

    method WeaveChunk(p: string) returns (payload: Option<string>)
      modifies this`chunks
      ensures Woven(chunks, payload) == Step(old(chunks), p)
    {
      hide Sort, Numbers.Leading, Concat;
      var pa := Split(p, '_');
      if |pa| < 4 {
        return None;
      }
      var ts, i, n := pa[0], pa[1], pa[2];
      var m := Join(pa[3..], '_');
      chunks := chunks[ts := if ts in chunks then chunks[ts] + [Chunk(i, n, m)] else [Chunk(i, n, m)]];
      assert chunks[ts] == Lookup(old(chunks), ts) + [Chunk(i, n, m)];
      if Numbers.Leading(n) == Some(|chunks[ts]|) {
        var all := Sort(chunks[ts]);
        var text := "";
        ConcatNone(all);
        var k := 0;
        while k < |all|
          invariant 0 <= k <= |all|
          invariant text == Concat(Texts(all[..k]))
          invariant chunks == old(chunks)[ts := Lookup(old(chunks), ts) + [Chunk(i, n, m)]]
        {
          ConcatStep(all, k);
          text := text + all[k].m;
          k := k + 1;
        }
        assert all[..k] == all;
        chunks := chunks - {ts};
        return Some(text);
      }
      return None;
    }

    method ParseKeysendInvoice(inv: Invoice, w: Wire) returns (effect: Effect, payload: Option<Json>)
      modifies this
      ensures (State(hashCache, chunks), effect) == Arrival(old(State(hashCache, chunks)), inv, Keysends(w))
      ensures payload == Accepted(effect, w)
    {
      hide Step, ParseAndVerifyPayload, Keysends;
      if inv.hash.Some? {
        if inv.hash.value in hashCache {
          return Nothing, None;
        }
        hashCache := hashCache + {inv.hash.value};
      }
      if !inv.known {
        return Nothing, None;
      }
      if inv.data == "" || Keysends(w)(inv.data) {
        return Anonymous, None;
      }
      if inv.data[0] == '{' {
        return Handed(inv.data), ParseAndVerifyPayload(inv.data, w);
      }
      var threads := WeaveChunk(inv.data);
      if threads.Some? && threads.value != "" {
        return Handed(threads.value), ParseAndVerifyPayload(threads.value, w);
      }
      return Nothing, None;
    }
  }

  lemma ConcatStep(cs: seq<Chunk>, k: nat)
    requires k < |cs|
    ensures Concat(Texts(cs[..k + 1])) == Concat(Texts(cs[..k])) + cs[k].m
  {
    assert Texts(cs[..k + 1])[..k] == Texts(cs[..k]);
  }

  lemma ConcatNone(cs: seq<Chunk>)
    ensures Concat(Texts(cs[..0])) == ""
  {
  }

  // ---------------------------------------------------------------- runs

  datatype History = History(state: State, effects: seq<Effect>)

  /** A run over settled invoices in the order the node is told of them. */
  ghost function Runs(s: State, invs: seq<Invoice>, keysend: string -> bool): (h: History)
    ensures |h.effects| == |invs|
  {
    if invs == [] then History(s, [])
    else
      var h := Runs(s, invs[..|invs| - 1], keysend);
      var (t, e) := Arrival(h.state, invs[|invs| - 1], keysend);
      History(t, h.effects + [e])
  }

  /** What is handed on at the packets of one timestamp. */
  ghost function HandedOn(ts: string, invs: seq<Invoice>, effects: seq<Effect>): seq<string>
    requires |invs| == |effects|
  {
    if invs == [] then []
    else
      var m := |invs| - 1;
      var r := HandedOn(ts, invs[..m], effects[..m]);
      if Own(ts, invs[m].data) && effects[m].Handed? then r + [effects[m].text] else r
  }

  ghost function Hashes(seen: set<string>, invs: seq<Invoice>): set<string> {
    if invs == [] then seen else Seen(Hashes(seen, invs[..|invs| - 1]), invs[|invs| - 1])
  }

  /** The packets that reach the store: no repeated invoice, nothing that is not a chunk. */
  ghost function ChunkData(seen: set<string>, invs: seq<Invoice>, keysend: string -> bool): seq<string> {
    if invs == [] then []
    else
      var m := |invs| - 1;
      var r := ChunkData(seen, invs[..m], keysend);
      if !Repeated(Hashes(seen, invs[..m]), invs[m]) && IsChunk(invs[m], keysend) then r + [invs[m].data] else r
  }

  ghost function NonEmpty(outs: seq<Option<string>>): seq<string> {
    if outs == [] then []
    else
      var r := NonEmpty(outs[..|outs| - 1]);
      var e := FromWoven(outs[|outs| - 1]);
      if e.Handed? then r + [e.text] else r
  }

  lemma ArrivalSeen(s: State, inv: Invoice, keysend: string -> bool)
    ensures Arrival(s, inv, keysend).0.seen == Seen(s.seen, inv)
  {
    hide Step;
  }

  lemma {:induction false} RunsSeen(s: State, invs: seq<Invoice>, keysend: string -> bool)
    ensures Runs(s, invs, keysend).state.seen == Hashes(s.seen, invs)
  {
    hide Arrival;
    if invs != [] {
      RunsSeen(s, invs[..|invs| - 1], keysend);
      ArrivalSeen(Runs(s, invs[..|invs| - 1], keysend).state, invs[|invs| - 1], keysend);
    }
  }

  /** The texts of a timestamp's packets are never plain messages. */
  ghost predicate Chunky(ts: string, invs: seq<Invoice>, keysend: string -> bool) {
    forall k :: 0 <= k < |invs| && Own(ts, invs[k].data) ==> IsChunk(invs[k], keysend)
  }

  /** An invoice is looked at once; one without a known owner leads to nothing, an empty or unencrypted one
      is saved as anonymous, and a JSON message is handed on as it is; none of them touches the chunks. */
  lemma ArrivalIs(s: State, inv: Invoice, keysend: string -> bool)
    ensures var (t, e) := Arrival(s, inv, keysend);
            if inv.hash.Some? && inv.hash.value in s.seen then t == s && e == Nothing
            else
              && t.seen == (if inv.hash.Some? then s.seen + {inv.hash.value} else s.seen)
              && (!inv.known ==> e == Nothing && t.chunks == s.chunks)
              && (inv.known && (inv.data == "" || keysend(inv.data)) ==> e == Anonymous && t.chunks == s.chunks)
              && (inv.known && inv.data != "" && !keysend(inv.data) && inv.data[0] == '{' ==>
                    e == Handed(inv.data) && t.chunks == s.chunks)
  {
    hide Step;
  }

  lemma ArrivalOfChunk(s: State, inv: Invoice, keysend: string -> bool)
    requires !Repeated(s.seen, inv) && IsChunk(inv, keysend)
    ensures var (t, e) := Arrival(s, inv, keysend);
            t.chunks == Step(s.chunks, inv.data).chunks && e == FromWoven(Step(s.chunks, inv.data).out)
  {
    hide Step;
  }

  lemma ArrivalOfOther(s: State, inv: Invoice, keysend: string -> bool)
    requires Repeated(s.seen, inv) || !IsChunk(inv, keysend)
    ensures Arrival(s, inv, keysend).0.chunks == s.chunks
    ensures Repeated(s.seen, inv) ==> Arrival(s, inv, keysend).1 == Nothing
  {
    hide Step;
  }

  /** The node's run is the store's run over the packets that get through. */
  lemma {:induction false} Follows(ts: string, s: State, invs: seq<Invoice>, keysend: string -> bool)
    requires Chunky(ts, invs, keysend)
    ensures var h, ps := Runs(s, invs, keysend), ChunkData(s.seen, invs, keysend);
            && h.state.chunks == Run(s.chunks, ps).chunks
            && HandedOn(ts, invs, h.effects) == NonEmpty(OwnOutputs(ts, ps, Run(s.chunks, ps).outs))
  {
    hide Arrival, Step, ParsePacket, Own, IsChunk, FromWoven, Repeated;
    if invs != [] {
      var m := |invs| - 1;
      var f, inv := invs[..m], invs[m];
      Follows(ts, s, f, keysend);
      RunsSeen(s, f, keysend);
      var was := Runs(s, f, keysend);
      var h := Runs(s, invs, keysend);
      assert h.effects[..m] == was.effects;
      var ps, qs := ChunkData(s.seen, f, keysend), ChunkData(s.seen, invs, keysend);
      if !Repeated(was.state.seen, inv) && IsChunk(inv, keysend) {
        ArrivalOfChunk(was.state, inv, keysend);
        assert qs == ps + [inv.data];
        FollowsChunk(ts, s.chunks, ps, inv.data);
      } else {
        ArrivalOfOther(was.state, inv, keysend);
        assert qs == ps;
      }
    }
  }

  lemma FollowsChunk(ts: string, chunks: Store, ps: seq<string>, p: string)
    ensures var qs := ps + [p];
            var w := Step(Run(chunks, ps).chunks, p);
            && Run(chunks, qs).chunks == w.chunks
            && NonEmpty(OwnOutputs(ts, qs, Run(chunks, qs).outs))
               == if Own(ts, p) && FromWoven(w.out).Handed?
                  then NonEmpty(OwnOutputs(ts, ps, Run(chunks, ps).outs)) + [FromWoven(w.out).text]
                  else NonEmpty(OwnOutputs(ts, ps, Run(chunks, ps).outs))
  {
    hide Step, ParsePacket, Own, FromWoven;
    var qs := ps + [p];
    assert qs[..|ps|] == ps;
    var t := Run(chunks, qs);
    assert t.outs[..|ps|] == Run(chunks, ps).outs;
    var os := OwnOutputs(ts, ps, Run(chunks, ps).outs);
    assert (os + [t.outs[|ps|]])[..|os|] == os;
  }
}
