/** Long messages travel as numbered chunks and are woven together by the receiver. */
module Weave {
  import Arithmetic
  import Numbers
  import opened Options
  import opened Text

  const MAX_MSG_LENGTH := 972

  // ---------------------------------------------------------------- the sender's chunks

  function Ceil(a: nat, b: nat): nat
    requires b > 0
  {
    (a + b - 1) / b
  }

  /** The part of s between two positions, each cut off at the end of s. */
  function Substring(s: string, a: nat, b: nat): string
    requires a <= b
  {
    var hi := if b < |s| then b else |s|;
    var lo := if a < hi then a else hi;
    s[lo..hi]
  }

  function Count(data: string): nat {
    Ceil(|data|, MAX_MSG_LENGTH)
  }

  /** The length of a chunk body. */
  function Span(data: string): nat
    requires data != ""
  {
    Ceil(|data|, Count(data))
  }

  lemma CountPositive(data: string)
    requires data != ""
    ensures Count(data) > 0
  {
  }

  function Body(data: string, i: nat): string
    requires data != ""
  {
    Substring(data, i * Span(data), i * Span(data) + Span(data))
  }

  function Packet(ts: nat, i: nat, n: nat, m: string): string {
    Decimal(ts) + "_" + Decimal(i) + "_" + Decimal(n) + "_" + m
  }

  /** What the sender puts on the wire for a message that is too long for one payment. */
  function Packets(ts: nat, data: string): (ps: seq<string>)
    requires data != ""
    ensures |ps| == Count(data)
  {
    seq(Count(data), i requires 0 <= i < Count(data) => Packet(ts, i, Count(data), Body(data, i)))
  }

  function Concat(ms: seq<string>): string {
    if ms == [] then "" else Concat(ms[..|ms| - 1]) + ms[|ms| - 1]
  }

  function Bodies(data: string, k: nat): (ms: seq<string>)
    requires data != ""
    ensures |ms| == k
  {
    seq(k, i requires 0 <= i < k => Body(data, i))
  }

  lemma CeilBounds(a: nat, b: nat)
    requires b > 0
    ensures a <= b * Ceil(a, b) < a + b
  {
  }

  lemma CeilAtMost(a: nat, b: nat, m: nat)
    requires b > 0 && a <= b * m
    ensures Ceil(a, b) <= m
  {
    CeilBounds(a, b);
    if Ceil(a, b) > m {
      Arithmetic.Multiple(m + 1, Ceil(a, b), b);
      assert false;
    }
  }

  lemma SpanWithinLimit(data: string)
    requires data != ""
    ensures Span(data) <= MAX_MSG_LENGTH
    ensures Count(data) * Span(data) >= |data|
  {
    hide Ceil;
    CeilBounds(|data|, MAX_MSG_LENGTH);
    CeilBounds(|data|, Count(data));
    CeilAtMost(|data|, Count(data), MAX_MSG_LENGTH);
  }

  /** No chunk body is longer than the limit. */
  lemma BodyWithinLimit(data: string, i: nat)
    requires data != ""
    ensures |Body(data, i)| <= 972
  {
    hide Ceil, Span;
    SpanWithinLimit(data);
  }

  /** There are no more chunks than the limit of 972 characters asks for. */
  lemma ChunksAreFew(data: string)
    requires data != ""
    ensures (Count(data) - 1) * 972 < |data| <= Count(data) * 972
  {
  }

  lemma SubstringStep(s: string, a: nat, b: nat)
    requires a <= b
    ensures Substring(s, 0, a) + Substring(s, a, b) == Substring(s, 0, b)
  {
  }

  lemma BodiesLast(data: string, k: nat)
    requires data != "" && k > 0
    ensures Concat(Bodies(data, k)) == Concat(Bodies(data, k - 1)) + Body(data, k - 1)
  {
    hide Body;
    assert Bodies(data, k)[..k - 1] == Bodies(data, k - 1);
  }

  lemma OneMore(k: nat, n: nat)
    requires k > 0
    ensures (k - 1) * n + n == k * n
  {
  }

  lemma {:induction false} BodiesPrefix(data: string, k: nat)
    requires data != ""
    ensures Concat(Bodies(data, k)) == Substring(data, 0, k * Span(data))
  {
    hide Span, Substring, Concat, Bodies;
    if k == 0 {
      NoBodies(data);
    } else {
      BodiesPrefix(data, k - 1);
      BodiesLast(data, k);
      OneMore(k, Span(data));
      SubstringStep(data, (k - 1) * Span(data), k * Span(data));
    }
  }

  lemma NoBodies(data: string)
    requires data != ""
    ensures Concat(Bodies(data, 0)) == Substring(data, 0, 0) == ""
  {
  }

  /** The chunk bodies are the message cut into pieces. */
  lemma BodiesJoin(data: string)
    requires data != ""
    ensures Concat(Bodies(data, Count(data))) == data
  {
    hide Span, Ceil;
    BodiesPrefix(data, Count(data));
    SpanWithinLimit(data);
  }

  // ---------------------------------------------------------------- taking a packet apart

  /** A chunk as the receiver stores it; its number stays text until chunks are sorted. */
  datatype Chunk = Chunk(i: string, n: string, m: string)

  datatype Fields = Fields(ts: string, chunk: Chunk)

  function ParsePacket(p: string): Option<Fields> {
    var pa := Split(p, '_');
    if |pa| < 4 then None else Some(Fields(pa[0], Chunk(pa[1], pa[2], Join(pa[3..], '_'))))
  }

  lemma NoUnderscore(n: nat)
    ensures '_' !in Decimal(n)
  {
    assert !IsDigit('_');
  }

  /** The fields of a packet are recovered, underscores in the body included. */
  lemma ParsePacketInverts(ts: nat, i: nat, n: nat, m: string)
    ensures ParsePacket(Packet(ts, i, n, m)) == Some(Fields(Decimal(ts), Chunk(Decimal(i), Decimal(n), m)))
  {
    NoUnderscore(ts);
    NoUnderscore(i);
    NoUnderscore(n);
    var c := m;
    var b := Decimal(n) + "_" + c;
    var a := Decimal(i) + "_" + b;
    Regroup(Decimal(ts), Decimal(i), Decimal(n), m);
    SplitFirst(Decimal(ts), a, '_');
    SplitFirst(Decimal(i), b, '_');
    SplitFirst(Decimal(n), c, '_');
    JoinSplit(m, '_');
    var rest := Split(m, '_');
    assert Split(Packet(ts, i, n, m), '_') == [Decimal(ts), Decimal(i), Decimal(n)] + rest;
    assert ([Decimal(ts), Decimal(i), Decimal(n)] + rest)[3..] == rest;
  }

  /** A packet is time stamp, number, count and body, in this order, between underscores. */
  lemma PacketFields(ts: nat, i: nat, n: nat, m: string)
    ensures var pa := Split(Packet(ts, i, n, m), '_');
            |pa| >= 4 && pa[..3] == [Decimal(ts), Decimal(i), Decimal(n)] && Join(pa[3..], '_') == m
  {
    hide Decimal, Packet;
    ParsePacketInverts(ts, i, n, m);
  }

  lemma Regroup(a: string, b: string, c: string, d: string)
    ensures a + "_" + b + "_" + c + "_" + d == a + ['_'] + (b + ['_'] + (c + ['_'] + d))
  {
  }

  /** A packet never starts like a JSON object, so the receiver treats it as a chunk. */
  lemma PacketStartsWithDigit(ts: nat, i: nat, n: nat, m: string)
    ensures Packet(ts, i, n, m) != "" && Packet(ts, i, n, m)[0] != '{'
  {
    assert Packet(ts, i, n, m)[0] == Decimal(ts)[0];
    assert Decimal(ts)[0] in Decimal(ts);
    assert !IsDigit('{');
  }

  // ---------------------------------------------------------------- sorting

  /** Whether a sorts strictly behind b; texts that are no numbers compare as equal. */
  predicate Behind(a: Chunk, b: Chunk) {
    var x, y := Number(a.i), Number(b.i);
    x.Some? && y.Some? && x.value > y.value
  }

  function Insert(c: Chunk, cs: seq<Chunk>): (r: seq<Chunk>)
    ensures multiset(r) == multiset(cs) + multiset{c}
  {
    if cs == [] then [c]
    else if Behind(cs[|cs| - 1], c) then
      assert cs == cs[..|cs| - 1] + [cs[|cs| - 1]];
      Insert(c, cs[..|cs| - 1]) + [cs[|cs| - 1]]
    else cs + [c]
  }

  /** A stable sort by chunk number. */
  function Sort(cs: seq<Chunk>): (r: seq<Chunk>)
    ensures multiset(r) == multiset(cs)
  {
    if cs == [] then []
    else
      assert cs == cs[..|cs| - 1] + [cs[|cs| - 1]];
      Insert(cs[|cs| - 1], Sort(cs[..|cs| - 1]))
  }

  /** Every chunk has a number, and they ascend strictly. */
  ghost predicate Ascending(cs: seq<Chunk>) {
    (forall k :: 0 <= k < |cs| ==> Number(cs[k].i).Some?) &&
    forall j, k :: 0 <= j < k < |cs| ==> Number(cs[j].i).value < Number(cs[k].i).value
  }

  /** Numbered chunks with no number twice. */
  ghost predicate Distinct(cs: seq<Chunk>) {
    (forall k :: 0 <= k < |cs| ==> Number(cs[k].i).Some?) &&
    forall j, k :: 0 <= j < k < |cs| ==> Number(cs[j].i).value != Number(cs[k].i).value
  }

  lemma InMultiset(c: Chunk, cs: seq<Chunk>)
    ensures c in multiset(cs) <==> c in cs
  {
  }

  lemma AscendingMore(r: seq<Chunk>, last: Chunk)
    requires Ascending(r) && Number(last.i).Some?
    requires forall k :: 0 <= k < |r| ==> Number(r[k].i).value < Number(last.i).value
    ensures Ascending(r + [last])
  {
    hide Number;
  }

  lemma {:induction false} InsertAscending(c: Chunk, cs: seq<Chunk>)
    requires Ascending(cs) && Number(c.i).Some?
    requires forall d :: d in cs ==> Number(d.i).value != Number(c.i).value
    ensures Ascending(Insert(c, cs))
  {
    hide Number;
    if cs != [] && Behind(cs[|cs| - 1], c) {
      var h, last := cs[..|cs| - 1], cs[|cs| - 1];
      InsertAscending(c, h);
      var r := Insert(c, h);
      forall k | 0 <= k < |r|
        ensures Number(r[k].i).value < Number(last.i).value
      {
        InMultiset(r[k], r);
        assert r[k] in multiset(h) + multiset{c};
        if r[k] != c {
          assert r[k] in h;
        }
      }
      AscendingMore(r, last);
    } else {
      InsertedLast(c, cs);
    }
  }

  lemma InsertedLast(c: Chunk, cs: seq<Chunk>)
    requires Ascending(cs) && Number(c.i).Some? && (cs == [] || !Behind(cs[|cs| - 1], c))
    requires forall d :: d in cs ==> Number(d.i).value != Number(c.i).value
    ensures Ascending(cs + [c])
  {
    hide Number;
    forall k | 0 <= k < |cs|
      ensures Number(cs[k].i).value < Number(c.i).value
    {
      assert cs[|cs| - 1] in cs;
    }
    AscendingMore(cs, c);
  }

  lemma {:induction false} SortAscending(cs: seq<Chunk>)
    requires Distinct(cs)
    ensures Ascending(Sort(cs))
  {
    hide Number;
    if cs != [] {
      var h, last := cs[..|cs| - 1], cs[|cs| - 1];
      SortAscending(h);
      forall d | d in Sort(h)
        ensures Number(d.i).value != Number(last.i).value
      {
        InMultiset(d, Sort(h));
        InMultiset(d, h);
      }
      InsertAscending(last, Sort(h));
    }
  }

  lemma AscendingLast(a: seq<Chunk>, b: seq<Chunk>)
    requires Ascending(a) && Ascending(b) && a != [] && b != []
    requires a[|a| - 1] in b && b[|b| - 1] in a
    ensures a[|a| - 1] == b[|b| - 1]
  {
    hide Number;
    var j :| 0 <= j < |b| && b[j] == a[|a| - 1];
    var i :| 0 <= i < |a| && a[i] == b[|b| - 1];
  }

  ghost predicate SameChunks(a: seq<Chunk>, b: seq<Chunk>) {
    forall c :: c in a <==> c in b
  }

  /** There is one way to put chunks into ascending order. */
  lemma {:induction false} AscendingUnique(a: seq<Chunk>, b: seq<Chunk>)
    requires Ascending(a) && Ascending(b) && SameChunks(a, b)
    ensures a == b
    decreases |a|
  {
    hide Number, Ascending;
    EmptySame(a, b);
    if a != [] {
      assert a[0] in b;
      AscendingLast(a, b);
      AscendingPrefix(a);
      AscendingPrefix(b);
      SamePrefix(a, b);
      AscendingUnique(a[..|a| - 1], b[..|b| - 1]);
      assert a == a[..|a| - 1] + [a[|a| - 1]] && b == b[..|b| - 1] + [b[|b| - 1]];
    }
  }

  lemma EmptySame(a: seq<Chunk>, b: seq<Chunk>)
    requires SameChunks(a, b)
    ensures a == [] <==> b == []
  {
    if a != [] {
      assert a[0] in b;
    }
    if b != [] {
      assert b[0] in a;
    }
  }

  lemma SamePrefix(a: seq<Chunk>, b: seq<Chunk>)
    requires a != [] && b != [] && SameChunks(a, b) && a[|a| - 1] == b[|b| - 1]
    requires forall c :: c in a[..|a| - 1] <==> c in a && c != a[|a| - 1]
    requires forall c :: c in b[..|b| - 1] <==> c in b && c != b[|b| - 1]
    ensures SameChunks(a[..|a| - 1], b[..|b| - 1])
  {
    var a', b' := a[..|a| - 1], b[..|b| - 1];
    forall c | c in a'
      ensures c in b'
    {
      assert c in a;
    }
    forall c | c in b'
      ensures c in a'
    {
      assert c in b;
    }
  }

  lemma AscendingPrefix(a: seq<Chunk>)
    requires Ascending(a) && a != []
    ensures Ascending(a[..|a| - 1])
    ensures forall c :: c in a[..|a| - 1] <==> c in a && c != a[|a| - 1]
  {
    hide Number;
    var h, last := a[..|a| - 1], a[|a| - 1];
    assert a == h + [last];
    forall c | c in h
      ensures c != last
    {
      var k :| 0 <= k < |h| && h[k] == c;
      assert Number(a[k].i).value < Number(last.i).value;
    }
  }

  // ---------------------------------------------------------------- the receiver's store

  type Store = map<string, seq<Chunk>>

  datatype Woven = Woven(chunks: Store, out: Option<string>)

  function Lookup(chunks: Store, ts: string): seq<Chunk> {
    if ts in chunks then chunks[ts] else []
  }

  function Texts(cs: seq<Chunk>): (ms: seq<string>)
    ensures |ms| == |cs|
  {
    seq(|cs|, k requires 0 <= k < |cs| => cs[k].m)
  }

  /** What arrives with one packet: the store afterwards and the message it completes. */
  function Step(chunks: Store, p: string): Woven {
    match ParsePacket(p)
    case None => Woven(chunks, None)
    case Some(f) =>
      var all := Lookup(chunks, f.ts) + [f.chunk];
      if Numbers.Leading(f.chunk.n) == Some(|all|) then Woven(chunks - {f.ts}, Some(Concat(Texts(Sort(all)))))
      else Woven(chunks[f.ts := all], None)
  }

  datatype Trace = Trace(chunks: Store, outs: seq<Option<string>>)

  /** A run over packets in their order of arrival. */
  ghost function Run(chunks: Store, ps: seq<string>): (t: Trace)
    ensures |t.outs| == |ps|
  {
    if ps == [] then Trace(chunks, [])
    else
      var t := Run(chunks, ps[..|ps| - 1]);
      var w := Step(t.chunks, ps[|ps| - 1]);
      Trace(w.chunks, t.outs + [w.out])
  }

  // ---------------------------------------------------------------- one message among others

  ghost predicate Own(ts: string, p: string) {
    ParsePacket(p).Some? && ParsePacket(p).value.ts == ts
  }

  /** The packets of one timestamp, in order of arrival. */
  ghost function OwnPackets(ts: string, ps: seq<string>): (q: seq<string>)
    ensures forall p :: p in q ==> Own(ts, p)
  {
    if ps == [] then []
    else
      var q := OwnPackets(ts, ps[..|ps| - 1]);
      if Own(ts, ps[|ps| - 1]) then q + [ps[|ps| - 1]] else q
  }

  /** What the receiver returns for those packets. */
  ghost function OwnOutputs(ts: string, ps: seq<string>, outs: seq<Option<string>>): seq<Option<string>>
    requires |ps| == |outs|
  {
    if ps == [] then []
    else
      var m := |ps| - 1;
      var os := OwnOutputs(ts, ps[..m], outs[..m]);
      if Own(ts, ps[m]) then os + [outs[m]] else os
  }

  datatype Local = Local(all: seq<Chunk>, outs: seq<Option<string>>)

  /** One more chunk: the text is complete when there are as many as it says. */
  function LocalStep(l: Local, c: Chunk): (r: Local)
    ensures |r.outs| == |l.outs| + 1
  {
    var all := l.all + [c];
    if Numbers.Leading(c.n) == Some(|all|) then Local([], l.outs + [Some(Concat(Texts(Sort(all))))])
    else Local(all, l.outs + [None])
  }

  /** The run as one timestamp sees it. */
  ghost function LocalRun(q: seq<string>): (l: Local)
    requires forall p :: p in q ==> ParsePacket(p).Some?
    ensures |l.outs| == |q|
  {
    if q == [] then Local([], [])
    else
      LocalStep(LocalRun(q[..|q| - 1]), ParsePacket(q[|q| - 1]).value.chunk)
  }

  lemma StepOfOther(ts: string, chunks: Store, p: string)
    requires !Own(ts, p)
    ensures Lookup(Step(chunks, p).chunks, ts) == Lookup(chunks, ts)
    ensures ts in Step(chunks, p).chunks <==> ts in chunks
  {
    hide ParsePacket, Numbers.Leading, Number, Sort, Concat;
  }

  lemma StepOfOwn(ts: string, chunks: Store, p: string)
    requires Own(ts, p)
    ensures var w, c := Step(chunks, p), ParsePacket(p).value.chunk;
            var all := Lookup(chunks, ts) + [c];
            if Numbers.Leading(c.n) == Some(|all|) then
              ts !in w.chunks && w.out == Some(Concat(Texts(Sort(all))))
            else ts in w.chunks && w.chunks[ts] == all && w.out == None
  {
    hide ParsePacket, Numbers.Leading, Number, Sort, Concat;
  }

  /** Other timestamps do not matter. */
  lemma {:induction false} Isolation(ts: string, chunks: Store, ps: seq<string>)
    requires ts !in chunks
    ensures var t, l := Run(chunks, ps), LocalRun(OwnPackets(ts, ps));
            && Lookup(t.chunks, ts) == l.all && OwnOutputs(ts, ps, t.outs) == l.outs
            && (ts in t.chunks <==> l.all != [])
  {
    hide ParsePacket, Numbers.Leading, Number, Sort, Concat, Step, Texts, Own;
    if ps != [] {
      var m := |ps| - 1;
      var h, p := ps[..m], ps[m];
      Isolation(ts, chunks, h);
      var t := Run(chunks, ps);
      assert t.outs[..m] == Run(chunks, h).outs;
      if Own(ts, p) {
        StepOfOwn(ts, Run(chunks, h).chunks, p);
        var q := OwnPackets(ts, h);
        assert (q + [p])[..|q|] == q;
      } else {
        StepOfOther(ts, Run(chunks, h).chunks, p);
      }
    }
  }

  // ---------------------------------------------------------------- reassembly

  function ChunkOf(n: nat, i: nat, m: string): Chunk {
    Chunk(Decimal(i), Decimal(n), m)
  }

  /** The chunks of a message in order. */
  ghost function InOrder(data: string): (cs: seq<Chunk>)
    requires data != ""
    ensures |cs| == Count(data)
  {
    seq(Count(data), i requires 0 <= i < Count(data) => ChunkOf(Count(data), i, Body(data, i)))
  }

  ghost function Parsed(q: seq<string>): (cs: seq<Chunk>)
    requires forall p :: p in q ==> ParsePacket(p).Some?
    ensures |cs| == |q| && forall k :: 0 <= k < |q| ==> cs[k] == ParsePacket(q[k]).value.chunk
  {
    seq(|q|, k requires 0 <= k < |q| => ParsePacket(q[k]).value.chunk)
  }

  /** q holds exactly the packets of a message, each once, in any order. */
  ghost predicate Shuffled(ts: nat, data: string, q: seq<string>)
    requires data != ""
  {
    multiset(q) == multiset(Packets(ts, data))
  }

  lemma PacketParsed(ts: nat, data: string, i: nat)
    requires data != "" && i < Count(data)
    ensures ParsePacket(Packets(ts, data)[i]) == Some(Fields(Decimal(ts), InOrder(data)[i]))
  {
    hide ParsePacket, Decimal, Body;
    ParsePacketInverts(ts, i, Count(data), Body(data, i));
  }

  lemma InOrderAscends(data: string)
    requires data != ""
    ensures Ascending(InOrder(data))
  {
    hide Number, Decimal, Body;
    var cs := InOrder(data);
    forall i | 0 <= i < |cs|
      ensures Number(cs[i].i) == Some(i)
    {
      ParseDecimal(i);
    }
  }

  /** The packet at some place of a shuffled message. */
  lemma Indexed(ts: nat, data: string, q: seq<string>, k: nat) returns (i: nat)
    requires data != "" && Shuffled(ts, data, q) && k < |q|
    ensures i < Count(data) && q[k] == Packets(ts, data)[i]
    ensures ParsePacket(q[k]) == Some(Fields(Decimal(ts), InOrder(data)[i]))
  {
    hide ParsePacket, Decimal, Body;
    assert q[k] in multiset(q);
    assert q[k] in Packets(ts, data);
    i :| 0 <= i < Count(data) && q[k] == Packets(ts, data)[i];
    PacketParsed(ts, data, i);
  }

  lemma Arrives(ts: nat, data: string, q: seq<string>, i: nat) returns (k: nat)
    requires data != "" && Shuffled(ts, data, q) && i < Count(data)
    ensures k < |q| && q[k] == Packets(ts, data)[i]
  {
    hide Decimal, Body;
    assert Packets(ts, data)[i] in multiset(Packets(ts, data));
    assert Packets(ts, data)[i] in q;
    k :| 0 <= k < |q| && q[k] == Packets(ts, data)[i];
  }

  lemma Counted(s: seq<string>, j: nat, k: nat)
    requires j < k < |s| && s[j] == s[k]
    ensures multiset(s)[s[j]] >= 2
  {
    assert s == s[..k] + s[k..];
    assert s[j] in s[..k] && s[k] in s[k..];
  }

  lemma {:induction false} CountedOnce(s: seq<string>, x: string)
    requires forall j, k :: 0 <= j < k < |s| ==> s[j] != s[k]
    ensures multiset(s)[x] <= 1
  {
    if s != [] {
      var m := |s| - 1;
      CountedOnce(s[..m], x);
      assert s == s[..m] + [s[m]];
      if x == s[m] {
        assert x !in s[..m];
      }
    }
  }

  lemma PacketsDistinct(ts: nat, data: string)
    requires data != ""
    ensures forall j, k :: 0 <= j < k < Count(data) ==> Packets(ts, data)[j] != Packets(ts, data)[k]
  {
    hide ParsePacket, Decimal, Body;
    forall j, k | 0 <= j < k < Count(data)
      ensures Packets(ts, data)[j] != Packets(ts, data)[k]
    {
      PacketParsed(ts, data, j);
      PacketParsed(ts, data, k);
      if Packets(ts, data)[j] == Packets(ts, data)[k] {
        DecimalInjective(j, k);
      }
    }
  }

  lemma AllParsed(ts: nat, data: string, q: seq<string>)
    requires data != "" && Shuffled(ts, data, q)
    ensures |q| == Count(data) && forall p :: p in q ==> ParsePacket(p).Some?
  {
    hide ParsePacket, Decimal, Body;
    assert |multiset(q)| == |q| && |multiset(Packets(ts, data))| == Count(data);
    forall p | p in q
      ensures ParsePacket(p).Some?
    {
      var k :| 0 <= k < |q| && q[k] == p;
      var i := Indexed(ts, data, q, k);
    }
  }

  lemma ShuffledDistinct(ts: nat, data: string, q: seq<string>)
    requires data != "" && Shuffled(ts, data, q) && forall p :: p in q ==> ParsePacket(p).Some?
    ensures Distinct(Parsed(q))
  {
    hide ParsePacket, Decimal, Body, Numbers.Leading, Number, Packets;
    forall k | 0 <= k < |q|
      ensures Number(Parsed(q)[k].i).Some?
    {
      var i := Indexed(ts, data, q, k);
      ParseDecimal(i);
    }
    forall j, k | 0 <= j < k < |q|
      ensures Number(Parsed(q)[j].i).value != Number(Parsed(q)[k].i).value
    {
      var x := Indexed(ts, data, q, j);
      var y := Indexed(ts, data, q, k);
      ParseDecimal(x);
      ParseDecimal(y);
      if x == y {
        Counted(q, j, k);
        PacketsDistinct(ts, data);
        CountedOnce(Packets(ts, data), q[j]);
      }
    }
  }

  lemma ShuffledSame(ts: nat, data: string, q: seq<string>)
    requires data != "" && Shuffled(ts, data, q) && forall p :: p in q ==> ParsePacket(p).Some?
    ensures SameChunks(Parsed(q), InOrder(data))
  {
    hide ParsePacket, Decimal, Body, Numbers.Leading, Number, Packets, Shuffled;
    forall c | c in Parsed(q)
      ensures c in InOrder(data)
    {
      var k :| 0 <= k < |q| && Parsed(q)[k] == c;
      var i := Indexed(ts, data, q, k);
    }
    forall c | c in InOrder(data)
      ensures c in Parsed(q)
    {
      var i :| 0 <= i < Count(data) && InOrder(data)[i] == c;
      var k := Arrives(ts, data, q, i);
      PacketParsed(ts, data, i);
      assert Parsed(q)[k] == c;
    }
  }

  /** Sorting the arrived chunks restores their order. */
  lemma SortRestores(ts: nat, data: string, q: seq<string>)
    requires data != "" && Shuffled(ts, data, q) && forall p :: p in q ==> ParsePacket(p).Some?
    ensures Sort(Parsed(q)) == InOrder(data)
  {
    hide ParsePacket, Decimal, Body, Numbers.Leading, Number, Packets, Shuffled, Ascending;
    ShuffledDistinct(ts, data, q);
    SortAscending(Parsed(q));
    ShuffledSame(ts, data, q);
    InOrderAscends(data);
    SortSame(Parsed(q));
    AscendingUnique(Sort(Parsed(q)), InOrder(data));
  }

  lemma SortSame(cs: seq<Chunk>)
    ensures SameChunks(Sort(cs), cs)
  {
    hide Number;
    forall c
      ensures c in Sort(cs) <==> c in cs
    {
      InMultiset(c, Sort(cs));
      InMultiset(c, cs);
    }
  }

  ghost function Nones(k: nat): (s: seq<Option<string>>)
    ensures |s| == k
  {
    seq(k, _ => None)
  }

  /** Before the last chunk nothing is returned and everything is kept. */
  lemma {:induction false} Pending(ts: nat, data: string, q: seq<string>, k: nat)
    requires data != "" && Shuffled(ts, data, q) && k < |q| == Count(data)
    requires forall p :: p in q ==> ParsePacket(p).Some?
    ensures LocalRun(q[..k]) == Local(Parsed(q[..k]), Nones(k))
  {
    hide ParsePacket, Decimal, Body, Numbers.Leading, Number, Packets, Shuffled, Sort, Concat;
    if k > 0 {
      Pending(ts, data, q, k - 1);
      assert q[..k][..k - 1] == q[..k - 1];
      var i := Indexed(ts, data, q, k - 1);
      Numbers.LeadingOfDecimal(Count(data));
      ParsedLast(q[..k]);
      assert Nones(k) == Nones(k - 1) + [None];
    }
  }

  lemma TextsInOrder(data: string)
    requires data != ""
    ensures Texts(InOrder(data)) == Bodies(data, Count(data))
  {
    hide Body, Decimal;
  }

  /** The last chunk returns the message and leaves nothing behind. */
  lemma Completed(ts: nat, data: string, q: seq<string>)
    requires data != "" && Shuffled(ts, data, q)
    requires |q| == Count(data) > 0 && forall p :: p in q ==> ParsePacket(p).Some?
    ensures LocalRun(q) == Local([], Nones(Count(data) - 1) + [Some(data)])
  {
    hide *;
    var n := Count(data);
    Pending(ts, data, q, n - 1);
    LastIsFull(ts, data, q);
    LocalRunLast(q);
    ParsedLast(q);
    Rebuilt(ts, data, q);
  }

  lemma LocalRunLast(q: seq<string>)
    requires q != [] && forall p :: p in q ==> ParsePacket(p).Some?
    requires var m := |q| - 1; LocalRun(q[..m]).all == Parsed(q[..m])
    requires Numbers.Leading(ParsePacket(q[|q| - 1]).value.chunk.n) == Some(|q|)
    ensures var m := |q| - 1;
            LocalRun(q) == Local([], LocalRun(q[..m]).outs
              + [Some(Concat(Texts(Sort(Parsed(q[..m]) + [ParsePacket(q[m]).value.chunk]))))])
  {
    hide ParsePacket, LocalStep, Parsed;
    var m := |q| - 1;
    LocalFull(LocalRun(q[..m]), ParsePacket(q[m]).value.chunk);
  }

  lemma LocalFull(l: Local, c: Chunk)
    requires Numbers.Leading(c.n) == Some(|l.all| + 1)
    ensures LocalStep(l, c) == Local([], l.outs + [Some(Concat(Texts(Sort(l.all + [c]))))])
  {
    hide Numbers.Leading, Sort, Concat, Texts;
  }

  lemma LastIsFull(ts: nat, data: string, q: seq<string>)
    requires data != "" && Shuffled(ts, data, q) && |q| == Count(data) > 0
    requires forall p :: p in q ==> ParsePacket(p).Some?
    ensures Numbers.Leading(ParsePacket(q[|q| - 1]).value.chunk.n) == Some(|q|)
  {
    hide ParsePacket, Decimal, Body, Numbers.Leading, Number, Packets, Shuffled, InOrder, Count, Ceil;
    var i := Indexed(ts, data, q, |q| - 1);
    ChunkNumber(data, i);
    Numbers.LeadingOfDecimal(Count(data));
  }

  lemma Rebuilt(ts: nat, data: string, q: seq<string>)
    requires data != "" && Shuffled(ts, data, q) && forall p :: p in q ==> ParsePacket(p).Some?
    ensures Concat(Texts(Sort(Parsed(q)))) == data
  {
    hide *;
    SortRestores(ts, data, q);
    TextsInOrder(data);
    BodiesJoin(data);
  }

  lemma ParsedLast(q: seq<string>)
    requires q != [] && forall p :: p in q ==> ParsePacket(p).Some?
    ensures Parsed(q) == Parsed(q[..|q| - 1]) + [ParsePacket(q[|q| - 1]).value.chunk]
  {
    hide ParsePacket;
  }

  lemma ChunkNumber(data: string, i: nat)
    requires data != "" && i < Count(data)
    ensures InOrder(data)[i].n == Decimal(Count(data))
  {
  }

  /** Reassembly: whatever the order of arrival and whatever arrives in between, the receiver
      returns the message at its last chunk, nothing at the others, and keeps no entry. */
  lemma Reassembly(ts: nat, data: string, chunks: Store, ps: seq<string>)
    requires data != "" && Decimal(ts) !in chunks
    requires Shuffled(ts, data, OwnPackets(Decimal(ts), ps))
    ensures OwnOutputs(Decimal(ts), ps, Run(chunks, ps).outs) == Nones(Count(data) - 1) + [Some(data)]
    ensures Decimal(ts) !in Run(chunks, ps).chunks
  {
    hide ParsePacket, Decimal, Run, Step, OwnOutputs;
    CountPositive(data);
    Isolation(Decimal(ts), chunks, ps);
    AllParsed(ts, data, OwnPackets(Decimal(ts), ps));
    Completed(ts, data, OwnPackets(Decimal(ts), ps));
  }

  // ---------------------------------------------------------------- a chunk that never arrives

  ghost function Listed(m: multiset<string>): (q: seq<string>)
    ensures multiset(q) == m
    decreases |m|
  {
    if m == multiset{} then []
    else
      var x :| x in m;
      assert m == (m - multiset{x}) + multiset{x};
      Listed(m - multiset{x}) + [x]
  }

  /** While a chunk is missing nothing is returned, and the chunks that came stay in the store. */
  lemma Incomplete(ts: nat, data: string, chunks: Store, ps: seq<string>)
    requires data != "" && Decimal(ts) !in chunks
    requires multiset(OwnPackets(Decimal(ts), ps)) < multiset(Packets(ts, data))
    ensures var q := OwnPackets(Decimal(ts), ps);
            && OwnOutputs(Decimal(ts), ps, Run(chunks, ps).outs) == Nones(|q|)
            && (Decimal(ts) in Run(chunks, ps).chunks <==> q != [])
  {
    hide *;
    var q := OwnPackets(Decimal(ts), ps);
    var rest := Listed(multiset(Packets(ts, data)) - multiset(q));
    Padded(ts, data, q, rest);
    AllParsed(ts, data, q + rest);
    Longer(q, rest, Packets(ts, data));
    Pending(ts, data, q + rest, |q|);
    assert (q + rest)[..|q|] == q;
    Isolation(Decimal(ts), chunks, ps);
    assert |Parsed(q)| == |q|;
  }

  lemma Padded(ts: nat, data: string, q: seq<string>, rest: seq<string>)
    requires data != "" && multiset(q) < multiset(Packets(ts, data))
    requires multiset(rest) == multiset(Packets(ts, data)) - multiset(q)
    ensures Shuffled(ts, data, q + rest)
  {
    hide Packet, Decimal, Body;
  }

  lemma Longer(q: seq<string>, rest: seq<string>, all: seq<string>)
    requires multiset(q) < multiset(all) && multiset(rest) == multiset(all) - multiset(q)
    ensures |q| < |q + rest|
  {
    assert multiset(all) - multiset(q) != multiset{};
  }
}
