/** A tribe owner takes in the messages of members: price, escrow, sats to forward, leaderboard. */
module TribeOwner {
  import opened Options
  import opened Broadcast
  import Timers

  /** The kinds of message a tribe owner forwards. */
  datatype Kind = Message | GroupJoin | GroupLeave | Attachment | Delete | Boost | DirectPayment

  /** A tribe, and what its owner's node knows. */
  datatype Tribe = Tribe(tenant: int, chatId: nat, price: nat, priceToJoin: nat, escrow: nat, escrowMillis: int,
                         closed: bool, skipJoins: bool, contactIds: seq<int>, contacts: map<int, Contact>,
                         min: nat, proxy: bool)

  /** A message with what the database says about it: sender is 0 for an unknown one, repliedTo is 0
      unless there is a replied-to message with a sender; approved is the sender's standing in a
      closed tribe, ownsOriginal whether a deleted message is the sender's own, repeats whether the
      last message of the chat is the sender's, original the sender the message is stored under. */
  datatype Incoming = Incoming(kind: Kind, amount: nat, msgId: nat, msgUuid: string, sender: nat, key: string,
                               repliedTo: int, spam: bool, approved: bool, ownsOriginal: bool, repeats: bool,
                               original: Option<int>)

  datatype Member = Member(contactId: int, spent: nat, earned: nat)

  predicate NeedsPrice(k: Kind) {
    k.Message? || k.Attachment? || k.Boost? || k.DirectPayment?
  }

  predicate BoostOrPay(k: Kind) {
    k.Boost? || k.DirectPayment?
  }

  predicate Spam(m: Incoming) {
    m.kind.Message? && m.spam
  }

  function Find(ms: seq<Member>, id: int): (i: int)
    ensures -1 <= i < |ms|
    ensures i >= 0 ==> ms[i].contactId == id
    ensures i < 0 ==> forall k :: 0 <= k < |ms| ==> ms[k].contactId != id
  {
    if ms == [] then -1
    else if ms[0].contactId == id then 0
    else
      var i := Find(ms[1..], id);
      if i < 0 then -1 else i + 1
  }

  predicate Listed(ms: seq<Member>, id: int) {
    Find(ms, id) >= 0
  }

  function AddSpent(ms: seq<Member>, id: int, amt: nat): (r: seq<Member>)
    ensures |r| == |ms|
  {
    var i := Find(ms, id);
    if i < 0 then ms else ms[i := ms[i].(spent := ms[i].spent + amt)]
  }

  function AddEarned(ms: seq<Member>, id: int, amt: nat): (r: seq<Member>)
    ensures |r| == |ms|
  {
    var i := Find(ms, id);
    if i < 0 then ms else ms[i := ms[i].(earned := ms[i].earned + amt)]
  }

  // ---------------------------------------------------------------- what is decided about a message

  /** Whether the message is acted on. */
  predicate Accepted(t: Tribe, ms: seq<Member>, m: Incoming) {
    && (NeedsPrice(m.kind) ==> m.amount >= t.price && (m.sender != 0 ==> Listed(ms, m.sender)))
    && (m.kind.GroupJoin? ==> m.amount >= t.priceToJoin && (t.closed && m.sender != 0 ==> m.approved))
    && (m.kind.Delete? && m.sender != 0 ==> m.ownsOriginal)
  }

  /** Whether an escrow timer is started. */
  predicate Escrowed(t: Tribe, m: Incoming) {
    NeedsPrice(m.kind) && t.escrow > 0 && m.sender != 0 && !Spam(m)
  }

  /** The sats to pass on to the author of the replied-to message. */
  function Forward(t: Tribe, m: Incoming): nat {
    if BoostOrPay(m.kind) && m.repliedTo != 0 && m.amount > t.price + t.escrow
    then m.amount - t.price - t.escrow else 0
  }

  function Payee(t: Tribe, m: Incoming): int {
    if Forward(t, m) > 0 then m.repliedTo else 0
  }

  /** What counts as spent by the sender. */
  function Spending(t: Tribe, m: Incoming): nat {
    if Spam(m) || (m.kind.Message? && m.repeats) then 0
    else if Forward(t, m) > 0 then Forward(t, m)
    else m.amount
  }

  function Broadcasting(t: Tribe, m: Incoming): Call {
    Call(t.tenant, true, true, false, false, t.contactIds, None, t.contacts, Some(m.key),
         Payee(t, m), Forward(t, m), t.min, t.proxy, m.original)
  }

  predicate Muted(t: Tribe, k: Kind) {
    t.skipJoins && (k.GroupJoin? || k.GroupLeave?)
  }

  /** The leaderboard after a broadcast. */
  function Scored(ms: seq<Member>, log: seq<Event>): (r: seq<Member>)
    ensures |r| == |ms|
  {
    if log == [] then ms
    else
      var r, e := Scored(ms, log[..|log| - 1]), log[|log| - 1];
      if e.Score? then AddEarned(r, e.id, e.amt) else r
  }

  /** Everything the owner's node did: sats taken in, messages accepted, events of broadcasts. */
  datatype Books = Books(received: nat, accepted: nat, log: seq<Event>, members: seq<Member>, timers: Timers.State)

  function Escrow(t: Tribe, m: Incoming, now: int): Timers.Step
    requires t.tenant >= 0
  {
    Timers.Add(t.escrow, t.escrowMillis, m.sender, m.msgId, m.msgUuid, t.chatId, t.tenant, now,
               {(t.chatId, t.tenant)})
  }

  function Broadcasts(t: Tribe, m: Incoming, works: int -> bool): seq<Event> {
    if Muted(t, m.kind) then [] else Send(Broadcasting(t, m), works).log
  }

  /** The call that pays a row back; original is the sender its message is stored under. */
  function Repayment(t: Tribe, r: Timers.Row, original: Option<int>): Call {
    Call(t.tenant, true, true, false, false, [r.receiver], None, t.contacts, None, r.receiver, r.amount,
         t.min, t.proxy, original)
  }

  function Repayments(t: Tribe, rows: seq<Timers.Row>, original: Option<int>, works: int -> bool): seq<Event> {
    if rows == [] then []
    else
      Repayments(t, rows[..|rows| - 1], original, works)
      + Send(Repayment(t, rows[|rows| - 1], original), works).log
  }

  /** The rows that a step has paid back. */
  function PaidBack(s: Timers.State, u: Timers.State): seq<Timers.Row> {
    if |s.repaid| <= |u.repaid| then u.repaid[|s.repaid|..] else []
  }

  /** The books after a step of the timers: what is paid back is sent, and counts as earned. */
  function Timed(t: Tribe, b: Books, u: Timers.State, original: Option<int>, works: int -> bool): Books {
    var back := Repayments(t, PaidBack(b.timers, u), original, works);
    b.(log := b.log + back, members := Scored(b.members, back), timers := u)
  }

  /** A timeout fires. */
  function Fired(t: Tribe, b: Books, handle: nat, now: int, chats: set<(nat, nat)>, original: Option<int>,
                 works: int -> bool): Books
  {
    Timed(t, b, Timers.Apply(b.timers, Timers.Fire(handle, now, chats)), original, works)
  }

  /** The part of a message's handling before it is acted on: its sats come in, escrow is held. */
  function Charged(t: Tribe, b: Books, m: Incoming, now: int, works: int -> bool): Books
    requires t.tenant >= 0
  {
    var c := b.(received := b.received + m.amount);
    if Escrowed(t, m) then Timed(t, c, Timers.Apply(b.timers, Escrow(t, m, now)), m.original, works) else c
  }

  /** One message from a member. */
  function Receive(t: Tribe, b: Books, m: Incoming, now: int, works: int -> bool): Books
    requires t.tenant >= 0
  {
    var c := Charged(t, b, m, now, works);
    if Accepted(t, b.members, m) then
      var log := Broadcasts(t, m, works);
      c.(accepted := c.accepted + 1, log := c.log + log,
         members := Scored(AddSpent(c.members, m.sender, Spending(t, m)), log))
    else c
  }

  lemma {:induction false} ScoredConcat(ms: seq<Member>, a: seq<Event>, b: seq<Event>)
    ensures Scored(ms, a + b) == Scored(Scored(ms, a), b)
  {
    if b == [] {
      assert a + b == a;
    } else {
      ScoredConcat(ms, a, b[..|b| - 1]);
      assert (a + b)[..|a + b| - 1] == a + b[..|b| - 1];
    }
  }

  class Owner {
    const tribe: Tribe
    const timers: Timers.Node
    var members: seq<Member>
    var log: seq<Event>
    var received: nat
    var accepted: nat

    ghost predicate Valid()
      reads this, timers
    {
      tribe.tenant >= 0 && timers.Valid()
    }

    ghost function View(): Books
      reads this, timers
    {
      Books(received, accepted, log, members, timers.View())
    }

    constructor (t: Tribe, ms: seq<Member>)
      requires t.tenant >= 0
      ensures Valid() && tribe == t && fresh(timers) && View() == Books(0, 0, [], ms, Timers.Empty)
    {
      tribe, members, log, received, accepted := t, ms, [], 0, 0;
      timers := new Timers.Node();
    }

    /** The part of the leaderboard that a broadcast updates. */
    method RecordScores(events: seq<Event>)
      modifies this`members
      ensures members == Scored(old(members), events)
    {
      var k := 0;
      while k < |events|
        invariant 0 <= k <= |events|
        invariant members == Scored(old(members), events[..k])
      {
        assert events[..k + 1][..k] == events[..k];
        if events[k].Score? {
          var i := Find(members, events[k].id);
          if i >= 0 {
            members := members[i := members[i].(earned := members[i].earned + events[k].amt)];
          }
        }
        k := k + 1;
      }
      assert events[..k] == events;
    }

    method ForwardMessageToTribe(m: Incoming, payee: int, amt: nat, works: int -> bool) returns (events: seq<Event>)
      requires payee == Payee(tribe, m) && amt == Forward(tribe, m)
      ensures events == Broadcasts(tribe, m, works)
    {
      hide Forward, Send;
      if tribe.skipJoins && (m.kind.GroupJoin? || m.kind.GroupLeave?) {
        return [];
      }
      var outcome;
      events, outcome := SendMessage(Call(tribe.tenant, true, true, false, false, tribe.contactIds, None,
                                          tribe.contacts, Some(m.key), payee, amt, tribe.min, tribe.proxy, m.original),
                                     works);
    }

    /** The checks: whether to act, whether to hold escrow. */
    method Check(m: Incoming) returns (doAction: bool, holds: bool)
      ensures doAction == Accepted(tribe, members, m) && holds == Escrowed(tribe, m)
    {
      doAction, holds := true, false;
      var needsPricePerMessage := NeedsPrice(m.kind);
      var isSpam := false;
      if m.kind == Message {
        isSpam := m.spam;
      }
      if needsPricePerMessage && m.sender != 0 {
        if Find(members, m.sender) < 0 {
          doAction := false;
        }
      }
      if needsPricePerMessage {
        if m.amount < tribe.price {
          doAction := false;
        }
        if tribe.escrow != 0 && m.sender != 0 && !isSpam {
          holds := true;
        }
      }
      if m.kind == GroupJoin {
        if m.amount < tribe.priceToJoin {
          doAction := false;
        }
        if tribe.closed && m.sender != 0 {
          if !m.approved {
            doAction := false;
          }
        }
      }
      if m.kind == Delete && m.sender != 0 {
        doAction := false;
        if m.ownsOriginal {
          doAction := true;
        }
      }
    }

    /** What is forwarded to whom, and the amount the message goes on with. */
    method Split(m: Incoming) returns (payee: int, amt: nat, amount: nat)
      ensures payee == Payee(tribe, m) && amt == Forward(tribe, m)
      ensures amount == if amt > 0 then amt else m.amount
    {
      payee, amt, amount := 0, 0, m.amount;
      if (m.kind == Boost || m.kind == DirectPayment) && m.repliedTo != 0 {
        var theAmtToForward: int := m.amount - tribe.price - tribe.escrow;
        if theAmtToForward > 0 {
          payee, amt := m.repliedTo, theAmtToForward;
          amount := amt;
        }
      }
    }

    method Spend(m: Incoming, amount: nat)
      requires amount == if Forward(tribe, m) > 0 then Forward(tribe, m) else m.amount
      modifies this`members
      ensures members == AddSpent(old(members), m.sender, Spending(tribe, m))
    {
      hide Forward;
      var i := Find(members, m.sender);
      if i >= 0 && !Spam(m) {
        if m.kind == Message {
          if !m.repeats {
            members := members[i := members[i].(spent := members[i].spent + amount)];
          }
        } else {
          members := members[i := members[i].(spent := members[i].spent + amount)];
        }
      }
      AddNothing(old(members), m.sender);
    }

    /** Sends what the timers have paid back since there were `from` repayments. */
    method SendRepayments(from: nat, original: Option<int>, works: int -> bool)
      modifies this`log, this`members
      ensures var back := Repayments(tribe, if from <= |timers.repaid| then timers.repaid[from..] else [], original, works);
              log == old(log) + back && members == Scored(old(members), back)
    {
      hide Send, Scored;
      var rows := if from <= |timers.repaid| then timers.repaid[from..] else [];
      ghost var back := [];
      var k := 0;
      ScoredNothing(members);
      while k < |rows|
        invariant 0 <= k <= |rows|
        invariant back == Repayments(tribe, rows[..k], original, works)
        invariant log == old(log) + back && members == Scored(old(members), back)
      {
        assert rows[..k + 1][..k] == rows[..k];
        var events, _ := SendMessage(Repayment(tribe, rows[k], original), works);
        log := log + events;
        RecordScores(events);
        ScoredConcat(old(members), back, events);
        back := back + events;
        k := k + 1;
      }
      assert rows[..k] == rows;
    }

    /** A timeout fires; works and original are about the payment it may make. */
    method OnTimeout(handle: nat, now: int, chats: set<(nat, nat)>, original: Option<int>, works: int -> bool)
      requires Valid()
      modifies this, timers
      ensures Valid() && View() == Fired(tribe, old(View()), handle, now, chats, original, works)
    {
      hide Timers.Apply, Repayments, Scored;
      var from := |timers.repaid|;
      timers.FireTimeout(handle, now, chats);
      SendRepayments(from, original, works);
    }

    /** Holds the escrow of a message. */
    method HoldEscrow(m: Incoming, now: int, works: int -> bool)
      requires Valid()
      modifies this, timers
      ensures Valid()
      ensures View() == Timed(tribe, old(View()), Timers.Apply(old(timers.View()), Escrow(tribe, m, now)), m.original, works)
    {
      hide Timers.Apply, Repayments, Scored;
      var from := |timers.repaid|;
      timers.AddTimer(tribe.escrow, tribe.escrowMillis, m.sender, m.msgId, m.msgUuid, tribe.chatId,
                      tribe.tenant, now, {(tribe.chatId, tribe.tenant)});
      SendRepayments(from, m.original, works);
    }

    method OnReceive(m: Incoming, now: int, works: int -> bool)
      requires Valid()
      modifies this, timers
      ensures Valid() && View() == Receive(tribe, old(View()), m, now, works)
    {
      hide Accepted, Escrowed, Forward, Payee, Spending, Broadcasts, Scored, AddSpent, Timed;
      hide Timers.Apply;
      received := received + m.amount;
      var doAction, holds := Check(m);
      if holds {
        HoldEscrow(m, now, works);
      }
      var payee, amt, amount := Split(m);
      if doAction {
        accepted := accepted + 1;
        Spend(m, amount);
        var events := ForwardMessageToTribe(m, payee, amt, works);
        log := log + events;
        RecordScores(events);
      }
    }
  }

  lemma ScoredNothing(ms: seq<Member>)
    ensures Scored(ms, []) == ms
  {
  }

  lemma AddNothing(ms: seq<Member>, id: int)
    ensures AddSpent(ms, id, 0) == ms
  {
  }
}
