/** What one message of a member makes the owner of a tribe do, and what all of them have paid. */
module Admission {
  import opened Broadcast
  import opened Payees
  import opened TribeOwner
  import opened BroadcastLog
  import opened Ledger
  import Lightning = Keysend
  import TimerCancel
  import Timers

  // ---------------------------------------------------------------- messages that are not acted on

  /** Messages, attachments, boosts and direct payments cost the price of a message. */
  predicate Priced(m: Incoming) {
    m.kind == Message || m.kind == Attachment || m.kind == Boost || m.kind == DirectPayment
  }

  ghost predicate IsMember(ms: seq<Member>, id: int) {
    exists k :: 0 <= k < |ms| && ms[k].contactId == id
  }

  lemma ListedIs(ms: seq<Member>, id: int)
    ensures IsMember(ms, id) <==> Listed(ms, id)
  {
  }

  /** The sats come in; but for what is paid back at once nothing else is done. */
  ghost predicate OnlyRepays(t: Tribe, b: Books, m: Incoming, works: int -> bool, u: Books) {
    var back := Repayments(t, PaidBack(b.timers, u.timers), m.original, works);
    && u.received == b.received + m.amount && u.accepted == b.accepted
    && u.log == b.log + back && u.members == Scored(b.members, back)
  }

  /** The message is acted on: it is broadcast, and its sender has spent. */
  ghost predicate ActsOn(t: Tribe, b: Books, m: Incoming, works: int -> bool, u: Books) {
    var back := Repayments(t, PaidBack(b.timers, u.timers), m.original, works);
    && u.received == b.received + m.amount && u.accepted == b.accepted + 1
    && u.log == b.log + back + Broadcasts(t, m, works)
    && u.members == Scored(AddSpent(Scored(b.members, back), m.sender, Spending(t, m)), Broadcasts(t, m, works))
  }

  lemma ChargedOnly(t: Tribe, b: Books, m: Incoming, now: int, works: int -> bool)
    requires t.tenant >= 0
    ensures OnlyRepays(t, b, m, works, Charged(t, b, m, now, works))
  {
    hide Escrowed, Timers.Apply, Scored;
    if !Escrowed(t, m) {
      ScoredNothing(b.members);
      assert b.log + [] == b.log;
      assert PaidBack(b.timers, b.timers) == [];
    }
  }

  lemma NotAccepted(t: Tribe, b: Books, m: Incoming, now: int, works: int -> bool)
    requires t.tenant >= 0 && !Accepted(t, b.members, m)
    ensures OnlyRepays(t, b, m, works, Receive(t, b, m, now, works))
  {
    hide Accepted, Charged, OnlyRepays;
    ChargedOnly(t, b, m, now, works);
  }

  lemma IsAccepted(t: Tribe, b: Books, m: Incoming, now: int, works: int -> bool)
    requires t.tenant >= 0 && Accepted(t, b.members, m)
    ensures ActsOn(t, b, m, works, Receive(t, b, m, now, works))
  {
    hide Accepted, Charged, Repayments, Broadcasts, Scored;
    ChargedOnly(t, b, m, now, works);
  }

  /** A message that does not pay the price is not acted on. */
  lemma UnderpaidIsRefused(t: Tribe, b: Books, m: Incoming, now: int, works: int -> bool)
    requires t.tenant >= 0 && Priced(m) && m.amount < t.price
    ensures OnlyRepays(t, b, m, works, Receive(t, b, m, now, works))
  {
    hide Receive, OnlyRepays;
    NotAccepted(t, b, m, now, works);
  }

  /** Neither is one of a contact that is no member. */
  lemma StrangerIsRefused(t: Tribe, b: Books, m: Incoming, now: int, works: int -> bool)
    requires t.tenant >= 0 && Priced(m) && m.sender != 0 && !IsMember(b.members, m.sender)
    ensures OnlyRepays(t, b, m, works, Receive(t, b, m, now, works))
  {
    hide Receive, OnlyRepays, IsMember, Listed;
    ListedIs(b.members, m.sender);
    NotAccepted(t, b, m, now, works);
  }

  /** Neither is a request to join that does not pay for it, or that a closed tribe has not approved. */
  lemma JoinIsRefused(t: Tribe, b: Books, m: Incoming, now: int, works: int -> bool)
    requires t.tenant >= 0 && m.kind == GroupJoin
    requires m.amount < t.priceToJoin || (t.closed && m.sender != 0 && !m.approved)
    ensures OnlyRepays(t, b, m, works, Receive(t, b, m, now, works))
  {
    hide Receive, OnlyRepays;
    NotAccepted(t, b, m, now, works);
  }

  /** Neither is the deletion of somebody else's message. */
  lemma DeletionIsRefused(t: Tribe, b: Books, m: Incoming, now: int, works: int -> bool)
    requires t.tenant >= 0 && m.kind == Delete && m.sender != 0 && !m.ownsOriginal
    ensures OnlyRepays(t, b, m, works, Receive(t, b, m, now, works))
  {
    hide Receive, OnlyRepays;
    NotAccepted(t, b, m, now, works);
  }

  // ---------------------------------------------------------------- messages that are

  /** A member, or somebody who is no contact, who pays the price is heard. */
  lemma PaidIsHeard(t: Tribe, b: Books, m: Incoming, now: int, works: int -> bool)
    requires t.tenant >= 0 && Priced(m) && m.amount >= t.price && (m.sender == 0 || IsMember(b.members, m.sender))
    ensures ActsOn(t, b, m, works, Receive(t, b, m, now, works))
  {
    hide Receive, ActsOn, IsMember, Listed;
    ListedIs(b.members, m.sender);
    IsAccepted(t, b, m, now, works);
  }

  lemma PaidJoinIsHeard(t: Tribe, b: Books, m: Incoming, now: int, works: int -> bool)
    requires t.tenant >= 0 && m.kind == GroupJoin && m.amount >= t.priceToJoin
    requires !t.closed || m.sender == 0 || m.approved
    ensures ActsOn(t, b, m, works, Receive(t, b, m, now, works))
  {
    hide Receive, ActsOn;
    IsAccepted(t, b, m, now, works);
  }

  /** Leaving costs nothing, and one may delete one's own messages. */
  lemma LeavingIsHeard(t: Tribe, b: Books, m: Incoming, now: int, works: int -> bool)
    requires t.tenant >= 0
    requires m.kind == GroupLeave || (m.kind == Delete && (m.sender == 0 || m.ownsOriginal))
    ensures ActsOn(t, b, m, works, Receive(t, b, m, now, works))
  {
    hide Receive, ActsOn;
    IsAccepted(t, b, m, now, works);
  }

  // ---------------------------------------------------------------- what all of them have paid

  /** What it costs to be heard. */
  function Cost(t: Tribe, m: Incoming): nat {
    if m.kind == Message || m.kind == Attachment || m.kind == Boost || m.kind == DirectPayment then t.price
    else if m.kind == GroupJoin then t.priceToJoin
    else 0
  }

  /** What the messages of a run that were acted on had to pay. */
  ghost function Costs(t: Tribe, b: Books, hs: seq<Happening>): nat
    requires t.tenant >= 0
  {
    if hs == [] then 0
    else
      var m := |hs| - 1;
      var heard := After(t, b, hs).accepted > After(t, b, hs[..m]).accepted;
      Costs(t, b, hs[..m]) + if hs[m].Took? && heard then Cost(t, hs[m].m) else 0
  }

  lemma HeardPays(t: Tribe, b: Books, m: Incoming, now: int, works: int -> bool)
    requires t.tenant >= 0 && Receive(t, b, m, now, works).accepted > b.accepted
    ensures m.amount >= Cost(t, m)
  {
    hide Receive, Accepted;
    if m.amount < Cost(t, m) {
      if m.kind == GroupJoin {
        JoinIsRefused(t, b, m, now, works);
      } else {
        UnderpaidIsRefused(t, b, m, now, works);
      }
      assert false;
    }
  }

  lemma ReceiveCounts(t: Tribe, b: Books, m: Incoming, now: int, works: int -> bool)
    requires t.tenant >= 0
    ensures var u := Receive(t, b, m, now, works);
            u.received == b.received + m.amount && b.accepted <= u.accepted <= b.accepted + 1
  {
    hide Accepted, Charged;
    ChargedOnly(t, b, m, now, works);
  }

  lemma ElseCounts(t: Tribe, b: Books, h: Happening)
    requires t.tenant >= 0 && !h.Took?
    ensures var u := Next(t, b, h); u.received == b.received && u.accepted == b.accepted
  {
    hide Timers.Apply, Repayments, Scored;
  }

  /** Over every run what was received covers the cost of everything acted on. */
  lemma {:induction false} CostsAreCovered(t: Tribe, b: Books, hs: seq<Happening>)
    requires t.tenant >= 0
    ensures After(t, b, hs).received >= b.received + Costs(t, b, hs)
  {
    hide Next, Receive, Cost;
    if hs != [] {
      var m := |hs| - 1;
      var r := After(t, b, hs[..m]);
      CostsAreCovered(t, b, hs[..m]);
      AfterMore(t, b, hs);
      if hs[m].Took? {
        ReceiveCounts(t, r, hs[m].m, hs[m].now, hs[m].works);
        NextTook(t, r, hs[m]);
        if After(t, b, hs).accepted > r.accepted {
          HeardPays(t, r, hs[m].m, hs[m].now, hs[m].works);
        }
      } else {
        ElseCounts(t, r, hs[m]);
      }
    }
  }

  lemma AfterMore(t: Tribe, b: Books, hs: seq<Happening>)
    requires t.tenant >= 0 && hs != []
    ensures After(t, b, hs) == Next(t, After(t, b, hs[..|hs| - 1]), hs[|hs| - 1])
  {
    hide Next;
  }

  lemma NextTook(t: Tribe, b: Books, h: Happening)
    requires t.tenant >= 0 && h.Took?
    ensures Next(t, b, h) == Receive(t, b, h.m, h.now, h.works)
  {
    hide Receive;
  }

  ghost predicate PricedRun(hs: seq<Happening>) {
    forall k :: 0 <= k < |hs| && hs[k].Took? ==> Priced(hs[k].m)
  }

  lemma {:induction false} PricedCosts(t: Tribe, b: Books, hs: seq<Happening>)
    requires t.tenant >= 0 && PricedRun(hs)
    ensures b.accepted + Heard(t, b, hs) == After(t, b, hs).accepted
    ensures Costs(t, b, hs) == Heard(t, b, hs) * t.price
  {
    hide Next, Receive;
    if hs != [] {
      var m := |hs| - 1;
      var r := After(t, b, hs[..m]);
      PricedCosts(t, b, hs[..m]);
      AfterMore(t, b, hs);
      if hs[m].Took? {
        ReceiveCounts(t, r, hs[m].m, hs[m].now, hs[m].works);
        NextTook(t, r, hs[m]);
        OneMorePrice(Heard(t, b, hs[..m]), t.price);
      } else {
        ElseCounts(t, r, hs[m]);
      }
    }
  }

  /** How many messages of a run were acted on. */
  ghost function Heard(t: Tribe, b: Books, hs: seq<Happening>): nat
    requires t.tenant >= 0
  {
    if hs == [] then 0
    else
      var m := |hs| - 1;
      Heard(t, b, hs[..m]) + if After(t, b, hs).accepted > After(t, b, hs[..m]).accepted then 1 else 0
  }

  lemma OneMorePrice(k: nat, price: nat)
    ensures (k + 1) * price == k * price + price
  {
  }

  /** So over every run of messages that have a price, as many prices were received as were acted on. */
  lemma PricesAreReceived(t: Tribe, ms: seq<Member>, hs: seq<Happening>)
    requires t.tenant >= 0 && PricedRun(hs)
    ensures var u := After(t, Start(ms), hs); u.received >= u.accepted * t.price
  {
    hide After, Costs, Heard, PricedRun;
    CostsAreCovered(t, Start(ms), hs);
    PricedCosts(t, Start(ms), hs);
  }

  // ---------------------------------------------------------------- escrow

  /** Escrow is held for every priced message of a contact that is no spam: the amount and the time of
      the tribe, whatever becomes of the message. */
  lemma EscrowIsHeld(t: Tribe, b: Books, m: Incoming, now: int, works: int -> bool)
    requires t.tenant >= 0
    ensures var c, d := b.timers.created, Receive(t, b, m, now, works).timers.created;
            if Priced(m) && t.escrow > 0 && m.sender != 0 && !(m.kind == Message && m.spam)
            then d == c + [Timers.Row(|c|, t.escrow, now + t.escrowMillis, m.sender, m.msgId, m.msgUuid, t.chatId,
                                       t.tenant)]
            else d == c
  {
    hide Accepted, Repayments, Scored, Broadcasts, Timers.Apply;
    if Escrowed(t, m) {
      TimerCancel.AddCreates(b.timers, Escrow(t, m, now));
    }
  }

  // ---------------------------------------------------------------- sats passed on

  /** What is left of a boost or payment beyond price and escrow goes to the author of the message it
      answers; nothing else makes the owner pay. */
  lemma PassedOn(t: Tribe, m: Incoming, works: int -> bool)
    requires t.tenant > 0 && NoTwice(t.contactIds)
    ensures var c := Broadcasting(t, m);
            var rest: int := m.amount - t.price - t.escrow;
            Paid(Broadcasts(t, m, works))
            == if (m.kind == Boost || m.kind == DirectPayment) && m.repliedTo != 0 && rest > 0
               && m.repliedTo in t.contactIds
                  && t.contactIds != [t.tenant] && Gets(c, m.repliedTo) && works(m.repliedTo)
               then [(m.repliedTo, Lightning.Clamp(rest, t.min))] else []
  {
    hide Send, Skipped, JustMe, Paid, NoTwice, Gets;
    NoTargets();
    var c := Broadcasting(t, m);
    SkippedIs(c, m.repliedTo);
    SpeaksReaches(c);
    OwnerPaysPayee(c, works);
  }

  // ---------------------------------------------------------------- what counts as spent

  lemma SpentIs(t: Tribe, m: Incoming)
    ensures m.kind == Message && (m.spam || m.repeats) ==> Spending(t, m) == 0
    ensures (m.kind == Boost || m.kind == DirectPayment) && m.repliedTo != 0 && m.amount > t.price + t.escrow
            ==> Spending(t, m) == m.amount - t.price - t.escrow
    ensures m.kind == Message && !m.spam && !m.repeats ==> Spending(t, m) == m.amount
    ensures m.kind != Message
            && (m.repliedTo == 0 || m.amount <= t.price + t.escrow || !(m.kind == Boost || m.kind == DirectPayment))
            ==> Spending(t, m) == m.amount
  {
  }

  /** The member k is the first with this contact. */
  ghost predicate FirstOf(ms: seq<Member>, id: int, k: nat) {
    k < |ms| && ms[k].contactId == id && forall j :: 0 <= j < k ==> ms[j].contactId != id
  }

  lemma {:induction false} FirstIsFound(ms: seq<Member>, id: int, k: nat)
    ensures FirstOf(ms, id, k) <==> Find(ms, id) == k
  {
    if ms != [] {
      if ms[0].contactId == id {
        assert k > 0 ==> !FirstOf(ms, id, k);
      } else {
        if k > 0 {
          FirstIsFound(ms[1..], id, k - 1);
          assert FirstOf(ms, id, k) <==> FirstOf(ms[1..], id, k - 1) by {
            FirstTail(ms, id, k);
          }
        }
      }
    }
  }

  lemma FirstTail(ms: seq<Member>, id: int, k: nat)
    requires ms != [] && ms[0].contactId != id && k > 0
    ensures FirstOf(ms, id, k) <==> FirstOf(ms[1..], id, k - 1)
  {
    if FirstOf(ms[1..], id, k - 1) {
      forall j | 0 <= j < k
        ensures ms[j].contactId != id
      {
        assert j > 0 ==> ms[j] == ms[1..][j - 1];
      }
    }
    if FirstOf(ms, id, k) {
      forall j | 0 <= j < k - 1
        ensures ms[1..][j].contactId != id
      {
        assert ms[1..][j] == ms[j + 1];
      }
    }
  }

  /** Spending and earning are booked to the member itself, and to nobody else. */
  lemma WhoIsBooked(ms: seq<Member>, id: int, amt: nat, k: nat)
    requires k < |ms|
    ensures AddSpent(ms, id, amt)[k] == if FirstOf(ms, id, k) then ms[k].(spent := ms[k].spent + amt) else ms[k]
    ensures AddEarned(ms, id, amt)[k] == if FirstOf(ms, id, k) then ms[k].(earned := ms[k].earned + amt) else ms[k]
  {
    hide FirstOf;
    FirstIsFound(ms, id, k);
  }

  // ---------------------------------------------------------------- whom a message reaches

  /** A message that passes nothing on reaches every member but its sender. */
  lemma MembersHear(t: Tribe, m: Incoming, works: int -> bool, id: int)
    requires t.tenant > 0 && NoTwice(t.contactIds) && t.contactIds != [t.tenant]
    requires !(t.skipJoins && (m.kind == GroupJoin || m.kind == GroupLeave))
    requires !(m.kind == Boost || m.kind == DirectPayment) || m.repliedTo == 0 || m.amount <= t.price + t.escrow
    ensures id in Targets(Broadcasts(t, m, works))
       <==> id in t.contactIds && id != t.tenant && id in t.contacts && t.contacts[id].key != m.key
  {
    hide Send, NoTwice, Targets;
    WhoGets(Broadcasting(t, m), works, id);
  }

  /** Joining and leaving are not announced in a tribe that skips them. */
  lemma JoinsAreSkipped(t: Tribe, m: Incoming, works: int -> bool)
    requires t.skipJoins && (m.kind == GroupJoin || m.kind == GroupLeave)
    ensures Broadcasts(t, m, works) == []
  {
  }
}
