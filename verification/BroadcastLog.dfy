/** What a broadcast does, event by event: whom it goes to and how, and what is given back. */
module BroadcastLog {
  import opened Options
  import opened Broadcast
  import opened Payees
  import Lightning = Keysend

  // ---------------------------------------------------------------- single events

  /** A contact of the sender that is neither the sender, nor the one whose message is passed on, nor
      the owner when a bot sends. */
  ghost predicate Gets(c: Call, id: int) {
    && id in c.contacts && id != c.tenant
    && (c.skipKey.Some? ==> c.contacts[id].key != c.skipKey.value)
    && (c.tenant == -1 ==> !c.contacts[id].isOwner)
  }

  /** What a payment carries: the amount, or the minimum when that is more; never nothing. */
  predicate Carries(amt: nat, amount: nat, min: nat) {
    amt >= amount && amt >= min && amt > 0 && (amt == amount || amt == min || (min == 0 && amt == 3 > amount))
  }

  /** The owner of a tribe sends this contact sats. */
  predicate PaidByOwner(c: Call, id: int) {
    c.tribe && c.ownsChat && id == c.payee && c.payee != 0 && c.amount > 0
  }

  /** An owner sends to members for nothing, by the proxy where it hosts both, but pays the payee;
      whoever does not own a tribe pays everybody. */
  ghost predicate Proper(c: Call, works: int -> bool, e: Event) {
    match e
    case Score(id, amt) => Gets(c, id) && PaidByOwner(c, id) && amt == c.amount
    case Keysend(id, amt, ok) =>
      && Gets(c, id) && ok == works(id) && Carries(amt, c.amount, c.min)
      && (c.tribe && c.ownsChat ==> PaidByOwner(c, id))
    case Publish(id, ok) =>
      && Gets(c, id) && ok == works(id) && c.tribe && c.ownsChat && !PaidByOwner(c, id)
      && !(c.proxy && c.contacts[id].hosted)
    case HandOver(id, ok) =>
      && Gets(c, id) && ok == works(id) && c.tribe && c.ownsChat && !PaidByOwner(c, id)
      && c.proxy && c.contacts[id].hosted
    case Reversal(id, amt) =>
      id in c.contacts && id != c.tenant && c.original == Some(id) && Carries(amt, c.amount, c.min)
  }

  ghost predicate AllProper(c: Call, works: int -> bool, log: seq<Event>) {
    forall e :: e in log ==> Proper(c, works, e)
  }

  lemma SkippedIs(c: Call, id: int)
    ensures Gets(c, id) <==> !Skipped(c, id)
  {
  }

  lemma ClampCarries(amount: nat, min: nat)
    ensures Carries(Lightning.Clamp(amount, min), amount, min)
  {
  }

  lemma VisitIsProper(c: Call, works: int -> bool, id: int)
    requires !Skipped(c, id)
    ensures id in c.contacts && AllProper(c, works, Visit(c, id, works(id)))
  {
    hide Carries;
    SkippedIs(c, id);
    ClampCarries(c.amount, c.min);
  }

  lemma ReversalsAreProper(c: Call, works: int -> bool)
    ensures AllProper(c, works, Reversals(c))
  {
    hide Carries;
    ClampCarries(c.amount, c.min);
  }

  lemma MoreProper(c: Call, works: int -> bool, a: seq<Event>, b: seq<Event>)
    requires AllProper(c, works, a) && AllProper(c, works, b)
    ensures AllProper(c, works, a + b)
  {
    hide Proper;
  }

  lemma AdvanceIsProper(c: Call, works: int -> bool, p: Progress, id: int)
    requires AllProper(c, works, p.log)
    ensures AllProper(c, works, Advance(c, p, id, works).log)
  {
    hide Skipped, Visit, Reversals, AllProper;
    if !p.stopped && !Skipped(c, id) {
      VisitIsProper(c, works, id);
      ReversalsAreProper(c, works);
      MoreProper(c, works, p.log, Visit(c, id, works(id)));
      MoreProper(c, works, p.log + Visit(c, id, works(id)), Reversals(c));
    }
  }

  lemma {:induction false} WalkIsProper(c: Call, works: int -> bool, ids: seq<int>)
    ensures AllProper(c, works, Walk(c, ids, works).log)
  {
    hide Proper, Advance;
    if ids != [] {
      WalkIsProper(c, works, ids[..|ids| - 1]);
      AdvanceIsProper(c, works, Walk(c, ids[..|ids| - 1], works), ids[|ids| - 1]);
    }
  }

  /** Everything a call does is proper. */
  lemma LogIsProper(c: Call, works: int -> bool)
    ensures AllProper(c, works, Send(c, works).log)
  {
    hide Proper, Walk, Reversals, MovedToFront, Recipients, JustMe;
    WalkIsProper(c, works, MovedToFront(Recipients(c), c.payee));
    ReversalsAreProper(c, works);
  }

  // ---------------------------------------------------------------- whom a message goes to

  /** The chat's members are meant, by its owner and outside tribes; by others of a tribe its owner. */
  ghost predicate Meant(c: Call, id: int) {
    if c.tribe && !c.ownsChat then c.chatOwner == Some(id) else id in c.contactIds
  }

  /** A call that does something: not a confirmation of somebody who does not own the tribe, nor a
      message to oneself, nor a hidden one of the owner. */
  predicate Speaks(c: Call) {
    && c.tenant != 0
    && (c.tribe && c.confirmation ==> c.ownsChat)
    && c.contactIds != [c.tenant]
    && (c.tribe && c.ownsChat ==> !c.hidden)
  }

  lemma SpeaksReaches(c: Call)
    ensures Speaks(c) <==> Reaches(c)
  {
  }

  /** Otherwise nothing happens; only a message to oneself and a hidden one count as sent. */
  lemma QuietCalls(c: Call, works: int -> bool)
    requires !Speaks(c)
    ensures Send(c, works).log == []
    ensures Send(c, works).outcome
         == if c.tenant == 0 || (c.tribe && c.confirmation && !c.ownsChat) then Silent else Called(true)
  {
    hide SendTo;
  }

  lemma {:induction false} WantedIs(c: Call, ids: seq<int>, id: int)
    ensures id in Wanted(c, ids) <==> id in ids && !Skipped(c, id)
  {
    hide Skipped;
    if ids != [] {
      var m := |ids| - 1;
      WantedIs(c, ids[..m], id);
      assert ids == ids[..m] + [ids[m]];
    }
  }

  lemma FrontKeeps(s: seq<int>, x: int, id: int)
    ensures id in MovedToFront(s, x) <==> id in s
  {
    hide MovedToFront;
    assert id in MovedToFront(s, x) <==> id in multiset(MovedToFront(s, x));
    assert id in s <==> id in multiset(s);
  }

  lemma MeantIs(c: Call, id: int)
    ensures Meant(c, id) <==> id in Recipients(c)
  {
  }

  /** Exactly who is meant and gets messages is sent it, unless a payee is missing or cannot be paid. */
  lemma WhoGets(c: Call, works: int -> bool, id: int)
    requires Speaks(c) && NoTwice(Recipients(c)) && (c.payee != 0 ==> Meant(c, c.payee))
    requires c.payee != 0 && Gets(c, c.payee) ==> works(c.payee)
    ensures id in Targets(Send(c, works).log) <==> Meant(c, id) && Gets(c, id)
  {
    hide Speaks, Reaches, Send, Recipients, Skipped, NoTwice, Wanted, Targets, MovedToFront, Gets, Meant;
    SpeaksReaches(c);
    SkippedIs(c, c.payee);
    SkippedIs(c, id);
    MeantIs(c, c.payee);
    MeantIs(c, id);
    EveryoneServed(c, works);
    WantedIs(c, MovedToFront(Recipients(c), c.payee), id);
    FrontKeeps(Recipients(c), c.payee, id);
  }

  // ---------------------------------------------------------------- what is given back

  /** The reversals in a log, in order: to whom and how much. */
  ghost function GivenBack(log: seq<Event>): seq<(int, nat)> {
    if log == [] then []
    else
      var t, e := GivenBack(log[..|log| - 1]), log[|log| - 1];
      if e.Reversal? then t + [(e.id, e.amt)] else t
  }

  lemma GivenBackMore(log: seq<Event>, e: Event)
    ensures GivenBack(log + [e]) == if e.Reversal? then GivenBack(log) + [(e.id, e.amt)] else GivenBack(log)
  {
    assert (log + [e])[..|log|] == log;
  }

  lemma VisitGivesNothing(c: Call, log: seq<Event>, id: int, ok: bool)
    requires id in c.contacts
    ensures GivenBack(log + Visit(c, id, ok)) == GivenBack(log)
  {
    var a := Attempt(c, id, ok);
    if Forced(c, id) {
      GivenBackMore(log, Score(id, c.amount));
      GivenBackMore(log + [Score(id, c.amount)], a);
      assert log + [Score(id, c.amount), a] == log + [Score(id, c.amount)] + [a];
    } else {
      GivenBackMore(log, a);
    }
  }

  /** The larger of amount and minimum, to the sender of the stored message, if that is a contact
      other than oneself. */
  ghost function Due(c: Call): seq<(int, nat)> {
    if c.original.Some? && c.original.value != c.tenant && c.original.value in c.contacts
    then [(c.original.value, if c.amount < Lightning.Least(c.min) then Lightning.Least(c.min) else c.amount)] else []
  }

  lemma ReversalsGiveBack(c: Call)
    ensures GivenBack(Reversals(c)) == Due(c)
  {
    if Reversals(c) != [] {
      var e := Reversals(c)[0];
      assert Reversals(c) == [] + [e];
      GivenBackMore([], e);
    }
  }

  lemma {:induction false} WalkGivesNothing(c: Call, ids: seq<int>, works: int -> bool)
    requires !Walk(c, ids, works).stopped
    ensures GivenBack(Walk(c, ids, works).log) == []
  {
    hide Skipped, Visit, Reversals, GivenBack;
    if ids == [] {
      NothingGiven();
    } else {
      var h, id := ids[..|ids| - 1], ids[|ids| - 1];
      WalkGivesNothing(c, h, works);
      if !Skipped(c, id) {
        Known(c, id);
        VisitGivesNothing(c, Walk(c, h, works).log, id, works(id));
      }
    }
  }

  lemma NothingGiven()
    ensures GivenBack([]) == []
  {
  }

  /** The payee is missing, or is there and cannot be paid. */
  ghost predicate PayeeFails(c: Call, works: int -> bool) {
    Speaks(c) && c.payee != 0 && (!Meant(c, c.payee) || (Gets(c, c.payee) && !works(c.payee)))
  }

  lemma FailureGivesBack(c: Call, works: int -> bool)
    requires Reaches(c) && NoTwice(Recipients(c)) && c.payee != 0 && c.payee in Recipients(c)
    requires !Skipped(c, c.payee) && !works(c.payee)
    ensures GivenBack(Send(c, works).log) == GivenBack(Reversals(c))
  {
    hide Reaches, Send, Recipients, Skipped, NoTwice, Visit, GivenBack;
    FailedPaymentStops(c, works);
    var v := Visit(c, c.payee, false);
    assert [] + v == v;
    VisitGivesNothing(c, [], c.payee, false);
    NothingGiven();
    hide Reversals;
    if Reversals(c) == [] {
      assert v + Reversals(c) == v;
    } else {
      OneReversal(c);
      var e := Reversals(c)[0];
      GivenBackMore(v, e);
      GivenBackMore([], e);
      assert [] + [e] == Reversals(c) == [e];
    }
  }

  lemma OneReversal(c: Call)
    requires Reversals(c) != []
    ensures Reversals(c) == [Reversals(c)[0]] && Reversals(c)[0].Reversal?
  {
  }

  lemma ServingGivesNothing(c: Call, works: int -> bool)
    requires Reaches(c) && NoTwice(Recipients(c)) && (c.payee != 0 ==> c.payee in Recipients(c))
    requires c.payee != 0 && !Skipped(c, c.payee) ==> works(c.payee)
    ensures GivenBack(Send(c, works).log) == []
  {
    hide JustMe, MovedToFront, Skipped, Walk, Reversals, Visit, NoTwice, Recipients, GivenBack;
    var ids := MovedToFront(Recipients(c), c.payee);
    FrontNoTwice(Recipients(c), c.payee);
    if ids == [] {
      WalkNothing(c, works);
    } else {
      WalkStops(c, ids, |ids|, works);
      assert ids[..|ids|] == ids;
    }
    WalkGivesNothing(c, ids, works);
  }

  /** Sats are given back exactly when the payee of a call is missing or cannot be paid: once, to the
      sender of the stored message if that is a contact other than oneself, the larger of amount and
      minimum. */
  lemma GivenBackIs(c: Call, works: int -> bool)
    requires NoTwice(Recipients(c))
    ensures GivenBack(Send(c, works).log) == if PayeeFails(c, works) then Due(c) else []
  {
    hide Speaks, Reaches, Send, Recipients, Skipped, NoTwice, Meant, Gets, Reversals, GivenBack, Due;
    SpeaksReaches(c);
    SkippedIs(c, c.payee);
    MeantIs(c, c.payee);
    ReversalsGiveBack(c);
    NothingGiven();
    if !Speaks(c) {
      QuietCalls(c, works);
    } else if c.payee != 0 && !Meant(c, c.payee) {
      AbsentPayee(c, works);
    } else if PayeeFails(c, works) {
      FailureGivesBack(c, works);
    } else {
      ServingGivesNothing(c, works);
    }
  }
}
