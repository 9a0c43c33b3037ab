/** Who gets a broadcast, and who is paid by it. */
module Payees {
  import opened Broadcast
  import Lightning = Keysend

  /** The contacts something was sent to, in order. */
  ghost function Targets(log: seq<Event>): seq<int> {
    if log == [] then []
    else
      var t, e := Targets(log[..|log| - 1]), log[|log| - 1];
      if e.Keysend? || e.Publish? || e.HandOver? then t + [e.id] else t
  }

  /** The keysends that went through, in order: whom and how much. */
  ghost function Paid(log: seq<Event>): seq<(int, nat)> {
    if log == [] then []
    else
      var t, e := Paid(log[..|log| - 1]), log[|log| - 1];
      if e.Keysend? && e.ok then t + [(e.id, e.amt)] else t
  }

  ghost function Wanted(c: Call, ids: seq<int>): seq<int> {
    if ids == [] then []
    else
      var w, id := Wanted(c, ids[..|ids| - 1]), ids[|ids| - 1];
      if Skipped(c, id) then w else w + [id]
  }

  ghost predicate NoTwice(ids: seq<int>) {
    forall i, j :: 0 <= i < j < |ids| ==> ids[i] != ids[j]
  }

  /** The call gets as far as its recipients. */
  ghost predicate Reaches(c: Call) {
    c.tenant != 0 && !(c.tribe && c.confirmation && !c.ownsChat) && !JustMe(c)
  }

  lemma TargetsMore(log: seq<Event>, e: Event)
    ensures Targets(log + [e]) == if e.Keysend? || e.Publish? || e.HandOver? then Targets(log) + [e.id] else Targets(log)
    ensures Paid(log + [e]) == if e.Keysend? && e.ok then Paid(log) + [(e.id, e.amt)] else Paid(log)
  {
    assert (log + [e])[..|log|] == log;
  }

  lemma Visiting(c: Call, log: seq<Event>, id: int, ok: bool)
    requires id in c.contacts
    ensures Targets(log + Visit(c, id, ok)) == Targets(log) + [id]
    ensures TribeOwner(c) ==>
            Paid(log + Visit(c, id, ok))
            == if Forced(c, id) && ok then Paid(log) + [(id, Lightning.Clamp(c.amount, c.min))] else Paid(log)
  {
    var a := Attempt(c, id, ok);
    if Forced(c, id) {
      TargetsMore(log, Score(id, c.amount));
      TargetsMore(log + [Score(id, c.amount)], a);
      assert log + [Score(id, c.amount), a] == log + [Score(id, c.amount)] + [a];
    } else {
      TargetsMore(log, a);
    }
  }

  lemma Reversing(c: Call, log: seq<Event>)
    ensures Targets(log + Reversals(c)) == Targets(log)
    ensures Paid(log + Reversals(c)) == Paid(log)
  {
    if Reversals(c) != [] {
      TargetsMore(log, Reversals(c)[0]);
    } else {
      assert log + Reversals(c) == log;
    }
  }

  /** One turn of the loop. */
  lemma Turn(c: Call, p: Progress, id: int, works: int -> bool)
    requires !p.stopped
    ensures var r := Advance(c, p, id, works);
            && Targets(r.log) == (if Skipped(c, id) then Targets(p.log) else Targets(p.log) + [id])
            && (TribeOwner(c) ==>
                  Paid(r.log) == if !Skipped(c, id) && Forced(c, id) && works(id) then Paid(p.log) + [(id, Lightning.Clamp(c.amount, c.min))]
                                 else Paid(p.log))
  {
    hide Visit, Reversals, Forced, TribeOwner, Targets, Paid;
    if !Skipped(c, id) {
      Visiting(c, p.log, id, works(id));
      Reversing(c, p.log + Visit(c, id, false));
    }
  }

  /** A loop that is not left serves everybody who is wanted. */
  lemma {:induction false} WalkServes(c: Call, ids: seq<int>, works: int -> bool)
    requires !Walk(c, ids, works).stopped
    ensures var p := Walk(c, ids, works);
            && Targets(p.log) == Wanted(c, ids)
            && (p.no <==> exists id :: id in Wanted(c, ids) && !works(id))
  {
    hide Skipped, Visit, Reversals, Forced, TribeOwner, Targets, Paid;
    if ids == [] {
      assert Targets([]) == [] by {
        NoTargets();
      }
    } else {
      var h, id := ids[..|ids| - 1], ids[|ids| - 1];
      var p := Walk(c, h, works);
      WalkServes(c, h, works);
      Turn(c, p, id, works);
      if !Skipped(c, id) {
        assert id in Wanted(c, ids);
      }
    }
  }

  lemma NoTargets()
    ensures Targets([]) == [] && Paid([]) == []
  {
  }

  /** With the payee in front the loop is left exactly at a failed payment, after giving it back. */
  lemma {:induction false} WalkStops(c: Call, ids: seq<int>, k: nat, works: int -> bool)
    requires 0 < k <= |ids| && NoTwice(ids) && (c.payee in ids ==> ids[0] == c.payee)
    ensures var p := Walk(c, ids[..k], works);
            && (p.stopped <==> c.payee != 0 && ids[0] == c.payee && !Skipped(c, c.payee) && !works(c.payee))
            && (p.stopped ==> c.payee in c.contacts && p.log == Visit(c, c.payee, false) + Reversals(c) && p.no)
  {
    hide Skipped, Visit, Reversals;
    if k == 1 {
      assert ids[..1][..0] == [];
      if !Skipped(c, ids[0]) {
        Known(c, ids[0]);
        assert [] + Visit(c, ids[0], works(ids[0])) == Visit(c, ids[0], works(ids[0]));
      }
    } else {
      WalkStops(c, ids, k - 1, works);
      assert ids[..k][..k - 1] == ids[..k - 1];
      assert ids[k - 1] in ids;
    }
  }

  lemma {:induction false} WalkPays(c: Call, ids: seq<int>, k: nat, works: int -> bool)
    requires TribeOwner(c) && 0 < k <= |ids| && NoTwice(ids) && (c.payee in ids ==> ids[0] == c.payee)
    ensures Paid(Walk(c, ids[..k], works).log)
         == if Forced(c, ids[0]) && !Skipped(c, ids[0]) && works(ids[0]) then [(ids[0], Lightning.Clamp(c.amount, c.min))] else []
  {
    hide Skipped, Visit, Reversals, Targets, Paid;
    if k == 1 {
      assert ids[..1][..0] == [];
      NoTargets();
      Turn(c, Walk(c, [], works), ids[0], works);
    } else {
      WalkPays(c, ids, k - 1, works);
      assert ids[..k][..k - 1] == ids[..k - 1];
      var p := Walk(c, ids[..k - 1], works);
      assert ids[k - 1] in ids && !Forced(c, ids[k - 1]);
      if !p.stopped {
        Turn(c, p, ids[k - 1], works);
      }
    }
  }

  lemma FrontNoTwice(s: seq<int>, x: int)
    requires NoTwice(s)
    ensures NoTwice(MovedToFront(s, x)) && |MovedToFront(s, x)| == |s|
    ensures x in MovedToFront(s, x) <==> x in s
  {
    Front(s, x);
    var i := IndexOf(s, x);
    if i > 0 {
      assert s == s[..i] + [s[i]] + s[i + 1..];
    }
  }

  /** The owner of a tribe pays by keysend the payee of the call, once, and nobody else. */
  lemma OwnerPaysPayee(c: Call, works: int -> bool)
    requires TribeOwner(c) && NoTwice(c.contactIds)
    ensures Paid(Send(c, works).log)
         == if Reaches(c) && c.payee in c.contactIds && Forced(c, c.payee) && !Skipped(c, c.payee) && works(c.payee)
            then [(c.payee, Lightning.Clamp(c.amount, c.min))] else []
  {
    hide JustMe, MovedToFront, Skipped, Walk, Reversals, Paid, Targets, NoTwice;
    NoTargets();
    if Reaches(c) {
      var ids := MovedToFront(c.contactIds, c.payee);
      if c.payee != 0 && c.payee !in c.contactIds {
        Reversing(c, []);
        assert [] + Reversals(c) == Reversals(c);
      } else {
        FrontNoTwice(c.contactIds, c.payee);
        if ids == [] {
          WalkNothing(c, works);
        } else {
          WalkPays(c, ids, |ids|, works);
          assert ids[..|ids|] == ids;
          assert ids[0] in ids;
        }
      }
    }
  }

  lemma WalkNothing(c: Call, works: int -> bool)
    ensures Walk(c, [], works) == Progress([], false, false)
  {
  }

  /** If paying the payee fails, nobody else gets the message; unless giving the sats back throws,
      the failure callback runs. */
  lemma FailedPaymentStops(c: Call, works: int -> bool)
    requires Reaches(c) && NoTwice(Recipients(c)) && c.payee != 0 && c.payee in Recipients(c)
    requires !Skipped(c, c.payee) && !works(c.payee)
    ensures c.payee in c.contacts
    ensures Send(c, works) == Sent(Visit(c, c.payee, false) + Reversals(c),
                                   if c.original.None? then Thrown else Called(false))
  {
    hide JustMe, MovedToFront, Skipped, Walk, Reversals, Visit, NoTwice, Recipients;
    var ids := MovedToFront(Recipients(c), c.payee);
    FrontNoTwice(Recipients(c), c.payee);
    WalkStops(c, ids, |ids|, works);
    assert ids[..|ids|] == ids;
  }

  /** Otherwise everybody who is not skipped gets the message once, the payee first, and the
      success callback runs if and only if every send goes through. */
  lemma EveryoneServed(c: Call, works: int -> bool)
    requires Reaches(c) && NoTwice(Recipients(c)) && (c.payee != 0 ==> c.payee in Recipients(c))
    requires c.payee != 0 && !Skipped(c, c.payee) ==> works(c.payee)
    ensures var ids := MovedToFront(Recipients(c), c.payee);
            && Targets(Send(c, works).log) == Wanted(c, ids)
            && Send(c, works).outcome == Called(forall id :: id in Wanted(c, ids) ==> works(id))
  {
    hide JustMe, MovedToFront, Skipped, Walk, Reversals, Visit, NoTwice, Recipients, Targets, Wanted;
    var ids := MovedToFront(Recipients(c), c.payee);
    FrontNoTwice(Recipients(c), c.payee);
    if ids == [] {
      WalkNothing(c, works);
    } else {
      WalkStops(c, ids, |ids|, works);
      assert ids[..|ids|] == ids;
    }
    WalkServes(c, ids, works);
  }

  /** Each contact that is not skipped and that can be reached, with the amount of the call. */
  ghost function Everyone(c: Call, ids: seq<int>, works: int -> bool): seq<(int, nat)> {
    if ids == [] then []
    else
      var w, id := Everyone(c, ids[..|ids| - 1], works), ids[|ids| - 1];
      if Skipped(c, id) || !works(id) then w else w + [(id, Lightning.Clamp(c.amount, c.min))]
  }

  lemma VisitPays(c: Call, log: seq<Event>, id: int, ok: bool)
    requires id in c.contacts && !TribeOwner(c)
    ensures Paid(log + Visit(c, id, ok)) == if ok then Paid(log) + [(id, Lightning.Clamp(c.amount, c.min))] else Paid(log)
  {
    TargetsMore(log, Attempt(c, id, ok));
  }

  lemma {:induction false} WalkPaysEveryone(c: Call, ids: seq<int>, works: int -> bool)
    requires !TribeOwner(c) && !Walk(c, ids, works).stopped
    ensures Paid(Walk(c, ids, works).log) == Everyone(c, ids, works)
  {
    hide Skipped, Visit, Reversals, TribeOwner, Paid;
    if ids == [] {
      NoTargets();
    } else {
      var h, id := ids[..|ids| - 1], ids[|ids| - 1];
      WalkPaysEveryone(c, h, works);
      if !Skipped(c, id) {
        Known(c, id);
        VisitPays(c, Walk(c, h, works).log, id, works(id));
      }
    }
  }

  /** Who does not own a tribe pays by keysend whoever gets the message: every contact of a chat, or
      the owner of the tribe. */
  lemma OthersPayEveryone(c: Call, works: int -> bool)
    requires !TribeOwner(c) && Reaches(c) && NoTwice(Recipients(c)) && (c.payee != 0 ==> c.payee in Recipients(c))
    requires c.payee != 0 && !Skipped(c, c.payee) ==> works(c.payee)
    ensures Paid(Send(c, works).log) == Everyone(c, MovedToFront(Recipients(c), c.payee), works)
  {
    hide JustMe, MovedToFront, Skipped, Walk, Reversals, Visit, NoTwice, Recipients, Paid, Everyone, TribeOwner;
    var ids := MovedToFront(Recipients(c), c.payee);
    FrontNoTwice(Recipients(c), c.payee);
    if ids == [] {
      WalkNothing(c, works);
    } else {
      WalkStops(c, ids, |ids|, works);
      assert ids[..|ids|] == ids;
    }
    WalkPaysEveryone(c, ids, works);
  }

  /** A payee who has left the chat is not sent anything, and neither is anybody else. */
  lemma AbsentPayee(c: Call, works: int -> bool)
    requires Reaches(c) && c.payee != 0 && c.payee !in Recipients(c)
    ensures Send(c, works) == Sent(Reversals(c), if c.original.Some? then Silent else Thrown)
    ensures Targets(Send(c, works).log) == []
  {
    hide JustMe, Recipients, Targets, Paid, Reversals;
    NoTargets();
    Reversing(c, []);
    assert [] + Reversals(c) == Reversals(c);
  }

  /** The payment to the payee is tried and fails. */
  predicate PaymentFails(c: Call, works: int -> bool) {
    c.payee != 0 && !Skipped(c, c.payee) && !works(c.payee)
  }

  /** A callback runs if and only if the payee is 0 or present, and no reversal throws: it is needed
      when the payment fails, and throws when the message is not stored. */
  lemma CallbackRuns(c: Call, works: int -> bool)
    requires Reaches(c) && NoTwice(Recipients(c))
    ensures Send(c, works).outcome.Called? <==>
              && (c.payee == 0 || c.payee in Recipients(c))
              && (PaymentFails(c, works) ==> c.original.Some?)
  {
    hide Reaches, Send, Recipients, Skipped, NoTwice, Wanted, Targets, Reversals, MovedToFront;
    if c.payee != 0 && c.payee !in Recipients(c) {
      AbsentPayee(c, works);
    } else if PaymentFails(c, works) {
      FailedPaymentStops(c, works);
    } else {
      EveryoneServed(c, works);
    }
  }
}
