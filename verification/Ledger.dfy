/** Where the sats of a tribe owner go. */
module Ledger {
  import opened Options
  import opened Broadcast
  import opened Payees
  import opened TribeOwner
  import opened Timers
  import opened TimerCancel
  import opened TimerRuns
  import Lightning = Keysend

  // ---------------------------------------------------------------- escrow

  function Sum(rows: seq<Row>): nat {
    if rows == [] then 0 else Sum(rows[..|rows| - 1]) + rows[|rows| - 1].amount
  }

  lemma SumMore(rows: seq<Row>, t: Row)
    ensures Sum(rows + [t]) == Sum(rows) + t.amount
  {
    assert (rows + [t])[..|rows|] == rows;
  }

  lemma SumNone()
    ensures Sum([]) == 0
  {
  }

  /** A row of this tribe's escrow, for a contact that can be paid. */
  ghost predicate Payable(t: Tribe, r: Row) {
    r.amount == t.escrow > 0 && r.receiver != 0 && r.receiver != t.tenant && r.receiver in t.contacts
  }

  ghost predicate AllPayable(t: Tribe, s: State) {
    forall r :: r in s.created ==> Payable(t, r)
  }

  /** A step has paid back these rows, at most one, and created rows of this amount. */
  ghost predicate Settles(s: State, u: State, back: seq<Row>, more: nat) {
    && u.repaid == s.repaid + back && |back| <= 1
    && Sum(u.created) == Sum(s.created) + more
  }

  lemma SettlesNothing(s: State, u: State)
    requires u.created == s.created && u.repaid == s.repaid
    ensures Settles(s, u, [], 0)
  {
    assert s.repaid + [] == s.repaid;
  }

  /** What a firing timeout pays back. */
  ghost function Firing(s: State, h: nat, now: int, chats: set<(nat, nat)>): seq<Row> {
    if Ripe(s, h, now) && !s.pending[h].Reload? && (s.pending[h].row.chatId, s.pending[h].row.tenant) in chats
    then [s.pending[h].row] else []
  }

  lemma FireSettles(s: State, h: nat, now: int, chats: set<(nat, nat)>)
    requires Once(s)
    ensures var u := Apply(s, Fire(h, now, chats)); Settles(s, u, Firing(s, h, now, chats), 0) && u.created == s.created
    ensures forall r :: r in Firing(s, h, now, chats) ==> r in s.created
  {
    hide Select, DistinctIds, Sum, Idle, Numbered;
    assert s.repaid + [] == s.repaid;
  }

  /** What is paid back at once when escrow is to be held for no time. */
  ghost function AtOnce(s: State, e: Step): seq<Row>
    requires e.Add?
  {
    if NewRow(s, e).millis < e.now then [NewRow(s, e)] else []
  }

  lemma AddSettles(t: Tribe, s: State, e: Step)
    requires AllPayable(t, s) && e.Add? && (e.chatId, e.tenant) in e.chats && Payable(t, NewRow(s, e))
    ensures var u := Apply(s, e); Settles(s, u, AtOnce(s, e), e.amount) && AllPayable(t, u)
  {
    hide Select, Sum, Name, Payable;
    SumMore(s.created, NewRow(s, e));
    assert s.repaid + [] == s.repaid;
  }

  lemma RemoveSettles(s: State, q: Query)
    ensures var u := Apply(s, Remove(q)); Settles(s, u, [], 0) && u.created == s.created
  {
    hide Select, Apply, Settles;
    RemoveFrame(s, q);
    SettlesNothing(s, Apply(s, Remove(q)));
  }

  lemma RestartSettles(s: State, now: int)
    ensures var u := Apply(s, Restart(now)); Settles(s, u, [], 0) && u.created == s.created && u.rows == s.rows
  {
    hide Reloaded, Settles;
    ReloadedRows(Rebooted(s), s.rows, now);
    SettlesNothing(s, Apply(s, Restart(now)));
  }

  // ---------------------------------------------------------------- what becomes of escrow

  /** The rows of which this holds. */
  ghost function Picked(rows: seq<Row>, p: Row -> bool): (r: seq<Row>)
    ensures forall t :: t in r <==> t in rows && p(t)
  {
    if rows == [] then []
    else
      var m := |rows| - 1;
      assert rows == rows[..m] + [rows[m]];
      if p(rows[m]) then Picked(rows[..m], p) + [rows[m]] else Picked(rows[..m], p)
  }

  /** Escrow that was neither paid back nor is held any more. */
  ghost function Kept(s: State): seq<Row> {
    Picked(s.created, t => t !in s.rows && t !in s.repaid)
  }

  lemma {:induction false} SelectNone(rows: seq<Row>, id: nat)
    requires forall t :: t in rows ==> t.id != id
    ensures Select(rows, ById(id), false) == rows
  {
    if rows != [] {
      var m := |rows| - 1;
      SelectNone(rows[..m], id);
      assert rows[m] in rows;
      assert rows == rows[..m] + [rows[m]];
    }
  }

  lemma {:induction false} SumWithout(rows: seq<Row>, t: Row)
    requires DistinctIds(rows) && t in rows
    ensures Sum(rows) == Sum(Select(rows, ById(t.id), false)) + t.amount
  {
    hide DistinctIds;
    var m := |rows| - 1;
    DistinctLess(rows);
    if rows[m] == t {
      SelectNone(rows[..m], t.id);
    } else {
      assert t in rows[..m];
      SumWithout(rows[..m], t);
      SumMore(Select(rows[..m], ById(t.id), false), rows[m]);
    }
  }

  lemma {:induction false} SamePicked(rows: seq<Row>, p: Row -> bool, q: Row -> bool)
    requires forall t :: t in rows ==> p(t) == q(t)
    ensures Picked(rows, p) == Picked(rows, q)
  {
    if rows != [] {
      var m := |rows| - 1;
      SamePicked(rows[..m], p, q);
    }
  }

  lemma NumberedLess(created: seq<Row>)
    requires Numbered(created) && created != []
    ensures var m := |created| - 1;
            Numbered(created[..m]) && created[m].id == m && forall t :: t in created[..m] ==> t.id < m
  {
  }

  /** Rows with different numbers have the sum of the created rows they are. */
  lemma {:induction false} SumPicked(created: seq<Row>, rows: seq<Row>)
    requires Numbered(created) && DistinctIds(rows) && forall t :: t in rows ==> t in created
    ensures Sum(Picked(created, t => t in rows)) == Sum(rows)
  {
    hide Numbered, DistinctIds, Sum, Picked;
    if created == [] {
      PickedNone(t => t in rows);
      NoRows(rows);
      SumNone();
    } else {
      var m := |created| - 1;
      NumberedLess(created);
      var last := created[m];
      assert created == created[..m] + [last];
      var rest := Select(rows, ById(last.id), false);
      OthersStay(rows, created[..m], last);
      SelectDistinct(rows, ById(last.id), false);
      SumPicked(created[..m], rest);
      SamePicked(created[..m], t => t in rows, t => t in rest);
      PickedMore(created, t => t in rows);
      if last in rows {
        SumWithout(rows, last);
        SumMore(Picked(created[..m], t => t in rest), last);
      } else {
        SelectNone(rows, last.id);
      }
    }
  }

  lemma PickedNone(p: Row -> bool)
    ensures Picked([], p) == []
  {
  }

  lemma NoRows(rows: seq<Row>)
    requires forall t :: t !in rows
    ensures rows == []
  {
    if rows != [] {
      var _ := SomeRow(rows);
      assert false;
    }
  }

  lemma SomeRow(rows: seq<Row>) returns (t: Row)
    requires rows != []
    ensures t in rows
  {
    t := rows[0];
  }

  lemma PickedMore(rows: seq<Row>, p: Row -> bool)
    requires rows != []
    ensures var m := |rows| - 1;
            Picked(rows, p) == if p(rows[m]) then Picked(rows[..m], p) + [rows[m]] else Picked(rows[..m], p)
  {
  }

  lemma OthersStay(rows: seq<Row>, h: seq<Row>, last: Row)
    requires (forall t :: t in rows ==> t in h || t == last) && (forall t :: t in h ==> t.id < last.id)
    ensures forall t :: t in Select(rows, ById(last.id), false) ==> t in h
    ensures forall t :: t in h ==> (t in rows <==> t in Select(rows, ById(last.id), false))
    ensures last !in rows ==> forall t :: t in rows ==> t.id != last.id
  {
    hide Select;
  }

  lemma {:induction false} SumThree(rows: seq<Row>, p: Row -> bool, q: Row -> bool, r: Row -> bool)
    requires forall t :: t in rows ==> !(p(t) && q(t)) && (r(t) <==> !p(t) && !q(t))
    ensures Sum(rows) == Sum(Picked(rows, p)) + Sum(Picked(rows, q)) + Sum(Picked(rows, r))
  {
    hide Sum, Picked;
    if rows == [] {
      PickedNone(p);
      PickedNone(q);
      PickedNone(r);
      SumNone();
    } else {
      var m := |rows| - 1;
      assert rows == rows[..m] + [rows[m]];
      SumThree(rows[..m], p, q, r);
      PickedMore(rows, p);
      PickedMore(rows, q);
      PickedMore(rows, r);
      SumMore(rows[..m], rows[m]);
      SumMore(Picked(rows[..m], p), rows[m]);
      SumMore(Picked(rows[..m], q), rows[m]);
      SumMore(Picked(rows[..m], r), rows[m]);
    }
  }

  /** All escrow there ever was is held, paid back, or kept. */
  lemma EscrowIs(s: State)
    requires Once(s)
    ensures Sum(s.created) == Sum(s.rows) + Sum(s.repaid) + Sum(Kept(s))
  {
    hide Sum, Picked, Numbered, DistinctIds;
    BornCreated(s);
    SumPicked(s.created, s.rows);
    SumPicked(s.created, s.repaid);
    SumThree(s.created, t => t in s.rows, t => t in s.repaid, t => t !in s.rows && t !in s.repaid);
  }

  lemma BornCreated(s: State)
    requires Once(s)
    ensures forall t :: t in s.rows || t in s.repaid ==> t in s.created
    ensures forall t :: t in s.repaid ==> t !in s.rows
  {
    hide DistinctIds, Numbered, PendingOnce;
  }

  // ---------------------------------------------------------------- without cancellations

  /** The chat of a firing timeout still exists. */
  ghost predicate Alive(s: State, h: nat, chats: set<(nat, nat)>) {
    h in s.pending ==> (s.pending[h].row.chatId, s.pending[h].row.tenant) in chats
  }

  /** All escrow is held or paid back. */
  ghost predicate NoneKept(s: State) {
    forall t :: t in s.created ==> t in s.rows || t in s.repaid
  }

  lemma KeptIsNone(s: State)
    requires NoneKept(s)
    ensures Kept(s) == []
  {
    NoRows(Kept(s));
  }

  lemma PayBackKeepsNone(s: State, t: Row, chats: set<(nat, nat)>)
    requires NoneKept(s) && Numbered(s.created) && Born(s, t) && (t.chatId, t.tenant) in chats
    ensures NoneKept(PayBack(s, t, chats))
  {
    hide Select;
    var u := PayBack(s, t, chats);
    forall r | r in u.created
      ensures r in u.rows || r in u.repaid
    {
      if r.id == t.id {
        assert r == t == u.repaid[|s.repaid|];
      }
    }
  }

  lemma FireKeepsNone(s: State, h: nat, now: int, chats: set<(nat, nat)>)
    requires Once(s) && NoneKept(s) && Alive(s, h, chats)
    ensures NoneKept(Apply(s, Fire(h, now, chats)))
  {
    hide PayBack, DistinctIds, Numbered, Idle;
    if h in s.pending && !s.pending[h].Reload? {
      PayBackKeepsNone(s.(pending := s.pending - {h}), s.pending[h].row, chats);
    }
  }

  lemma AddKeepsNone(s: State, e: Step)
    requires Once(s) && NoneKept(s) && e.Add? && (e.chatId, e.tenant) in e.chats
    ensures NoneKept(Apply(s, e))
  {
    hide Once, PayBack, Name, DistinctIds, Idle;
    var t := NewRow(s, e);
    OnceCreate(s, t);
    CreateKeepsNone(s, t);
    if t.millis < e.now {
      NumberedOf(Create(s, t));
      PayBackKeepsNone(Create(s, t), t, e.chats);
    }
  }

  lemma CreateKeepsNone(s: State, t: Row)
    requires NoneKept(s)
    ensures NoneKept(Create(s, t))
  {
  }

  lemma NumberedOf(s: State)
    requires Once(s)
    ensures Numbered(s.created)
  {
  }

  // ---------------------------------------------------------------- sats forwarded

  function Total(paid: seq<(int, nat)>): nat {
    if paid == [] then 0 else Total(paid[..|paid| - 1]) + paid[|paid| - 1].1
  }

  /** The sats of all keysends in a log. */
  ghost function Forwarded(log: seq<Event>): nat {
    Total(Paid(log))
  }

  lemma {:induction false} PaidConcat(a: seq<Event>, b: seq<Event>)
    ensures Paid(a + b) == Paid(a) + Paid(b)
  {
    hide Paid;
    if b == [] {
      assert a + b == a;
      NoTargets();
      assert Paid(a) + [] == Paid(a);
    } else {
      var h, e := b[..|b| - 1], b[|b| - 1];
      PaidConcat(a, h);
      assert b == h + [e];
      assert a + b == (a + h) + [e];
      TargetsMore(a + h, e);
      TargetsMore(h, e);
      if e.Keysend? {
        assert Paid(a) + (Paid(h) + [(e.id, e.amt)]) == Paid(a) + Paid(h) + [(e.id, e.amt)];
      }
    }
  }

  lemma {:induction false} TotalConcat(a: seq<(int, nat)>, b: seq<(int, nat)>)
    ensures Total(a + b) == Total(a) + Total(b)
  {
    if b == [] {
      assert a + b == a;
    } else {
      TotalConcat(a, b[..|b| - 1]);
      assert (a + b)[..|a + b| - 1] == a + b[..|b| - 1];
    }
  }

  /** A boost or direct payment as the balance assumes it: acted on, from a known sender, above price
      and escrow, answering another member's message, the part to forward not below the minimum. */
  ghost predicate Fair(t: Tribe, ms: seq<Member>, m: Incoming) {
    && BoostOrPay(m.kind) && Accepted(t, ms, m)
    && m.sender != 0 && m.sender != t.tenant && m.sender in t.contacts
    && m.amount > t.price + t.escrow && Forward(t, m) >= Lightning.Least(t.min)
    && m.repliedTo != 0 && m.repliedTo in t.contactIds && !Skipped(Broadcasting(t, m), m.repliedTo)
  }

  ghost predicate Regular(t: Tribe) {
    t.tenant > 0 && NoTwice(t.contactIds)
  }

  lemma FairReaches(t: Tribe, ms: seq<Member>, m: Incoming)
    requires Regular(t) && Fair(t, ms, m)
    ensures var c := Broadcasting(t, m); Reaches(c) && Forced(c, c.payee) && c.payee == m.repliedTo
  {
  }

  /** What a broadcast of a fair message pays. */
  lemma FairPays(t: Tribe, ms: seq<Member>, m: Incoming, works: int -> bool)
    requires Regular(t) && Fair(t, ms, m) && works(m.repliedTo)
    ensures Paid(Broadcasts(t, m, works)) == [(m.repliedTo, Forward(t, m))]
  {
    hide Send, Skipped, JustMe, Paid, Accepted;
    FairReaches(t, ms, m);
    OwnerPaysPayee(Broadcasting(t, m), works);
  }

  // ---------------------------------------------------------------- sats paid back

  /** A repayment is one keysend to the receiver of the row; below the minimum it is the minimum. */
  lemma RepaymentPays(t: Tribe, r: Row, original: Option<int>, works: int -> bool)
    requires t.tenant > 0 && r.receiver != 0 && r.receiver != t.tenant && r.receiver in t.contacts && r.amount > 0
    requires works(r.receiver)
    ensures Paid(Send(Repayment(t, r, original), works).log) == [(r.receiver, Lightning.Clamp(r.amount, t.min))]
  {
    hide Paid, Send;
    OwnerPaysPayee(Repayment(t, r, original), works);
  }

  /** What an escrow costs beyond what was taken in for it: keysends carry at least the minimum. */
  function Excess(t: Tribe): nat {
    Lightning.Clamp(t.escrow, t.min) - t.escrow
  }

  lemma RepaymentsForward(t: Tribe, back: seq<Row>, original: Option<int>, works: int -> bool)
    requires t.tenant > 0 && |back| <= 1 && forall r :: r in back ==> Payable(t, r) && works(r.receiver)
    ensures Forwarded(Repayments(t, back, original, works)) == Sum(back) + |back| * Excess(t)
  {
    hide Paid, Send;
    if back == [] {
      NoTargets();
    } else {
      var r := back[0];
      assert r in back && back[..0] == [] && back == [r];
      RepaymentPays(t, r, original, works);
      assert [] + Send(Repayment(t, r, original), works).log == Send(Repayment(t, r, original), works).log;
      TotalOne(r.receiver, Lightning.Clamp(r.amount, t.min));
    }
  }

  lemma PaidBackIs(s: State, u: State, back: seq<Row>, more: nat)
    requires Settles(s, u, back, more)
    ensures PaidBack(s, u) == back
  {
  }

  // ---------------------------------------------------------------- runs

  /** A message comes in, a timeout fires, escrow is cancelled, or the node restarts. */
  datatype Happening =
    | Took(m: Incoming, now: int, works: int -> bool)
    | Fires(handle: nat, now: int, chats: set<(nat, nat)>, original: Option<int>, works: int -> bool)
    | Cancels(query: Query)
    | Restarts(now: int)

  function Next(t: Tribe, b: Books, h: Happening): Books
    requires t.tenant >= 0
  {
    match h
    case Took(m, now, works) => Receive(t, b, m, now, works)
    case Fires(handle, now, chats, original, works) => Fired(t, b, handle, now, chats, original, works)
    case Cancels(query) => b.(timers := Apply(b.timers, Remove(query)))
    case Restarts(now) => b.(timers := Apply(b.timers, Restart(now)))
  }

  ghost function After(t: Tribe, b: Books, hs: seq<Happening>): Books
    requires t.tenant >= 0
  {
    if hs == [] then b else Next(t, After(t, b, hs[..|hs| - 1]), hs[|hs| - 1])
  }

  /** No payment fails that the happening makes. */
  ghost predicate Works(s: State, h: Happening) {
    match h
    case Took(m, _, works) => works(m.repliedTo) && works(m.sender)
    case Fires(handle, now, chats, _, works) => forall r :: r in Firing(s, handle, now, chats) ==> works(r.receiver)
    case _ => true
  }

  /** Every message is fair when it comes in, and no payment fails. */
  ghost predicate FairRun(t: Tribe, b: Books, hs: seq<Happening>)
    requires t.tenant >= 0
  {
    hs == [] ||
    var m := |hs| - 1;
    && FairRun(t, b, hs[..m])
    && Works(After(t, b, hs[..m]).timers, hs[m])
    && (hs[m].Took? ==> Fair(t, After(t, b, hs[..m]).members, hs[m].m))
  }

  /** Sats received, with the excess of repayments, are prices kept, escrow not paid back and sats that left. */
  ghost predicate Balanced(t: Tribe, b: Books) {
    b.received + |b.timers.repaid| * Excess(t) + Sum(b.timers.repaid)
    == b.accepted * t.price + Sum(b.timers.created) + Forwarded(b.log)
  }

  ghost predicate Orderly(t: Tribe, b: Books) {
    Once(b.timers) && AllPayable(t, b.timers) && Balanced(t, b)
  }

  lemma SumBack(rows: seq<Row>, back: seq<Row>)
    requires |back| <= 1
    ensures Sum(rows + back) == Sum(rows) + Sum(back)
  {
    hide Sum;
    SumNone();
    if back == [] {
      assert rows + back == rows;
    } else {
      assert back == [back[0]] == [] + [back[0]];
      SumMore(rows, back[0]);
      SumMore([], back[0]);
    }
  }

  /** A step of the timers keeps the balance, but for the amount of the rows it creates. */
  lemma TimedBalances(t: Tribe, b: Books, u: State, back: seq<Row>, more: nat, original: Option<int>, works: int -> bool)
    requires t.tenant > 0 && Balanced(t, b) && Settles(b.timers, u, back, more)
    requires forall r :: r in back ==> Payable(t, r) && works(r.receiver)
    ensures var c := Timed(t, b, u, original, works);
            c.received + |u.repaid| * Excess(t) + Sum(u.repaid) + more
            == c.accepted * t.price + Sum(u.created) + Forwarded(c.log)
  {
    hide Paid, Total, Repayments, Payable, Scored, Excess, Sum;
    PaidBackIs(b.timers, u, back, more);
    RepaymentsForward(t, back, original, works);
    ForwardedMore(b.log, Repayments(t, back, original, works));
    SumBack(b.timers.repaid, back);
    assert |u.repaid| * Excess(t) == |b.timers.repaid| * Excess(t) + |back| * Excess(t);
  }

  lemma ForwardedMore(a: seq<Event>, b: seq<Event>)
    ensures Forwarded(a + b) == Forwarded(a) + Forwarded(b)
  {
    hide Paid, Total;
    PaidConcat(a, b);
    TotalConcat(Paid(a), Paid(b));
  }

  lemma TotalOne(id: int, amt: nat)
    ensures Total([(id, amt)]) == amt
  {
    assert [(id, amt)][..0] == [];
  }

  lemma FairIsPayable(t: Tribe, ms: seq<Member>, m: Incoming, s: State, now: int)
    requires t.tenant > 0 && Fair(t, ms, m) && Escrowed(t, m)
    ensures Payable(t, NewRow(s, Escrow(t, m, now)))
  {
    hide Accepted, Skipped;
  }

  /** Taking in a fair message: its escrow is held, or paid back at once. */
  lemma ChargedBalances(t: Tribe, b: Books, m: Incoming, now: int, works: int -> bool)
    requires Regular(t) && Fair(t, b.members, m) && works(m.sender) && Orderly(t, b)
    ensures var c := Charged(t, b, m, now, works);
            && Once(c.timers) && AllPayable(t, c.timers) && c.accepted == b.accepted
            && c.received + |c.timers.repaid| * Excess(t) + Sum(c.timers.repaid) + (if Escrowed(t, m) then t.escrow else 0)
               == c.accepted * t.price + Sum(c.timers.created) + Forwarded(c.log) + m.amount
  {
    hide Once, AllPayable, Apply, Fair, Forwarded, Escrowed, Settles, Sum, Payable, Scored, Repayments, Excess, Forward;
    if Escrowed(t, m) {
      var e := Escrow(t, m, now);
      FairIsPayable(t, b.members, m, b.timers, now);
      AddSettles(t, b.timers, e);
      OnceStep(b.timers, e);
      TimedBalances(t, b, Apply(b.timers, e), AtOnce(b.timers, e), t.escrow, m.original, works);
    }
  }

  lemma TookForwards(t: Tribe, ms: seq<Member>, log: seq<Event>, m: Incoming, works: int -> bool)
    requires Regular(t) && Fair(t, ms, m) && works(m.repliedTo)
    ensures Forwarded(log + Broadcasts(t, m, works)) == Forwarded(log) + Forward(t, m)
  {
    hide Paid, Broadcasts, Fair, Forward, Total;
    FairPays(t, ms, m, works);
    ForwardedMore(log, Broadcasts(t, m, works));
    TotalOne(m.repliedTo, Forward(t, m));
  }

  lemma TookBalances(t: Tribe, b: Books, m: Incoming, now: int, works: int -> bool)
    requires Regular(t) && Fair(t, b.members, m) && works(m.repliedTo) && works(m.sender) && Orderly(t, b)
    ensures Orderly(t, Receive(t, b, m, now, works))
  {
    hide Once, AllPayable, Apply, Forwarded, Broadcasts, NoTwice, Accepted, Scored, AddSpent, Sum, Charged, Excess;
    var c := Charged(t, b, m, now, works);
    ChargedBalances(t, b, m, now, works);
    TookForwards(t, b.members, c.log, m, works);
    FairSplits(t, b.members, m);
    FairAccepted(t, b.members, m);
    hide Fair, Forward, Escrowed;
    assert (c.accepted + 1) * t.price == c.accepted * t.price + t.price;
  }

  lemma FairAccepted(t: Tribe, ms: seq<Member>, m: Incoming)
    requires Fair(t, ms, m)
    ensures Accepted(t, ms, m)
  {
    hide Accepted;
  }

  /** The amount splits into price, escrow and the part forwarded. */
  lemma FairSplits(t: Tribe, ms: seq<Member>, m: Incoming)
    requires Fair(t, ms, m)
    ensures m.amount == t.price + (if Escrowed(t, m) then t.escrow else 0) + Forward(t, m)
  {
    hide Accepted, Skipped;
  }

  lemma FiresBalances(t: Tribe, b: Books, h: Happening)
    requires t.tenant > 0 && Orderly(t, b) && h.Fires? && Works(b.timers, h)
    ensures Orderly(t, Next(t, b, h))
  {
    hide Once, Apply, Forwarded, Settles, Sum, Payable, Scored, Repayments, Excess, Firing;
    var u := Apply(b.timers, Fire(h.handle, h.now, h.chats));
    FireSettles(b.timers, h.handle, h.now, h.chats);
    OnceStep(b.timers, Fire(h.handle, h.now, h.chats));
    TimedBalances(t, b, u, Firing(b.timers, h.handle, h.now, h.chats), 0, h.original, h.works);
  }

  lemma CancelBalances(t: Tribe, b: Books, q: Query)
    requires t.tenant > 0 && Orderly(t, b)
    ensures Orderly(t, Next(t, b, Cancels(q)))
  {
    hide Once, Apply, Forwarded, Sum, Excess;
    RemoveSettles(b.timers, q);
    OnceStep(b.timers, Remove(q));
    assert b.timers.repaid + [] == b.timers.repaid;
  }

  lemma RestartBalances(t: Tribe, b: Books, now: int)
    requires t.tenant > 0 && Orderly(t, b)
    ensures Orderly(t, Next(t, b, Restarts(now)))
  {
    hide Once, Apply, Forwarded, Sum, Excess;
    RestartSettles(b.timers, now);
    OnceStep(b.timers, Restart(now));
    assert b.timers.repaid + [] == b.timers.repaid;
  }

  lemma {:induction false} BalancedRun(t: Tribe, b: Books, hs: seq<Happening>)
    requires Regular(t) && FairRun(t, b, hs) && Orderly(t, b)
    ensures Orderly(t, After(t, b, hs))
  {
    hide Orderly, Fair, Receive, Fired, Apply, Firing;
    if hs != [] {
      var m := |hs| - 1;
      BalancedRun(t, b, hs[..m]);
      var r := After(t, b, hs[..m]);
      match hs[m] {
        case Took(m', now, works) => TookBalances(t, r, m', now, works);
        case Fires(_, _, _, _, _) => FiresBalances(t, r, hs[m]);
        case Cancels(q) => CancelBalances(t, r, q);
        case Restarts(now) => RestartBalances(t, r, now);
      }
    }
  }

  /** The owner's books at the start. */
  function Start(ms: seq<Member>): Books {
    Books(0, 0, [], ms, Empty)
  }

  /** Conservation: over every such run the sats received are the prices kept, the escrow held, the
      escrow kept after cancellations and the sats that left, forwarded or paid back, less what
      repayments cost beyond the escrow. */
  lemma Conservation(t: Tribe, ms: seq<Member>, hs: seq<Happening>)
    requires Regular(t) && FairRun(t, Start(ms), hs)
    ensures var b := After(t, Start(ms), hs);
            var rest := b.accepted * t.price + Sum(b.timers.rows) + Sum(Kept(b.timers)) + Forwarded(b.log);
            && b.received + |b.timers.repaid| * Excess(t) == rest
            && (b.received == rest <==> t.escrow >= Lightning.Least(t.min) || b.timers.repaid == [])
  {
    hide FairRun, After, Sum, Forwarded, Once, Kept;
    StartsBalanced(t, ms);
    BalancedRun(t, Start(ms), hs);
    EscrowIs(After(t, Start(ms), hs).timers);
  }

  lemma StartsBalanced(t: Tribe, ms: seq<Member>)
    ensures Orderly(t, Start(ms))
  {
  }

  /** Nothing is cancelled, and the tribe exists as long as its timers. */
  ghost predicate Undisturbed(t: Tribe, b: Books, hs: seq<Happening>)
    requires t.tenant >= 0
  {
    hs == [] ||
    var m := |hs| - 1;
    && Undisturbed(t, b, hs[..m])
    && !hs[m].Cancels?
    && (hs[m].Fires? ==> Alive(After(t, b, hs[..m]).timers, hs[m].handle, hs[m].chats))
  }

  lemma NextKeepsNone(t: Tribe, b: Books, h: Happening)
    requires t.tenant >= 0 && Once(b.timers) && NoneKept(b.timers) && !h.Cancels?
    requires h.Fires? ==> Alive(b.timers, h.handle, h.chats)
    ensures NoneKept(Next(t, b, h).timers) && Once(Next(t, b, h).timers)
  {
    hide Once, NoneKept, Apply, Escrowed, Accepted, Broadcasts, Alive, Repayments, Scored;
    match h {
      case Took(m, now, works) =>
        OnceStep(b.timers, Escrow(t, m, now));
        AddKeepsNone(b.timers, Escrow(t, m, now));
      case Fires(handle, now, chats, _, _) =>
        OnceStep(b.timers, Fire(handle, now, chats));
        FireKeepsNone(b.timers, handle, now, chats);
      case Restarts(now) =>
        OnceStep(b.timers, Restart(now));
        RestartSettles(b.timers, now);
        RestartKeepsNone(b.timers, Apply(b.timers, Restart(now)));
    }
  }

  lemma RestartKeepsNone(s: State, u: State)
    requires NoneKept(s) && Settles(s, u, [], 0) && u.created == s.created && u.rows == s.rows
    ensures NoneKept(u)
  {
    hide Sum;
    assert s.repaid + [] == s.repaid;
  }

  /** Over every run in which nothing is cancelled the owner keeps no escrow. */
  lemma {:induction false} UndisturbedRun(t: Tribe, b: Books, hs: seq<Happening>)
    requires t.tenant >= 0 && Undisturbed(t, b, hs) && Once(b.timers) && NoneKept(b.timers)
    ensures var u := After(t, b, hs).timers; Once(u) && NoneKept(u)
  {
    hide Once, NoneKept, Next, Alive;
    if hs != [] {
      var m := |hs| - 1;
      UndisturbedRun(t, b, hs[..m]);
      NextKeepsNone(t, After(t, b, hs[..m]), hs[m]);
    }
  }

  lemma NoEscrowKept(t: Tribe, ms: seq<Member>, hs: seq<Happening>)
    requires t.tenant >= 0 && Undisturbed(t, Start(ms), hs)
    ensures Kept(After(t, Start(ms), hs).timers) == []
  {
    hide Undisturbed, After, Kept;
    EmptyOnce();
    UndisturbedRun(t, Start(ms), hs);
    KeptIsNone(After(t, Start(ms), hs).timers);
  }

  // ---------------------------------------------------------------- rejected messages

  /** What a message makes the owner give away: escrow to hold and sats to forward. */
  function GivenAway(t: Tribe, ms: seq<Member>, m: Incoming): nat {
    (if Escrowed(t, m) then t.escrow else 0) + (if Accepted(t, ms, m) then Forward(t, m) else 0)
  }

  /** The owner gives away no more than was received if and only if no escrow is held for a message
      whose amount does not cover it: escrow is held for rejected messages too. */
  lemma NeverGivesMore(t: Tribe, ms: seq<Member>, m: Incoming)
    ensures GivenAway(t, ms, m) <= m.amount <==> !(Escrowed(t, m) && m.amount < t.escrow)
  {
    hide Accepted, Escrowed;
  }

  /** A message rejected because it pays nothing still gets escrow back. */
  lemma RejectedMessageIsRepaid(t: Tribe, ms: seq<Member>, m: Incoming)
    requires m.kind == Boost && m.amount == 0 && m.sender != 0 && t.price > 0 && t.escrow > 0
    ensures !Accepted(t, ms, m) && GivenAway(t, ms, m) == t.escrow > m.amount
  {
  }
}
