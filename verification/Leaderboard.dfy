/** What members of a tribe have spent and earned. */
module Leaderboard {
  import opened Options
  import opened Broadcast
  import opened Payees
  import opened TribeOwner
  import opened Ledger
  import Timers

  function Spent(ms: seq<Member>): nat {
    if ms == [] then 0 else Spent(ms[1..]) + ms[0].spent
  }

  function Earned(ms: seq<Member>): nat {
    if ms == [] then 0 else Earned(ms[1..]) + ms[0].earned
  }

  lemma {:induction false} Replace(ms: seq<Member>, i: nat, x: Member)
    requires i < |ms|
    ensures Spent(ms[i := x]) + ms[i].spent == Spent(ms) + x.spent
    ensures Earned(ms[i := x]) + ms[i].earned == Earned(ms) + x.earned
  {
    if i == 0 {
      assert ms[0 := x][1..] == ms[1..];
    } else {
      Replace(ms[1..], i - 1, x);
      assert ms[i := x][1..] == ms[1..][i - 1 := x];
    }
  }

  /** The same members, in the same order. */
  ghost predicate SameIds(a: seq<Member>, b: seq<Member>) {
    |a| == |b| && forall i :: 0 <= i < |a| ==> a[i].contactId == b[i].contactId
  }

  lemma {:induction false} SameFind(a: seq<Member>, b: seq<Member>, id: int)
    requires SameIds(a, b)
    ensures Find(a, id) == Find(b, id)
  {
    if a != [] {
      SameFind(a[1..], b[1..], id);
    }
  }

  lemma SpendingAdds(ms: seq<Member>, id: int, amt: nat)
    ensures var r := AddSpent(ms, id, amt);
            && SameIds(ms, r) && Earned(r) == Earned(ms)
            && Spent(r) == Spent(ms) + if Listed(ms, id) then amt else 0
  {
    hide Spent, Earned;
    var i := Find(ms, id);
    if i >= 0 {
      Replace(ms, i, ms[i].(spent := ms[i].spent + amt));
    }
  }

  lemma EarningAdds(ms: seq<Member>, id: int, amt: nat)
    ensures var r := AddEarned(ms, id, amt);
            && SameIds(ms, r) && Spent(r) == Spent(ms)
            && Earned(r) == Earned(ms) + if Listed(ms, id) then amt else 0
  {
    hide Spent, Earned;
    var i := Find(ms, id);
    if i >= 0 {
      Replace(ms, i, ms[i].(earned := ms[i].earned + amt));
    }
  }

  // ---------------------------------------------------------------- the scores of one broadcast

  /** A log with no score. */
  ghost predicate Unscored(log: seq<Event>) {
    forall k :: 0 <= k < |log| ==> !log[k].Score?
  }

  /** A log whose only score is this one. */
  ghost predicate ScoredOnce(log: seq<Event>, id: int, amt: nat) {
    exists k :: 0 <= k < |log| && log[k] == Score(id, amt) && Unscored(log[..k]) && Unscored(log[k + 1..])
  }

  lemma {:induction false} UnscoredKeeps(ms: seq<Member>, log: seq<Event>)
    requires Unscored(log)
    ensures Scored(ms, log) == ms
  {
    if log != [] {
      UnscoredKeeps(ms, log[..|log| - 1]);
    }
  }

  lemma ScoredOnceAdds(ms: seq<Member>, log: seq<Event>, id: int, amt: nat)
    requires ScoredOnce(log, id, amt)
    ensures Scored(ms, log) == AddEarned(ms, id, amt)
  {
    hide AddEarned, Unscored;
    var k :| 0 <= k < |log| && log[k] == Score(id, amt) && Unscored(log[..k]) && Unscored(log[k + 1..]);
    assert log == (log[..k] + [log[k]]) + log[k + 1..];
    ScoredConcat(ms, log[..k] + [log[k]], log[k + 1..]);
    ScoredConcat(ms, log[..k], [log[k]]);
    UnscoredKeeps(ms, log[..k]);
    assert [log[k]][..0] == [];
    UnscoredKeeps(AddEarned(ms, id, amt), log[k + 1..]);
  }

  lemma UnscoredConcat(a: seq<Event>, b: seq<Event>)
    requires Unscored(a) && Unscored(b)
    ensures Unscored(a + b)
  {
  }

  lemma ScoredOnceMore(a: seq<Event>, b: seq<Event>, id: int, amt: nat)
    requires ScoredOnce(a, id, amt) && Unscored(b)
    ensures ScoredOnce(a + b, id, amt)
  {
    var k :| 0 <= k < |a| && a[k] == Score(id, amt) && Unscored(a[..k]) && Unscored(a[k + 1..]);
    assert (a + b)[..k] == a[..k];
    assert (a + b)[k + 1..] == a[k + 1..] + b;
    assert (a + b)[k] == Score(id, amt);
  }

  lemma VisitScores(c: Call, id: int, ok: bool)
    requires id in c.contacts
    ensures if Forced(c, id) then ScoredOnce(Visit(c, id, ok), id, c.amount) else Unscored(Visit(c, id, ok))
  {
    if Forced(c, id) {
      var v := Visit(c, id, ok);
      assert v[..0] == [] && v[1..] == [Attempt(c, id, ok)];
      assert v[0] == Score(id, c.amount);
    }
  }

  lemma ReversalsUnscored(c: Call)
    ensures Unscored(Reversals(c))
  {
  }

  /** With the payee in front the loop scores the payee once, or nobody. */
  lemma {:induction false} WalkScores(c: Call, ids: seq<int>, k: nat, works: int -> bool)
    requires 0 < k <= |ids| && NoTwice(ids) && (c.payee in ids ==> ids[0] == c.payee)
    ensures var p := Walk(c, ids[..k], works);
            if Forced(c, ids[0]) && !Skipped(c, ids[0]) then ScoredOnce(p.log, ids[0], c.amount) else Unscored(p.log)
  {
    hide Skipped, Visit, Reversals, Forced, Unscored, ScoredOnce, NoTwice;
    ReversalsUnscored(c);
    if k == 1 {
      assert ids[..1][..0] == [];
      if !Skipped(c, ids[0]) {
        Broadcast.Known(c, ids[0]);
        FirstTurn(c, ids[0], works);
      }
      NothingUnscored();
    } else {
      WalkScores(c, ids, k - 1, works);
      assert ids[..k][..k - 1] == ids[..k - 1];
      var p := Walk(c, ids[..k - 1], works);
      Later(c, ids, k - 1);
      if !p.stopped && !Skipped(c, ids[k - 1]) {
        LaterTurn(c, p, ids[k - 1], works, ids[0]);
      }
    }
  }

  lemma NothingUnscored()
    ensures Unscored([])
  {
  }

  lemma FirstTurn(c: Call, id: int, works: int -> bool)
    requires !Skipped(c, id)
    ensures var p := Advance(c, Progress([], false, false), id, works);
            if Forced(c, id) then ScoredOnce(p.log, id, c.amount) else Unscored(p.log)
  {
    hide Visit, Reversals, Forced, Unscored, ScoredOnce;
    VisitScores(c, id, works(id));
    ReversalsUnscored(c);
    var v := Visit(c, id, works(id));
    assert [] + v == v;
    if Forced(c, id) {
      ScoredOnceMore(v, Reversals(c), id, c.amount);
    } else {
      UnscoredConcat(v, Reversals(c));
    }
  }

  lemma Later(c: Call, ids: seq<int>, k: nat)
    requires 0 < k < |ids| && NoTwice(ids) && (c.payee in ids ==> ids[0] == c.payee)
    ensures !Forced(c, ids[k]) && (c.payee != 0 ==> ids[k] != c.payee)
  {
    assert ids[k] in ids;
  }

  lemma LaterTurn(c: Call, p: Progress, id: int, works: int -> bool, first: int)
    requires !p.stopped && !Skipped(c, id) && !Forced(c, id) && (c.payee != 0 ==> id != c.payee)
    ensures var r := Advance(c, p, id, works);
            && (Unscored(p.log) ==> Unscored(r.log))
            && (ScoredOnce(p.log, first, c.amount) ==> ScoredOnce(r.log, first, c.amount))
  {
    hide Visit, Reversals, Forced, Unscored, ScoredOnce;
    Broadcast.Known(c, id);
    VisitScores(c, id, works(id));
    var v := Visit(c, id, works(id));
    if Unscored(p.log) {
      UnscoredConcat(p.log, v);
    }
    if ScoredOnce(p.log, first, c.amount) {
      ScoredOnceMore(p.log, v, first, c.amount);
    }
  }

  /** The payee of a broadcast is visited. */
  ghost predicate Served(t: Tribe, m: Incoming) {
    var c := Broadcasting(t, m);
    && !Muted(t, m.kind) && Reaches(c) && Forward(t, m) > 0
    && m.repliedTo in t.contactIds && !Skipped(c, m.repliedTo)
  }

  lemma SendScores(c: Call, works: int -> bool)
    requires Broadcast.TribeOwner(c) && NoTwice(c.contactIds)
    ensures if Reaches(c) && c.payee in c.contactIds && Forced(c, c.payee) && !Skipped(c, c.payee)
            then ScoredOnce(Send(c, works).log, c.payee, c.amount) else Unscored(Send(c, works).log)
  {
    hide JustMe, MovedToFront, Skipped, Walk, Reversals, Unscored, ScoredOnce, NoTwice;
    NothingUnscored();
    ReversalsUnscored(c);
    if Reaches(c) && (c.payee == 0 || c.payee in c.contactIds) {
      var ids := MovedToFront(c.contactIds, c.payee);
      FrontNoTwice(c.contactIds, c.payee);
      if ids == [] {
        WalkNothing(c, works);
      } else {
        WalkScores(c, ids, |ids|, works);
        assert ids[..|ids|] == ids;
        assert ids[0] in ids;
      }
    }
  }

  lemma BroadcastScores(t: Tribe, m: Incoming, works: int -> bool)
    requires NoTwice(t.contactIds)
    ensures if Served(t, m) then ScoredOnce(Broadcasts(t, m, works), m.repliedTo, Forward(t, m))
            else Unscored(Broadcasts(t, m, works))
  {
    hide JustMe, Skipped, Send, Unscored, ScoredOnce, NoTwice;
    NothingUnscored();
    SendScores(Broadcasting(t, m), works);
  }

  // ---------------------------------------------------------------- repayments count as earned

  /** Paying a row back adds to the earnings of its receiver. */
  ghost predicate Rewards(t: Tribe, ms: seq<Member>, r: Timers.Row) {
    var c := Repayment(t, r, None);
    Reaches(c) && Forced(c, r.receiver) && !Skipped(c, r.receiver) && Listed(ms, r.receiver)
  }

  /** What paying rows back adds to earnings. */
  ghost function Rewarded(t: Tribe, ms: seq<Member>, rows: seq<Timers.Row>): nat {
    if rows == [] then 0
    else
      var r := rows[|rows| - 1];
      Rewarded(t, ms, rows[..|rows| - 1]) + if Rewards(t, ms, r) then r.amount else 0
  }

  lemma RepaymentScores(t: Tribe, ms: seq<Member>, r: Timers.Row, original: Option<int>, works: int -> bool)
    ensures var s := Scored(ms, Send(Repayment(t, r, original), works).log);
            && SameIds(ms, s) && Spent(s) == Spent(ms)
            && Earned(s) == Earned(ms) + if Rewards(t, ms, r) then r.amount else 0
  {
    hide Send, Unscored, ScoredOnce, Spent, Earned, AddEarned;
    var c := Repayment(t, r, original);
    SendScores(c, works);
    EarningAdds(ms, r.receiver, r.amount);
    if ScoredOnce(Send(c, works).log, r.receiver, r.amount) {
      ScoredOnceAdds(ms, Send(c, works).log, r.receiver, r.amount);
    }
    if Unscored(Send(c, works).log) {
      UnscoredKeeps(ms, Send(c, works).log);
    }
  }

  lemma {:induction false} SameRewarded(t: Tribe, a: seq<Member>, b: seq<Member>, rows: seq<Timers.Row>)
    requires SameIds(a, b)
    ensures Rewarded(t, a, rows) == Rewarded(t, b, rows)
  {
    hide Reaches, Forced, Skipped, SameIds;
    if rows != [] {
      SameRewarded(t, a, b, rows[..|rows| - 1]);
      SameFind(a, b, rows[|rows| - 1].receiver);
    }
  }

  lemma SameSame(a: seq<Member>, b: seq<Member>, c: seq<Member>)
    requires SameIds(a, b) && SameIds(b, c)
    ensures SameIds(a, c)
  {
  }

  lemma {:induction false} RepaymentsScore(t: Tribe, ms: seq<Member>, rows: seq<Timers.Row>, original: Option<int>,
                                           works: int -> bool)
    ensures var s := Scored(ms, Repayments(t, rows, original, works));
            SameIds(ms, s) && Spent(s) == Spent(ms) && Earned(s) == Earned(ms) + Rewarded(t, ms, rows)
  {
    hide Send, Spent, Earned, Rewards, SameIds;
    if rows == [] {
      ScoredNothing(ms);
      SameSelf(ms);
    } else {
      var h, r := rows[..|rows| - 1], rows[|rows| - 1];
      var b := Repayments(t, h, original, works);
      RepaymentsScore(t, ms, h, original, works);
      ScoredConcat(ms, b, Send(Repayment(t, r, original), works).log);
      RepaymentScores(t, Scored(ms, b), r, original, works);
      SameSame(ms, Scored(ms, b), Scored(ms, Repayments(t, rows, original, works)));
      SameReward(t, ms, Scored(ms, b), r);
    }
  }

  lemma SameSelf(ms: seq<Member>)
    ensures SameIds(ms, ms)
  {
  }

  lemma SameReward(t: Tribe, a: seq<Member>, b: seq<Member>, r: Timers.Row)
    requires SameIds(a, b)
    ensures Rewards(t, a, r) <==> Rewards(t, b, r)
  {
    hide Reaches, Forced, Skipped, SameIds;
    SameFind(a, b, r.receiver);
  }

  lemma {:induction false} RewardedConcat(t: Tribe, ms: seq<Member>, a: seq<Timers.Row>, b: seq<Timers.Row>)
    ensures Rewarded(t, ms, a + b) == Rewarded(t, ms, a) + Rewarded(t, ms, b)
  {
    hide Rewards;
    if b == [] {
      assert a + b == a;
    } else {
      RewardedConcat(t, ms, a, b[..|b| - 1]);
      assert (a + b)[..|a + b| - 1] == a + b[..|b| - 1];
    }
  }

  lemma RewardedMore(t: Tribe, ms: seq<Member>, s: Timers.State, u: Timers.State)
    requires s.repaid <= u.repaid
    ensures Rewarded(t, ms, u.repaid) == Rewarded(t, ms, s.repaid) + Rewarded(t, ms, PaidBack(s, u))
  {
    hide Rewarded;
    RewardedConcat(t, ms, s.repaid, PaidBack(s, u));
    assert u.repaid == s.repaid + PaidBack(s, u);
  }

  lemma RepaidGrows(s: Timers.State, e: Timers.Step)
    requires e.Add? || e.Fire?
    ensures s.repaid <= Timers.Apply(s, e).repaid
  {
    hide Timers.Select, Timers.Name;
  }

  /** The totals after a step of the timers. */
  lemma BoardTimed(t: Tribe, b: Books, u: Timers.State, original: Option<int>, works: int -> bool)
    ensures var r := Timed(t, b, u, original, works).members;
            && SameIds(b.members, r) && Spent(r) == Spent(b.members)
            && Earned(r) == Earned(b.members) + Rewarded(t, b.members, PaidBack(b.timers, u))
  {
    hide Spent, Earned, SameIds, Rewarded, Repayments, Scored;
    RepaymentsScore(t, b.members, PaidBack(b.timers, u), original, works);
  }

  lemma BoardCharged(t: Tribe, b: Books, m: Incoming, now: int, works: int -> bool)
    requires t.tenant >= 0
    ensures var c := Charged(t, b, m, now, works);
            && SameIds(b.members, c.members) && Spent(c.members) == Spent(b.members) && b.timers.repaid <= c.timers.repaid
            && Earned(c.members) == Earned(b.members) + Rewarded(t, b.members, PaidBack(b.timers, c.timers))
  {
    hide Spent, Earned, SameIds, Timed, Timers.Apply, Escrowed, Rewards;
    if Escrowed(t, m) {
      var u := Timers.Apply(b.timers, Escrow(t, m, now));
      BoardTimed(t, b.(received := b.received + m.amount), u, m.original, works);
      RepaidGrows(b.timers, Escrow(t, m, now));
      TimedTimers(t, b.(received := b.received + m.amount), u, m.original, works);
    } else {
      SameSelf(b.members);
    }
  }

  lemma TimedTimers(t: Tribe, b: Books, u: Timers.State, original: Option<int>, works: int -> bool)
    ensures Timed(t, b, u, original, works).timers == u
  {
  }

  // ---------------------------------------------------------------- the leaderboard over runs

  lemma BoardAfter(t: Tribe, b: Books, m: Incoming, now: int, works: int -> bool)
    requires t.tenant >= 0 && NoTwice(t.contactIds)
    ensures var u := Receive(t, b, m, now, works);
            var r := u.members;
            var acts := Accepted(t, b.members, m);
            && SameIds(b.members, r) && b.timers.repaid <= u.timers.repaid
            && Spent(r) == Spent(b.members) + (if acts && Listed(b.members, m.sender) then Spending(t, m) else 0)
            && Earned(r) == Earned(b.members) + Rewarded(t, b.members, PaidBack(b.timers, u.timers))
                            + (if acts && Served(t, m) && Listed(b.members, m.repliedTo) then Forward(t, m) else 0)
  {
    hide Accepted, Spent, Earned, Served, Forward, AddSpent, AddEarned, Broadcasts, ScoredOnce, Unscored, NoTwice,
         Spending, Find, Charged, Rewarded, SameIds, PaidBack;
    var c := Charged(t, b, m, now, works);
    BoardCharged(t, b, m, now, works);
    if Accepted(t, b.members, m) {
      var ms := AddSpent(c.members, m.sender, Spending(t, m));
      SpendingAdds(c.members, m.sender, Spending(t, m));
      SameSame(b.members, c.members, ms);
      BroadcastScores(t, m, works);
      SameFind(b.members, c.members, m.sender);
      SameFind(b.members, ms, m.repliedTo);
      if Served(t, m) {
        ScoredOnceAdds(ms, Broadcasts(t, m, works), m.repliedTo, Forward(t, m));
        EarningAdds(ms, m.repliedTo, Forward(t, m));
        SameSame(b.members, ms, AddEarned(ms, m.repliedTo, Forward(t, m)));
      } else {
        UnscoredKeeps(ms, Broadcasts(t, m, works));
      }
    }
  }

  /** The payee of the message is credited. */
  ghost predicate Credits(t: Tribe, ms: seq<Member>, m: Incoming) {
    Accepted(t, ms, m) && Served(t, m) && Listed(ms, m.repliedTo)
  }

  lemma SpendingOfForward(t: Tribe, m: Incoming)
    requires Forward(t, m) > 0
    ensures Spending(t, m) == Forward(t, m) && NeedsPrice(m.kind)
  {
  }

  /** One message credits no more than it charges, repayments apart, if and only if the sender of a
      credited one is listed. */
  lemma CreditNeedsSender(t: Tribe, b: Books, m: Incoming, now: int, works: int -> bool)
    requires t.tenant >= 0 && NoTwice(t.contactIds)
    ensures var u := Receive(t, b, m, now, works);
            Earned(u.members) + Spent(b.members)
              <= Spent(u.members) + Earned(b.members) + Rewarded(t, b.members, PaidBack(b.timers, u.timers))
            <==> (Credits(t, b.members, m) ==> Listed(b.members, m.sender))
  {
    hide Accepted, Spent, Earned, Spending, Forward, Skipped, Receive, NoTwice, Reaches, Rewarded, PaidBack;
    BoardAfter(t, b, m, now, works);
    if Served(t, m) {
      SpendingOfForward(t, m);
    }
  }

  /** Every message comes from a known contact. */
  ghost predicate KnownSenders(hs: seq<Happening>) {
    forall k :: 0 <= k < |hs| && hs[k].Took? ==> hs[k].m.sender != 0
  }

  lemma KnownSenderListed(t: Tribe, ms: seq<Member>, m: Incoming)
    requires m.sender != 0 && Accepted(t, ms, m) && Served(t, m)
    ensures Listed(ms, m.sender)
  {
    hide Forward, Skipped, Reaches;
    SpendingOfForward(t, m);
  }

  /** What is no message credits nothing but what it pays back. */
  lemma BoardElse(t: Tribe, b: Books, h: Happening)
    requires t.tenant >= 0 && !h.Took?
    ensures var u := Next(t, b, h);
            && SameIds(b.members, u.members) && Spent(u.members) == Spent(b.members) && b.timers.repaid <= u.timers.repaid
            && Earned(u.members) == Earned(b.members) + Rewarded(t, b.members, PaidBack(b.timers, u.timers))
  {
    hide Spent, Earned, SameIds, Timed, Timers.Apply, Rewards, Sum;
    match h {
      case Fires(handle, now, chats, original, works) =>
        var e := Timers.Fire(handle, now, chats);
        BoardTimed(t, b, Timers.Apply(b.timers, e), original, works);
        TimedTimers(t, b, Timers.Apply(b.timers, e), original, works);
        RepaidGrows(b.timers, e);
      case Cancels(query) =>
        SameSelf(b.members);
        RemoveSettles(b.timers, query);
        PaidBackIs(b.timers, Timers.Apply(b.timers, Timers.Remove(query)), [], 0);
      case Restarts(now) =>
        SameSelf(b.members);
        RestartSettles(b.timers, now);
        PaidBackIs(b.timers, Timers.Apply(b.timers, Timers.Restart(now)), [], 0);
    }
  }

  /** What members earned and spent since, and what repayments added to the earnings. */
  ghost predicate Within(t: Tribe, b: Books, u: Books) {
    && SameIds(b.members, u.members) && b.timers.repaid <= u.timers.repaid
    && Earned(u.members) + Spent(b.members)
       <= Spent(u.members) + Earned(b.members) + Rewarded(t, b.members, PaidBack(b.timers, u.timers))
  }

  ghost predicate Even(t: Tribe, b: Books, u: Books) {
    && SameIds(b.members, u.members) && b.timers.repaid <= u.timers.repaid
    && Earned(u.members) + Spent(b.members)
       == Spent(u.members) + Earned(b.members) + Rewarded(t, b.members, PaidBack(b.timers, u.timers))
  }

  lemma Joined(t: Tribe, b: Books, c: Books, u: Books)
    requires Within(t, b, c) && Within(t, c, u)
    ensures Within(t, b, u) && (Even(t, b, c) && Even(t, c, u) ==> Even(t, b, u))
  {
    hide Spent, Earned, SameIds, Rewarded, PaidBack;
    SameSame(b.members, c.members, u.members);
    RewardedMore(t, b.members, b.timers, c.timers);
    RewardedMore(t, b.members, c.timers, u.timers);
    RewardedMore(t, b.members, b.timers, u.timers);
    SameRewarded(t, b.members, c.members, PaidBack(c.timers, u.timers));
  }

  lemma WithinNothing(t: Tribe, b: Books)
    ensures Within(t, b, b) && Even(t, b, b)
  {
    assert PaidBack(b.timers, b.timers) == [];
    SameSelf(b.members);
  }

  lemma WithinNext(t: Tribe, b: Books, h: Happening)
    requires t.tenant >= 0 && NoTwice(t.contactIds) && (h.Took? ==> h.m.sender != 0)
    ensures Within(t, b, Next(t, b, h))
  {
    hide Receive, Fired, Accepted, Served, Listed, Timers.Apply, NoTwice, Spent, Earned, SameIds, Rewarded, PaidBack;
    if h.Took? {
      BoardAfter(t, b, h.m, h.now, h.works);
      CreditNeedsSender(t, b, h.m, h.now, h.works);
      if Credits(t, b.members, h.m) {
        KnownSenderListed(t, b.members, h.m);
      }
    } else {
      BoardElse(t, b, h);
    }
  }

  /** Over every run with known senders members together earn no more than they spend and repayments add. */
  lemma {:induction false} EarnedWithinSpent(t: Tribe, b: Books, hs: seq<Happening>)
    requires t.tenant >= 0 && NoTwice(t.contactIds) && KnownSenders(hs)
    ensures Within(t, b, After(t, b, hs))
  {
    hide Next, Within, Even, NoTwice;
    if hs == [] {
      WithinNothing(t, b);
    } else {
      var k := |hs| - 1;
      EarnedWithinSpent(t, b, hs[..k]);
      WithinNext(t, After(t, b, hs[..k]), hs[k]);
      Joined(t, b, After(t, b, hs[..k]), After(t, b, hs));
    }
  }

  /** Every message that is acted on credits a listed member. */
  ghost predicate AllCredit(t: Tribe, b: Books, hs: seq<Happening>)
    requires t.tenant >= 0
  {
    hs == [] ||
    var k := |hs| - 1;
    && AllCredit(t, b, hs[..k])
    && (hs[k].Took? && Accepted(t, After(t, b, hs[..k]).members, hs[k].m)
        ==> Credits(t, After(t, b, hs[..k]).members, hs[k].m))
  }

  lemma EvenNext(t: Tribe, b: Books, h: Happening)
    requires t.tenant >= 0 && NoTwice(t.contactIds) && (h.Took? ==> h.m.sender != 0)
    requires h.Took? && Accepted(t, b.members, h.m) ==> Credits(t, b.members, h.m)
    ensures Even(t, b, Next(t, b, h))
  {
    hide Receive, Fired, Accepted, Served, Listed, Timers.Apply, NoTwice, Spent, Earned, SameIds, Rewarded, PaidBack,
         Forward, Spending;
    if h.Took? {
      BoardAfter(t, b, h.m, h.now, h.works);
      if Accepted(t, b.members, h.m) {
        KnownSenderListed(t, b.members, h.m);
        ServedForwards(t, h.m);
        SpendingOfForward(t, h.m);
      }
    } else {
      BoardElse(t, b, h);
    }
  }

  /** If moreover every message credits a listed member, they earn exactly what is spent and repayments add. */
  lemma {:induction false} EarnedIsSpent(t: Tribe, b: Books, hs: seq<Happening>)
    requires t.tenant >= 0 && NoTwice(t.contactIds) && KnownSenders(hs) && AllCredit(t, b, hs)
    ensures Even(t, b, After(t, b, hs))
  {
    hide Next, Within, Even, NoTwice, Accepted, Credits;
    if hs == [] {
      WithinNothing(t, b);
    } else {
      var k := |hs| - 1;
      EarnedIsSpent(t, b, hs[..k]);
      EarnedWithinSpent(t, b, hs[..k]);
      WithinNext(t, After(t, b, hs[..k]), hs[k]);
      EvenNext(t, After(t, b, hs[..k]), hs[k]);
      Joined(t, b, After(t, b, hs[..k]), After(t, b, hs));
    }
  }

  lemma {:induction false} NothingRewarded(t: Tribe, ms: seq<Member>, rows: seq<Timers.Row>)
    ensures Rewarded(t, ms, rows) == 0 <==> forall r :: r in rows ==> !Rewards(t, ms, r)
  {
    hide Reaches, Skipped, Listed;
    if rows != [] {
      var k := |rows| - 1;
      NothingRewarded(t, ms, rows[..k]);
      assert rows == rows[..k] + [rows[k]];
    }
  }

  /** So in a run of such messages members earn no more than they spend if and only if no escrow is
      paid back to a listed member: it is spent as part of no amount, and counts as earned. */
  lemma EscrowIsEarned(t: Tribe, b: Books, hs: seq<Happening>)
    requires t.tenant >= 0 && NoTwice(t.contactIds) && KnownSenders(hs) && AllCredit(t, b, hs)
    requires Earned(b.members) == Spent(b.members) && b.timers.repaid == []
    ensures var u := After(t, b, hs);
            Earned(u.members) <= Spent(u.members) <==> forall r :: r in u.timers.repaid ==> !Rewards(t, b.members, r)
  {
    hide After, AllCredit, NoTwice, Spent, Earned, SameIds, Rewarded, Rewards;
    var u := After(t, b, hs);
    EarnedIsSpent(t, b, hs);
    assert PaidBack(b.timers, u.timers) == u.timers.repaid;
    NothingRewarded(t, b.members, u.timers.repaid);
  }

  lemma ServedForwards(t: Tribe, m: Incoming)
    requires Served(t, m)
    ensures Forward(t, m) > 0
  {
    hide Forward, Skipped, Reaches;
  }

  // ---------------------------------------------------------------- a run in which escrow is earned

  const Club := Tribe(1, 9, 1, 0, 5, 10, false, false, [2, 3],
                      map[2 := Contact("a", false, false), 3 := Contact("b", false, false)], 1, false)

  const Begun := Books(0, 0, [], [Member(2, 0, 0), Member(3, 0, 0)], Timers.Empty)

  const Boosted := Incoming(Boost, 20, 7, "u", 2, "a", 3, false, true, true, false, None)

  const Held5 := Timers.Row(0, 5, 10, 2, 7, "u", 9, 1)

  lemma BoostIsCredited()
    ensures Credits(Club, Begun.members, Boosted) && Rewards(Club, Begun.members, Held5)
  {
    TwoListed();
  }

  lemma TwoListed()
    ensures Listed(Begun.members, 2) && Listed(Begun.members, 3)
    ensures Earned(Begun.members) == 0 == Spent(Begun.members)
  {
    assert Begun.members[1..] == [Member(3, 0, 0)];
  }

  lemma BoostTimers(works: int -> bool)
    ensures Receive(Club, Begun, Boosted, 0, works).timers.pending == map[0 := Timers.First(Held5)]
    ensures Receive(Club, Begun, Boosted, 0, works).timers.due == map[0 := 10]
    ensures Receive(Club, Begun, Boosted, 0, works).timers.repaid == []
  {
    hide Timers.Name, Scored, AddSpent, Broadcasts, Accepted, Repayments;
  }

  /** A boost of 20 sats with 5 held: when they are paid back, members have earned more than they spent. */
  lemma EscrowEarned(works: int -> bool)
    ensures var hs := [Took(Boosted, 0, works), Fires(0, 10, {(9, 1)}, None, works)];
            var u := After(Club, Begun, hs);
            Earned(u.members) > Spent(u.members)
  {
    var hs := [Took(Boosted, 0, works), Fires(0, 10, {(9, 1)}, None, works)];
    hide *;
    BoostFacts();
    BoostPaysBack(works);
    TwoHappenings(Club, Begun, Boosted, 0, works, 0, 10, {(9, 1)}, None);
    EscrowIsEarned(Club, Begun, hs);
    assert Held5 in After(Club, Begun, hs).timers.repaid;
  }

  lemma BoostFacts()
    ensures Club.tenant >= 0 && NoTwice(Club.contactIds) && Boosted.sender != 0 && Begun.timers.repaid == []
    ensures Credits(Club, Begun.members, Boosted) && Rewards(Club, Begun.members, Held5)
    ensures Earned(Begun.members) == Spent(Begun.members)
  {
    TwoListed();
    BoostIsCredited();
  }

  lemma BoostPaysBack(works: int -> bool)
    requires Club.tenant >= 0
    ensures Fired(Club, Receive(Club, Begun, Boosted, 0, works), 0, 10, {(9, 1)}, None, works).timers.repaid == [Held5]
  {
    hide Receive, Fired, Timers.Apply;
    BoostTimers(works);
    BoostIsPaidBack(Receive(Club, Begun, Boosted, 0, works).timers);
    FiredTimers(Club, Receive(Club, Begun, Boosted, 0, works), 0, 10, {(9, 1)}, None, works);
  }

  lemma FiredTimers(t: Tribe, b: Books, handle: nat, now: int, chats: set<(nat, nat)>, original: Option<int>,
                    works: int -> bool)
    ensures Fired(t, b, handle, now, chats, original, works).timers == Timers.Apply(b.timers, Timers.Fire(handle, now, chats))
  {
  }

  lemma TwoHappenings(t: Tribe, b: Books, m: Incoming, now: int, works: int -> bool, handle: nat, due: int,
                      chats: set<(nat, nat)>, original: Option<int>)
    requires t.tenant >= 0 && Credits(t, b.members, m) && m.sender != 0
    ensures var hs := [Took(m, now, works), Fires(handle, due, chats, original, works)];
            && After(t, b, hs) == Fired(t, Receive(t, b, m, now, works), handle, due, chats, original, works)
            && AllCredit(t, b, hs) && KnownSenders(hs)
  {
    hide Receive, Fired, Credits;
    var hs := [Took(m, now, works), Fires(handle, due, chats, original, works)];
    assert hs[..1] == [hs[0]] && hs[..1][..0] == [];
    assert After(t, b, []) == b && AllCredit(t, b, []);
    assert After(t, b, hs[..1]) == Next(t, b, hs[0]) && AllCredit(t, b, hs[..1]);
  }

  lemma BoostIsPaidBack(s: Timers.State)
    requires s.pending == map[0 := Timers.First(Held5)] && s.due == map[0 := 10] && s.repaid == []
    ensures Timers.Apply(s, Timers.Fire(0, 10, {(9, 1)})).repaid == [Held5]
  {
    hide Timers.Select;
  }
}
