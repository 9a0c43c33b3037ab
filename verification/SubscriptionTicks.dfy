/** What single requests and ticks do to a subscription, and how many payments a run makes. */
module SubscriptionTicks {
  import opened Subscriptions
  import opened SubscriptionRuns
  import opened SubscriptionPayments

  // ---------------------------------------------------------------- ticks

  /** The end date has passed, or the number of payments is reached. */
  predicate Over(r: Sub, now: nat) {
    (r.endDate != 0 && now > r.endDate) || (r.endNumber != 0 && r.count >= r.endNumber)
  }

  /** The job of a subscription runs, and the subscription is to be paid for now. */
  ghost predicate IsDue(s: State, h: nat, r: Sub, now: nat) {
    h in s.cron && s.cron[h].running && s.cron[h].subId == r.id && r in s.rows && !r.paused && !Over(r, now)
  }

  lemma OnlyOne(s: State, r: Sub)
    requires DistinctIds(s.rows) && r in s.rows
    ensures Has(s, r.id) && Get(s, r.id) == r
  {
    hide Find;
    var i := Find(s.rows, r.id);
    var k :| 0 <= k < |s.rows| && s.rows[k] == r;
    if i >= 0 {
      SamePlace(s.rows, i, k);
    }
  }

  lemma SamePlace(rows: seq<Sub>, i: nat, k: nat)
    requires DistinctIds(rows) && i < |rows| && k < |rows| && rows[i].id == rows[k].id
    ensures i == k
  {
  }

  /** The row of a subscription after a step; the others are as they were. */
  ghost predicate Becomes(s: State, u: State, r: Sub, q: Sub) {
    q.id == r.id && forall t :: t in u.rows <==> t == q || (t in s.rows && t.id != r.id)
  }

  lemma PutBecomes(s: State, u: State, r: Sub, q: Sub)
    requires DistinctIds(s.rows) && r in s.rows && q.id == r.id && Has(s, q.id) && u.rows == Put(s, q).rows
    ensures Becomes(s, u, r, q)
  {
    hide Find, DistinctIds;
    OnlyOne(s, r);
    PutRows(s, q);
    PutGet(s, q);
    GetIn(Put(s, q), q.id);
    forall t | t in s.rows && t.id != r.id
      ensures t in u.rows
    {
      OtherStays(s, q, t);
    }
  }

  lemma OtherStays(s: State, q: Sub, t: Sub)
    requires Has(s, q.id) && t in s.rows && t.id != q.id
    ensures t in Put(s, q).rows
  {
    hide Find;
    var k :| 0 <= k < |s.rows| && s.rows[k] == t;
    assert Put(s, q).rows[k] == t;
  }

  /** Past its end date or number after this payment. */
  predicate IsLast(r: Sub, now: nat) {
    (r.endDate != 0 && now + r.interval > r.endDate) || (r.endNumber != 0 && r.count + 1 >= r.endNumber)
  }

  lemma PayIs(s: State, r: Sub, now: nat, ok: bool)
    requires DistinctIds(s.rows) && r in s.rows
    ensures Has(s, r.id)
    ensures var u := Pay(s, r.id, now, ok);
            && u.log == s.log + [Payment(r, now, ok)]
            && (!ok ==> u == s.(log := u.log))
            && (ok ==> Becomes(s, u, r, r.(count := r.count + 1, totalPaid := r.totalPaid + r.amount,
                                        ended := IsLast(r, now))))
            && (ok && !IsLast(r, now) ==> u.cron == s.cron && u.jobs == s.jobs)
            && (ok && IsLast(r, now) ==> r.id !in u.jobs)
  {
    hide Find, DistinctIds, StopStored, Put;
    OnlyOne(s, r);
    var p := s.(log := s.log + [Payment(r, now, ok)]);
    var q := r.(totalPaid := r.totalPaid + r.amount, count := r.count + 1, ended := IsLast(r, now));
    var v := if IsLast(r, now) then Forget(StopStored(p, r.id), r.id) else p;
    StopStoredLog(p, r.id);
    PutLog(v, q);
    PutFrame(v, q);
    if ok {
      PutBecomes(v, Put(v, q), r, q);
    }
  }

  /** A tick of a due subscription tries exactly one payment of its amount; one that goes through is
      counted, and the last one ends the subscription. */
  lemma TickPays(s: State, h: nat, r: Sub, now: nat, ok: bool)
    requires DistinctIds(s.rows) && IsDue(s, h, r, now)
    ensures var u := Apply(s, Tick(h, now, ok));
            && u.log == s.log + [Payment(r, now, ok)]
            && (!ok ==> u == s.(log := u.log))
            && (ok ==> Becomes(s, u, r, r.(count := r.count + 1, totalPaid := r.totalPaid + r.amount,
                                        ended := IsLast(r, now))))
            && (ok && !IsLast(r, now) ==> u.cron == s.cron && u.jobs == s.jobs)
            && (ok && IsLast(r, now) ==> r.id !in u.jobs)
  {
    hide Find, DistinctIds, Pay, Becomes, Get;
    OnlyOne(s, r);
    PayIs(s, r, now, ok);
  }

  /** Any other tick tries none. */
  lemma TickPaysNothing(s: State, h: nat, now: nat, ok: bool)
    requires DistinctIds(s.rows) && forall r :: !IsDue(s, h, r, now)
    ensures Apply(s, Tick(h, now, ok)).log == s.log
  {
    hide Find, DistinctIds, Pay, Put;
    if h in s.cron && s.cron[h].running && Has(s, s.cron[h].subId) {
      var r := Get(s, s.cron[h].subId);
      GetIn(s, r.id);
      assert !IsDue(s, h, r, now);
      PutLog(s, r.(ended := true));
    }
  }

  /** A tick of a subscription that is over ends it. */
  lemma TickEnds(s: State, h: nat, r: Sub, now: nat, ok: bool)
    requires DistinctIds(s.rows) && h in s.cron && s.cron[h].running && s.cron[h].subId == r.id && r in s.rows
    requires !r.paused && Over(r, now)
    ensures var u := Apply(s, Tick(h, now, ok));
            Becomes(s, u, r, r.(ended := true)) && r.id !in u.jobs && h in u.cron && !u.cron[h].running
  {
    hide Find, DistinctIds, Becomes, Put;
    OnlyOne(s, r);
    PutBecomes(s, Put(s, r.(ended := true)), r, r.(ended := true));
    PutFrame(s, r.(ended := true));
    SameBecomes(s, Put(s, r.(ended := true)), Apply(s, Tick(h, now, ok)), r, r.(ended := true));
  }

  /** A tick of a paused subscription, or of one that is gone, stops its job and changes nothing else. */
  lemma TickStops(s: State, h: nat, now: nat, ok: bool)
    requires DistinctIds(s.rows) && h in s.cron && s.cron[h].running
    requires forall r :: r in s.rows && r.id == s.cron[h].subId ==> r.paused
    ensures var u := Apply(s, Tick(h, now, ok));
            && u.rows == s.rows && u.log == s.log && u.cron == s.cron[h := Job(s.cron[h].subId, false)]
            && ((forall r :: r in s.rows ==> r.id != s.cron[h].subId) ==> s.cron[h].subId !in u.jobs)
  {
    hide Find, DistinctIds, Pay, Put;
    if Has(s, s.cron[h].subId) {
      GetIn(s, s.cron[h].subId);
    }
  }

  lemma SameBecomes(s: State, u: State, v: State, r: Sub, q: Sub)
    requires Becomes(s, u, r, q) && v.rows == u.rows
    ensures Becomes(s, v, r, q)
  {
  }

  // ---------------------------------------------------------------- runs

  /** The tick tries a payment. */
  ghost predicate Pays(s: State, e: Step) {
    e.Tick? && exists r :: IsDue(s, e.handle, r, e.now)
  }

  /** The subscriptions asked for, and the ticks of due ones. */
  ghost function Payments(es: seq<Step>): nat {
    if es == [] then 0
    else
      var m := |es| - 1;
      Payments(es[..m]) + if es[m].Create? || Pays(Run(Empty, es[..m]), es[m]) then 1 else 0
  }

  lemma CreatePays(s: State, e: Step)
    requires Accounts(s) && e.Create?
    ensures var u := Apply(s, e);
            && |u.log| == |s.log| + 1
            && var p := u.log[|s.log|];
               p.sub.amount == e.amount && p.sub.tenant == e.tenant && p.now == e.now && p.ok == e.ok
               && p.sub.count == 0
  {
    hide DistinctIds, Find, Pay, Counted, Due;
    var r := NewRow(s, e);
    var c := Created(s, r);
    AddedIsFound(s, r);
    PayLogs(c, r.id, e.now, e.ok);
  }

  lemma AddedIsFound(s: State, r: Sub)
    requires Accounts(s) && r.id == s.nextId
    ensures Has(Created(s, r), r.id) && Get(Created(s, r), r.id) == r
  {
    hide Counted, Due;
    var c := Created(s, r);
    MoreDistinct(s.rows, r);
    assert c.rows[|s.rows|] == r;
    hide DistinctIds;
    OnlyOne(c, r);
  }

  lemma ElseLogsNothing(s: State, e: Step)
    requires Accounts(s) && !e.Create? && !e.Tick?
    ensures Apply(s, e).log == s.log
  {
    hide Accounts, Apply, Logs;
    StepLogs(s, e);
    NoLog(s, e, Apply(s, e));
  }

  lemma NoLog(s: State, e: Step, t: State)
    requires Logs(s, e, t) && !e.Create? && !e.Tick?
    ensures t.log == s.log
  {
  }

  lemma StepPays(s: State, e: Step)
    requires Accounts(s)
    ensures |Apply(s, e).log| == |s.log| + if e.Create? || Pays(s, e) then 1 else 0
  {
    hide Apply, Accounts, IsDue, DistinctIds;
    DistinctAccounts(s);
    if e.Create? {
      CreatePays(s, e);
    } else if !e.Tick? {
      ElseLogsNothing(s, e);
    } else if r :| IsDue(s, e.handle, r, e.now) {
      TickPays(s, e.handle, r, e.now, e.ok);
    } else {
      TickPaysNothing(s, e.handle, e.now, e.ok);
    }
  }

  lemma DistinctAccounts(s: State)
    requires Accounts(s)
    ensures DistinctIds(s.rows)
  {
  }

  /** Over every run as many payments are tried as subscriptions are asked for and due ones tick. */
  lemma {:induction false} PaymentsAreMade(es: seq<Step>)
    ensures |Run(Empty, es).log| == Payments(es)
  {
    hide Apply, Accounts, Pays;
    if es != [] {
      PaymentsAreMade(es[..|es| - 1]);
      PaymentsAreCounted(es[..|es| - 1]);
      StepPays(Run(Empty, es[..|es| - 1]), es[|es| - 1]);
    }
  }

  // ---------------------------------------------------------------- requests

  /** What editing changes: the interval, and the amount and the ends that are given. */
  lemma EditIs(s: State, r: Sub, amount: nat, interval: nat, endDate: nat, endNumber: nat, now: nat)
    requires DistinctIds(s.rows) && r in s.rows
    ensures var u := Apply(s, Edit(r.id, true, amount, interval, endDate, endNumber, now));
            var q := r.(interval := interval, amount := if amount == 0 then r.amount else amount,
                        endDate := if endDate == 0 then r.endDate else endDate,
                        endNumber := if endNumber == 0 then r.endNumber else endNumber);
            && u.log == s.log
            && Becomes(s, u, r, q.(ended := r.ended || Over(q, now)))
            && (if Over(q, now) then r.id !in u.jobs
                else s.handles in u.cron && u.cron[s.handles] == Job(r.id, true) && u.jobs == s.jobs[r.id := s.handles])
  {
    hide Find, DistinctIds, StopStored, Put, Becomes, Get;
    var e := Edit(r.id, true, amount, interval, endDate, endNumber, now);
    var q := Edited(r, e);
    var v := StopStored(s, r.id);
    OnlyOne(s, r);
    StopStoredLog(s, r.id);
    StopStoredJobs(s, r.id);
    OnlyOne(v, r);
    var w := if Over(q, now) then q.(ended := true) else q;
    PutLog(v, w);
    PutFrame(v, w);
    PutHandles(v, w);
    PutBecomes(v, Put(v, w), r, w);
    FromStopped(s, v, Apply(s, e), Put(v, w), r, w);
  }

  lemma StopStoredJobs(s: State, id: nat)
    ensures StopStored(s, id).jobs == s.jobs && StopStored(s, id).handles == s.handles
  {
  }

  lemma PutHandles(s: State, r: Sub)
    requires Has(s, r.id)
    ensures Put(s, r).handles == s.handles
  {
    hide Find;
  }

  lemma FromStopped(s: State, v: State, u: State, p: State, r: Sub, q: Sub)
    requires v.rows == s.rows && u.rows == p.rows && Becomes(v, p, r, q)
    ensures Becomes(s, u, r, q)
  {
  }

  lemma EditInvalid(s: State, e: Step)
    requires e.Edit? && (!e.valid || forall r :: r in s.rows ==> r.id != e.id)
    ensures Apply(s, e) == s
  {
    hide Find;
    if Has(s, e.id) {
      GetIn(s, e.id);
    }
  }

  /** An edited subscription is paid for with its new amount. */
  lemma EditedIsPaid(s: State, r: Sub, amount: nat, interval: nat, now: nat, later: nat, ok: bool)
    requires DistinctIds(s.rows) && r in s.rows && !r.paused && !Over(r, now) && !Over(r, later) && amount != 0
    ensures var u := Apply(Apply(s, Edit(r.id, true, amount, interval, 0, 0, now)), Tick(s.handles, later, ok));
            |u.log| == |s.log| + 1 && u.log[|s.log|].sub.amount == amount && u.log[|s.log|].sub.id == r.id
  {
    hide Apply, DistinctIds;
    var e := Edit(r.id, true, amount, interval, 0, 0, now);
    var v := Apply(s, e);
    var q := r.(interval := interval, amount := amount);
    EditIs(s, r, amount, interval, 0, 0, now);
    assert Becomes(s, v, r, q);
    StillDistinct(s, e);
    TickPays(v, s.handles, q, later, ok);
  }

  lemma StillDistinct(s: State, e: Step)
    requires DistinctIds(s.rows) && e.Edit?
    ensures DistinctIds(Apply(s, e).rows)
  {
    hide Find, DistinctIds, StopStored, Put, Get;
    if e.valid && Has(s, e.id) {
      var q := Edited(Get(s, e.id), e);
      var v := StopStored(s, e.id);
      StopStoredLog(s, e.id);
      SameGet(s, v, e.id);
      PutRows(v, q);
      PutRows(v, q.(ended := true));
    }
  }

  /** Pausing and going on are for the tenant of the subscription; pausing stops its stored job, going
      on starts it. */
  lemma PauseIs(s: State, r: Sub, tenant: nat)
    requires DistinctIds(s.rows) && r in s.rows
    ensures var u := Apply(s, Pause(r.id, tenant));
            if tenant != r.tenant then u == s
            else Becomes(s, u, r, r.(paused := true)) && u.log == s.log && u.jobs == s.jobs
                 && (r.id in s.jobs && s.jobs[r.id] in s.cron
                     ==> s.jobs[r.id] in u.cron && !u.cron[s.jobs[r.id]].running)
  {
    hide Find, DistinctIds, Put, Becomes, Get;
    var q := r.(paused := true);
    OnlyOne(s, r);
    PutBecomes(s, Put(s, q), r, q);
    PutLog(s, q);
    PutFrame(s, q);
    if tenant == r.tenant {
      SameBecomes(s, Put(s, q), Apply(s, Pause(r.id, tenant)), r, q);
    }
  }

  lemma RestartIs(s: State, r: Sub, tenant: nat)
    requires DistinctIds(s.rows) && r in s.rows
    ensures var u := Apply(s, Restart(r.id, tenant));
            if tenant != r.tenant then u == s
            else Becomes(s, u, r, r.(paused := false)) && u.log == s.log && u.jobs == s.jobs
                 && (r.id in s.jobs && s.jobs[r.id] in s.cron
                     ==> s.jobs[r.id] in u.cron && u.cron[s.jobs[r.id]].running)
  {
    hide Find, DistinctIds, Put, Becomes, Get;
    var q := r.(paused := false);
    OnlyOne(s, r);
    PutBecomes(s, Put(s, q), r, q);
    PutLog(s, q);
    PutFrame(s, q);
    if tenant == r.tenant {
      SameBecomes(s, Put(s, q), Apply(s, Restart(r.id, tenant)), r, q);
    }
  }

  /** Deleting destroys only one's own subscription. */
  lemma DeleteIs(s: State, id: nat, tenant: nat, r: Sub)
    ensures var u := Apply(s, Delete(id, tenant));
            (r in u.rows <==> r in s.rows && !(r.id == id && r.tenant == tenant)) && u.log == s.log && id !in u.jobs
  {
    hide StopStored, Without;
    StopStoredLog(s, id);
  }

  /** A new subscription is stored as it was asked for, with a job of its own and its first payment. */
  lemma CreateIs(s: State, e: Step)
    requires Accounts(s) && e.Create?
    ensures var u := Apply(s, e);
            var r := Sub(s.nextId, e.tenant, e.amount, e.interval, e.endDate, e.endNumber, 0, 0, false, false);
            var q := if e.ok then r.(count := 1, totalPaid := e.amount, ended := IsLast(r, e.now)) else r;
            && u.log == s.log + [Payment(r, e.now, e.ok)]
            && (forall t :: t in u.rows <==> t == q || t in s.rows)
            && (!(e.ok && IsLast(r, e.now)) ==>
                  s.handles in u.cron && u.cron[s.handles] == Job(r.id, true) && u.jobs == s.jobs[r.id := s.handles])
  {
    hide DistinctIds, Find, Pay, Counted, Due, Get;
    var r := NewRow(s, e);
    var c := Created(s, r);
    AddedIsFound(s, r);
    MoreDistinct(s.rows, r);
    assert c.rows[|s.rows|] == r;
    PayIs(c, r, e.now, e.ok);
  }
}
