/** What is paid for subscriptions over whole runs. */
module SubscriptionPayments {
  import opened Subscriptions
  import opened SubscriptionRuns

  /** How many payments of a subscription went through. */
  function Sent(log: seq<Payment>, id: nat): nat {
    if log == [] then 0
    else
      var p := log[|log| - 1];
      Sent(log[..|log| - 1], id) + if p.ok && p.sub.id == id then 1 else 0
  }

  /** How much was paid for it. */
  function Amount(log: seq<Payment>, id: nat): nat {
    if log == [] then 0
    else
      var p := log[|log| - 1];
      Amount(log[..|log| - 1], id) + if p.ok && p.sub.id == id then p.sub.amount else 0
  }

  /** A payment is tried only for a row that is not paused and has not reached its number. */
  predicate Due(p: Payment) {
    !p.sub.paused && (p.sub.endNumber != 0 ==> p.sub.count < p.sub.endNumber)
  }

  /** The row counts exactly the payments that went through. */
  ghost predicate Counted(log: seq<Payment>, r: Sub) {
    r.count == Sent(log, r.id) && r.totalPaid == Amount(log, r.id)
  }

  ghost predicate Accounts(s: State) {
    && DistinctIds(s.rows)
    && (forall r :: r in s.rows ==> r.id < s.nextId && Counted(s.log, r))
    && (forall p :: p in s.log ==> Due(p) && p.sub.id < s.nextId)
  }

  lemma LogMore(log: seq<Payment>, p: Payment, id: nat)
    ensures Sent(log + [p], id) == Sent(log, id) + if p.ok && p.sub.id == id then 1 else 0
    ensures Amount(log + [p], id) == Amount(log, id) + if p.ok && p.sub.id == id then p.sub.amount else 0
  {
    assert (log + [p])[..|log|] == log;
  }

  lemma {:induction false} NeverPaid(log: seq<Payment>, id: nat)
    requires forall p :: p in log ==> p.sub.id != id
    ensures Sent(log, id) == 0 && Amount(log, id) == 0
  {
    if log != [] {
      assert log[|log| - 1] in log;
      NeverPaid(log[..|log| - 1], id);
    }
  }

  lemma GetIn(s: State, id: nat)
    requires Has(s, id)
    ensures Get(s, id) in s.rows
  {
  }

  lemma PutRows(s: State, r: Sub)
    requires Has(s, r.id) && DistinctIds(s.rows)
    ensures DistinctIds(Put(s, r).rows)
    ensures forall t :: t in Put(s, r).rows ==> t == r || (t in s.rows && t.id != r.id)
  {
    hide Find;
    var i := Find(s.rows, r.id);
    var rows := s.rows[i := r];
    forall t | t in rows
      ensures t == r || (t in s.rows && t.id != r.id)
    {
      var k :| 0 <= k < |rows| && rows[k] == t;
      if k != i {
        assert s.rows[k].id != s.rows[i].id;
      }
    }
  }

  /** Replacing a row by one with the same numbers. */
  lemma AccountsPut(s: State, r: Sub)
    requires Accounts(s) && Has(s, r.id)
    requires r.count == Get(s, r.id).count && r.totalPaid == Get(s, r.id).totalPaid
    ensures Accounts(Put(s, r))
  {
    hide Find, DistinctIds;
    PutRows(s, r);
    GetIn(s, r.id);
  }

  /** Cron jobs do not matter to the accounts. */
  lemma AccountsJobs(s: State, t: State)
    requires Accounts(s) && t.rows == s.rows && t.log == s.log && t.nextId == s.nextId
    ensures Accounts(t)
  {
  }

  lemma StopStoredLog(s: State, id: nat)
    ensures var u := StopStored(s, id); u.rows == s.rows && u.log == s.log && u.nextId == s.nextId
  {
  }

  lemma AccountsPay(s: State, id: nat, now: nat, ok: bool)
    requires Accounts(s) && Has(s, id) && Due(Payment(Get(s, id), now, ok))
    ensures Accounts(Pay(s, id, now, ok))
  {
    hide Find, DistinctIds, StopStored, ShouldEndAfterThisPayment, Sent, Amount;
    var r := Get(s, id);
    var p := Payment(r, now, ok);
    GetIn(s, id);
    var logged := s.(log := s.log + [p]);
    forall t | t in s.rows
      ensures Sent(logged.log, t.id) == Sent(s.log, t.id) + if ok && t.id == id then 1 else 0
      ensures Amount(logged.log, t.id) == Amount(s.log, t.id) + if ok && t.id == id then r.amount else 0
    {
      LogMore(s.log, p, t.id);
    }
    StopStoredLog(logged, id);
    var ends := ShouldEndAfterThisPayment(r, now);
    var q := if ends then Forget(StopStored(logged, id), id) else logged;
    var u := r.(totalPaid := r.totalPaid + r.amount, count := r.count + 1, ended := ends);
    PutRows(q, u);
  }

  lemma AccountsDestroy(s: State, id: nat, tenant: nat)
    requires Accounts(s)
    ensures Accounts(s.(rows := Without(s.rows, id, tenant)))
  {
    hide DistinctIds, Without;
    WithoutDistinct(s.rows, id, tenant);
  }

  lemma AccountsCreate(s: State, e: Step)
    requires Accounts(s) && e.Create?
    ensures Accounts(Apply(s, e))
  {
    hide DistinctIds, Find, Pay, Sent, Amount;
    var r := NewRow(s, e);
    var c := Created(s, r);
    MoreDistinct(s.rows, r);
    NeverPaid(s.log, r.id);
    if Has(c, r.id) {
      GetIn(c, r.id);
      assert Get(c, r.id) == r;
      AccountsPay(c, r.id, e.now, e.ok);
    }
  }

  lemma AccountsTick(s: State, h: nat, now: nat, ok: bool)
    requires Accounts(s)
    ensures Accounts(Ticked(s, h, now, ok))
  {
    hide DistinctIds, Find, Pay, Put, Get, Accounts;
    if h in s.cron && s.cron[h].running {
      var id := s.cron[h].subId;
      if !Has(s, id) {
        AccountsJobs(s, SetRunning(Forget(s, id), h, false));
      } else if Get(s, id).paused {
        AccountsJobs(s, SetRunning(s, h, false));
      } else if ShouldAlreadyHaveEnded(Get(s, id), now) {
        var u := Put(s, Get(s, id).(ended := true));
        AccountsPut(s, Get(s, id).(ended := true));
        AccountsJobs(u, SetRunning(Forget(u, id), h, false));
      } else {
        AccountsPay(s, id, now, ok);
      }
    }
  }

  lemma AccountsEdit(s: State, e: Step)
    requires Accounts(s) && e.Edit?
    ensures Accounts(Apply(s, e))
  {
    hide Accounts, Find, StopStored, ShouldAlreadyHaveEnded, Put, Get;
    if Has(s, e.id) {
      var u := Edited(Get(s, e.id), e);
      var r := StopStored(s, e.id);
      StopStoredLog(s, e.id);
      AccountsJobs(s, r);
      SameGet(s, r, e.id);
      AccountsPut(r, u);
      AccountsPut(r, u.(ended := true));
      AccountsJobs(Put(r, u), StartCronJob(Put(r, u), e.id));
      AccountsJobs(Put(r, u.(ended := true)), Forget(Put(r, u.(ended := true)), e.id));
    }
  }

  lemma SameGet(s: State, t: State, id: nat)
    requires s.rows == t.rows && Has(s, id)
    ensures Has(t, id) && Get(t, id) == Get(s, id)
  {
    hide Find;
  }

  lemma AccountsDelete(s: State, id: nat, tenant: nat)
    requires Accounts(s)
    ensures Accounts(Apply(s, Delete(id, tenant)))
  {
    hide Accounts, StopStored, Without;
    var r := if id in s.jobs then Forget(StopStored(s, id), id) else s;
    StopStoredLog(s, id);
    AccountsJobs(s, r);
    AccountsDestroy(r, id, tenant);
  }

  lemma AccountsPauseOrRestart(s: State, id: nat, tenant: nat)
    requires Accounts(s)
    ensures Accounts(Apply(s, Pause(id, tenant))) && Accounts(Apply(s, Restart(id, tenant)))
  {
    hide Accounts, StopStored, Get, Put, Find;
    if Owned(s, id, tenant) {
      var p, r := Put(s, Get(s, id).(paused := true)), Put(s, Get(s, id).(paused := false));
      AccountsPut(s, Get(s, id).(paused := true));
      AccountsPut(s, Get(s, id).(paused := false));
      StopStoredLog(p, id);
      AccountsJobs(p, StopStored(p, id));
      if id in s.jobs {
        AccountsJobs(r, SetRunning(r, s.jobs[id], true));
      }
      PutFrame(s, Get(s, id).(paused := false));
    }
  }

  /** Every step keeps the accounts, initialisation at any time included. */
  lemma AccountsStep(s: State, e: Step)
    requires Accounts(s)
    ensures Accounts(Apply(s, e))
  {
    hide Accounts, Ticked, Created, Pay, Put, Get, StopStored, SetRunning, Without, Find, StartAll, Forget,
         ShouldAlreadyHaveEnded, Has;
    match e {
      case Create(_, _, _, _, _, _, _) => AccountsCreate(s, e);
      case Tick(h, now, ok) => AccountsTick(s, h, now, ok);
      case Pause(id, tenant) => AccountsPauseOrRestart(s, id, tenant);
      case Restart(id, tenant) => AccountsPauseOrRestart(s, id, tenant);
      case Edit(_, _, _, _, _, _, _) => AccountsEdit(s, e);
      case Delete(id, tenant) => AccountsDelete(s, id, tenant);
      case Crash => AccountsJobs(s, Apply(s, Crash));
      case Initialize =>
        StartAllFrame(s, s.rows);
        AccountsJobs(s, StartAll(s, s.rows));
    }
  }

  /** Over every run, no payment is tried for a paused subscription or one that has reached its
      number, and every row counts exactly the payments that went through and their amounts. */
  lemma {:induction false} PaymentsAreCounted(es: seq<Step>)
    ensures Accounts(Run(Empty, es))
  {
    hide Apply;
    if es != [] {
      PaymentsAreCounted(es[..|es| - 1]);
      hide Accounts;
      AccountsStep(Run(Empty, es[..|es| - 1]), es[|es| - 1]);
    }
  }

  // ---------------------------------------------------------------- payments past the end date

  /** A payment beyond the end that the row had when it was tried. */
  predicate PastEnd(p: Payment) {
    ShouldAlreadyHaveEnded(p.sub, p.now)
  }

  /** A request for a subscription that has ended by its date before it begins. */
  predicate AsksForPast(e: Step) {
    e.Create? && e.endDate != 0 && e.now > e.endDate
  }

  /** What a step may log: nothing, or one payment of its own time. */
  ghost predicate Logs(s: State, e: Step, t: State) {
    || t.log == s.log
    || (&& (e.Create? || e.Tick?) && |t.log| == |s.log| + 1 && s.log <= t.log
        && t.log[|s.log|].now == e.now && (PastEnd(t.log[|s.log|]) <==> AsksForPast(e)))
  }

  lemma PayLogs(s: State, id: nat, now: nat, ok: bool)
    requires Has(s, id)
    ensures Pay(s, id, now, ok).log == s.log + [Payment(Get(s, id), now, ok)]
  {
    hide Find, StopStored, ShouldEndAfterThisPayment, Get;
    StopStoredLog(s.(log := s.log + [Payment(Get(s, id), now, ok)]), id);
  }

  lemma CreateLogs(s: State, e: Step)
    requires Accounts(s) && e.Create?
    ensures Logs(s, e, Apply(s, e))
  {
    hide DistinctIds, Find, Pay, Counted, Due;
    var r := NewRow(s, e);
    var c := Created(s, r);
    if Has(c, r.id) {
      GetIn(c, r.id);
      assert Get(c, r.id) == r;
      PayLogs(c, r.id, e.now, e.ok);
      assert Apply(s, e).log[|s.log|] == Payment(r, e.now, e.ok);
    }
  }

  lemma TickLogs(s: State, e: Step)
    requires e.Tick?
    ensures Logs(s, e, Apply(s, e))
  {
    hide Find, Pay, Get, Put, ShouldAlreadyHaveEnded;
    var h := e.handle;
    if h in s.cron && s.cron[h].running && Has(s, s.cron[h].subId) {
      var id := s.cron[h].subId;
      PutLog(s, Get(s, id).(ended := true));
      PayLogs(s, id, e.now, e.ok);
    }
  }

  lemma PutLog(s: State, r: Sub)
    requires Has(s, r.id)
    ensures Put(s, r).log == s.log
  {
    hide Find;
  }

  lemma EditLogs(s: State, e: Step)
    requires e.Edit?
    ensures Apply(s, e).log == s.log
  {
    hide Find, StopStored, ShouldAlreadyHaveEnded, Put, Get;
    if e.valid && Has(s, e.id) {
      var u := Edited(Get(s, e.id), e);
      var r := StopStored(s, e.id);
      StopStoredLog(s, e.id);
      SameGet(s, r, e.id);
      PutLog(r, u);
      PutLog(r, u.(ended := true));
    }
  }

  lemma PauseOrRestartLogs(s: State, id: nat, tenant: nat)
    ensures Apply(s, Pause(id, tenant)).log == s.log && Apply(s, Restart(id, tenant)).log == s.log
  {
    hide Find, StopStored, Put, Get;
    if Owned(s, id, tenant) {
      var p, r := Get(s, id).(paused := true), Get(s, id).(paused := false);
      PutLog(s, p);
      PutLog(s, r);
      StopStoredLog(Put(s, p), id);
    }
  }

  lemma StepLogs(s: State, e: Step)
    requires Accounts(s)
    ensures Logs(s, e, Apply(s, e))
  {
    hide Accounts, Ticked, Created, Pay, Put, Get, StopStored, SetRunning, Without, Find, StartAll, Forget,
         ShouldAlreadyHaveEnded, Has, PastEnd, AsksForPast;
    match e {
      case Create(_, _, _, _, _, _, _) => CreateLogs(s, e);
      case Tick(_, _, _) => TickLogs(s, e);
      case Pause(id, tenant) => PauseOrRestartLogs(s, id, tenant);
      case Restart(id, tenant) => PauseOrRestartLogs(s, id, tenant);
      case Edit(_, _, _, _, _, _, _) => EditLogs(s, e);
      case Delete(id, tenant) =>
        StopStoredLog(s, id);
        ForgetLog(StopStored(s, id), id);
      case Crash =>
      case Initialize => StartAllFrame(s, s.rows);
    }
  }

  lemma ForgetLog(s: State, id: nat)
    ensures Forget(s, id).log == s.log
  {
  }

  /** The step of a run that logged a payment. */
  ghost function LoggedAt(es: seq<Step>, i: nat): (k: nat)
    requires i < |Run(Empty, es).log|
    ensures k < |es|
  {
    var m := |es| - 1;
    if i < |Run(Empty, es[..m]).log| then LoggedAt(es[..m], i) else m
  }

  /** Over every run, a payment is tried past the end of its subscription if and only if it is the first
      one of a subscription that was asked for with an end date already past. */
  lemma {:induction false} PaidPastTheEnd(es: seq<Step>, i: nat)
    requires i < |Run(Empty, es).log|
    ensures var p, e := Run(Empty, es).log[i], es[LoggedAt(es, i)];
            && (e.Create? || e.Tick?) && p.now == e.now
            && (PastEnd(p) <==> AsksForPast(e))
  {
    hide Apply, PastEnd, AsksForPast, Accounts;
    var m := |es| - 1;
    PaymentsAreCounted(es[..m]);
    StepLogs(Run(Empty, es[..m]), es[m]);
    if i < |Run(Empty, es[..m]).log| {
      PaidPastTheEnd(es[..m], i);
    }
  }

  /** A payment that reaches the number ends the subscription: no job runs or is stored for it. */
  lemma LastPaymentEnds(s: State, id: nat, now: nat)
    requires Orderly(s) && Has(s, id) && Get(s, id).endNumber != 0 && Get(s, id).count + 1 >= Get(s, id).endNumber
    ensures var u := Pay(s, id, now, true);
            Idle(u, id) && id !in u.jobs && Has(u, id) && Get(u, id).ended
  {
    hide Find, Orderly;
    var r := Get(s, id);
    var p := s.(log := s.log + [Payment(r, now, true)]);
    HasLogged(s, Payment(r, now, true));
    OrderlyStopStored(p, id);
    StopStoredRows(p, id);
    PutGet(Forget(StopStored(p, id), id),
           r.(totalPaid := r.totalPaid + r.amount, count := r.count + 1, ended := true));
  }

  lemma {:induction false} FindUpdated(rows: seq<Sub>, r: Sub)
    requires Find(rows, r.id) >= 0
    ensures Find(rows[Find(rows, r.id) := r], r.id) == Find(rows, r.id)
  {
    if rows[0].id != r.id {
      FindUpdated(rows[1..], r);
      var i := Find(rows[1..], r.id);
      assert rows[i + 1 := r][1..] == rows[1..][i := r];
    }
  }

  lemma PutGet(s: State, r: Sub)
    requires Has(s, r.id)
    ensures Has(Put(s, r), r.id) && Get(Put(s, r), r.id) == r
  {
    hide Find;
    FindUpdated(s.rows, r);
  }

  /** A job that runs is started again after a crash if and only if its row is there and not ended;
      a job started by editing an ended subscription is not. */
  lemma CrashRecovers(s: State, id: nat)
    requires Orderly(s) && Has(s, id)
    ensures var u := Apply(Apply(s, Crash), Initialize);
            !Idle(u, id) <==> !Get(s, id).ended
  {
    hide Orderly, StartAll, Find, Idle;
    var c := Apply(s, Crash);
    GetIn(s, id);
    var r := Get(s, id);
    OrderlyStep(s, Crash);
    FreshIsQuiet(c);
    InitializeKeepsOrder(c);
    var u := Apply(c, Initialize);
    if r.ended {
      assert forall t :: t in c.rows && t.id == id ==> t.ended by {
        OnlyRow(s, r);
      }
      NotStarted(c, c.rows, id);
    } else {
      assert Started(u, r);
      StartedRuns(u, r);
    }
  }

  lemma OnlyRow(s: State, r: Sub)
    requires Orderly(s) && r in s.rows
    ensures forall t :: t in s.rows && t.id == r.id ==> t == r
  {
  }

  lemma StartedRuns(s: State, r: Sub)
    requires Started(s, r)
    ensures !Idle(s, r.id)
  {
  }

  lemma {:induction false} NotStarted(s: State, rows: seq<Sub>, id: nat)
    requires s.cron == map[] && forall t :: t in rows && t.id == id ==> t.ended
    ensures Idle(StartAll(s, rows), id)
  {
    if rows != [] {
      NotStarted(s, rows[..|rows| - 1], id);
      assert rows[|rows| - 1] in rows;
    }
  }

  /** A new subscription is paid for at once, even when its end date has passed. */
  lemma FirstPaymentIgnoresEndDate(s: State, e: Step)
    requires Orderly(s) && e.Create? && e.ok && e.endDate != 0 && e.now > e.endDate
    ensures Apply(s, e).log == s.log + [Payment(NewRow(s, e), e.now, true)]
    ensures ShouldAlreadyHaveEnded(NewRow(s, e), e.now)
  {
    hide DistinctIds, Find, StopStored, Orderly;
    var r := NewRow(s, e);
    var c := Created(s, r);
    NewRowFound(s, r);
    assert c.rows == s.rows + [r] && Has(c, r.id) && Get(c, r.id) == r;
    StopStoredLog(c.(log := c.log + [Payment(r, e.now, true)]), r.id);
  }

  lemma NewRowFound(s: State, r: Sub)
    requires Orderly(s) && r.id == s.nextId
    ensures Find(s.rows + [r], r.id) == |s.rows|
  {
    hide Find;
    var i := Find(s.rows + [r], r.id);
    assert (s.rows + [r])[|s.rows|] == r;
    assert forall k :: 0 <= k < |s.rows| ==> s.rows[k] in s.rows && s.rows[k].id != r.id;
  }
}
