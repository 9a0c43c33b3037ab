/** Which subscriptions have a running cron job, over whole runs. */
module SubscriptionJobs {
  import opened Subscriptions
  import opened SubscriptionRuns
  import opened SubscriptionPayments

  ghost predicate Stored(s: State, id: nat) {
    id in s.jobs && s.jobs[id] in s.cron
  }

  ghost predicate Runs(s: State, id: nat) {
    Stored(s, id) && s.cron[s.jobs[id]].running
  }

  /** A row that is neither ended nor paused has a running job; a paused one has its job to go on with. */
  ghost predicate Serves(s: State, r: Sub) {
    r.ended || (Stored(s, r.id) && (r.paused || Runs(s, r.id)))
  }

  ghost predicate Served(s: State) {
    forall r :: r in s.rows ==> Serves(s, r)
  }

  /** The jobs of other subscriptions are the same. */
  ghost predicate SameElsewhere(s: State, t: State, id: nat) {
    forall k :: k != id ==> (Stored(t, k) <==> Stored(s, k)) && (Runs(t, k) <==> Runs(s, k))
  }

  lemma SetRunningIs(s: State, h: nat, running: bool)
    requires Orderly(s) && h in s.cron && s.cron[h].subId in s.jobs && s.jobs[s.cron[h].subId] == h
    ensures var u := SetRunning(s, h, running);
            && SameElsewhere(s, u, s.cron[h].subId) && Stored(u, s.cron[h].subId)
            && (Runs(u, s.cron[h].subId) <==> running) && u.rows == s.rows
  {
    hide DistinctIds;
    var u := SetRunning(s, h, running);
    forall k | k != s.cron[h].subId && k in s.jobs
      ensures s.jobs[k] != h
    {
    }
  }

  lemma StopStoredIs(s: State, id: nat)
    requires Orderly(s)
    ensures var u := StopStored(s, id);
            && SameElsewhere(s, u, id) && (Stored(u, id) <==> Stored(s, id)) && u.rows == s.rows
  {
    hide Orderly, SetRunning, SameElsewhere;
    if id in s.jobs {
      StoredIs(s, id);
      SetRunningIs(s, s.jobs[id], false);
    } else {
      Nothing(s, id);
    }
  }

  lemma Nothing(s: State, id: nat)
    ensures SameElsewhere(s, s, id)
  {
  }

  lemma StoredIs(s: State, id: nat)
    requires Orderly(s) && id in s.jobs
    ensures s.jobs[id] in s.cron && s.cron[s.jobs[id]].subId == id
  {
  }

  lemma RunningIs(s: State, h: nat)
    requires Orderly(s) && h in s.cron && s.cron[h].running
    ensures s.cron[h].subId in s.jobs && s.jobs[s.cron[h].subId] == h
  {
  }

  lemma ForgetIs(s: State, id: nat)
    ensures SameElsewhere(s, Forget(s, id), id) && !Stored(Forget(s, id), id)
  {
  }

  lemma StartIs(s: State, id: nat)
    requires Orderly(s)
    ensures SameElsewhere(s, StartCronJob(s, id), id) && Runs(StartCronJob(s, id), id)
  {
    hide DistinctIds;
  }

  lemma Then(s: State, t: State, u: State, id: nat)
    requires SameElsewhere(s, t, id) && SameElsewhere(t, u, id)
    ensures SameElsewhere(s, u, id)
  {
  }

  /** Only the row of one subscription and its job have changed. */
  lemma OneChanged(s: State, t: State, r: Sub)
    requires Served(s) && DistinctIds(s.rows) && Has(s, r.id) && SameElsewhere(s, t, r.id)
    requires t.rows == Put(s, r).rows && Serves(t, r)
    ensures Served(t)
  {
    hide Find, DistinctIds, Put, Stored, Runs;
    PutRows(s, r);
    forall q | q in t.rows
      ensures Serves(t, q)
    {
      if q != r {
        assert Serves(s, q);
      }
    }
  }

  /** Only the job of one subscription has changed. */
  lemma JobChanged(s: State, t: State, id: nat)
    requires Served(s) && t.rows == s.rows && SameElsewhere(s, t, id)
    requires forall r :: r in s.rows && r.id == id ==> Serves(t, r)
    ensures Served(t)
  {
    hide Stored, Runs;
    forall q | q in t.rows
      ensures Serves(t, q)
    {
      assert Serves(s, q);
    }
  }

  lemma ServedPay(s: State, id: nat, now: nat, ok: bool)
    requires Orderly(s) && Served(s) && Has(s, id) && Runs(s, id)
    ensures Served(Pay(s, id, now, ok))
  {
    hide Find, Orderly, StopStored, Put, ShouldEndAfterThisPayment, Get, SameElsewhere, Forget;
    var r := Get(s, id);
    var p := s.(log := s.log + [Payment(r, now, ok)]);
    Logged(s, p);
    HasLogged(s, Payment(r, now, ok));
    if ok {
      var ends := ShouldEndAfterThisPayment(r, now);
      var u := r.(totalPaid := r.totalPaid + r.amount, count := r.count + 1, ended := ends);
      if ends {
        var q := StopStored(p, id);
        StopStoredIs(p, id);
        ForgetIs(q, id);
        Then(p, q, Forget(q, id), id);
        ForgetRows(q, id);
        SameRows(p, Forget(q, id), u);
        PutJobs(Forget(q, id), u);
        DistinctOf(p);
        SameJobs(p, Forget(q, id), Put(Forget(q, id), u), id);
        OneChanged(p, Put(Forget(q, id), u), u);
      } else {
        PutJobs(p, u);
        Nothing(p, id);
        SameJobs(p, p, Put(p, u), id);
        DistinctOf(p);
        OneChanged(p, Put(p, u), u);
      }
    }
  }

  lemma Logged(s: State, p: State)
    requires Served(s) && p == s.(log := p.log)
    ensures Served(p)
  {
    forall r | r in p.rows
      ensures Serves(p, r)
    {
      assert Serves(s, r);
    }
  }

  lemma DistinctOf(s: State)
    requires Orderly(s)
    ensures DistinctIds(s.rows)
  {
  }

  lemma ForgetRows(s: State, id: nat)
    ensures Forget(s, id).rows == s.rows
  {
  }

  lemma SameRows(s: State, t: State, r: Sub)
    requires s.rows == t.rows && Has(s, r.id)
    ensures Has(t, r.id) && Put(t, r).rows == Put(s, r).rows
  {
    hide Find;
  }

  lemma PutJobs(s: State, r: Sub)
    requires Has(s, r.id)
    ensures Put(s, r).cron == s.cron && Put(s, r).jobs == s.jobs
  {
    hide Find;
  }

  lemma SameJobs(s: State, t: State, u: State, id: nat)
    requires SameElsewhere(s, t, id) && u.cron == t.cron && u.jobs == t.jobs
    ensures SameElsewhere(s, u, id)
  {
    assert forall k :: (Stored(u, k) <==> Stored(t, k)) && (Runs(u, k) <==> Runs(t, k));
  }

  lemma ServedCreate(s: State, e: Step)
    requires Orderly(s) && Served(s) && e.Create?
    ensures Served(Apply(s, e))
  {
    hide Orderly, Find, Pay, StartCronJob, SameElsewhere, Serves;
    var r := NewRow(s, e);
    var b := s.(rows := s.rows + [r], nextId := s.nextId + 1);
    var c := Created(s, r);
    OrderlyCreated(s, r);
    OrderlyGrown(s, r);
    StartIs(b, r.id);
    StartRows(b, r.id);
    forall q | q in c.rows
      ensures Serves(c, q)
    {
      NewRowServed(s, c, r, q);
    }
    if Has(c, r.id) {
      ServedPay(c, r.id, e.now, e.ok);
    }
  }

  lemma StartRows(s: State, id: nat)
    ensures StartCronJob(s, id).rows == s.rows
  {
  }

  lemma OrderlyGrown(s: State, r: Sub)
    requires Orderly(s) && r.id == s.nextId
    ensures Orderly(s.(rows := s.rows + [r], nextId := s.nextId + 1))
  {
    hide DistinctIds;
    MoreDistinct(s.rows, r);
  }

  lemma NewRowServed(s: State, c: State, r: Sub, q: Sub)
    requires Orderly(s) && Served(s) && r.id == s.nextId && (q == r || q in s.rows) && Runs(c, r.id)
    requires SameElsewhere(s.(rows := s.rows + [r], nextId := s.nextId + 1), c, r.id)
    ensures Serves(c, q)
  {
    hide DistinctIds;
    if q != r {
      assert Serves(s, q) && q.id != r.id;
      var b := s.(rows := s.rows + [r], nextId := s.nextId + 1);
      assert (Stored(b, q.id) <==> Stored(s, q.id)) && (Runs(b, q.id) <==> Runs(s, q.id));
    }
  }

  lemma ServedTick(s: State, e: Step)
    requires Orderly(s) && Served(s) && e.Tick?
    ensures Served(Apply(s, e))
  {
    hide Orderly, Find, Pay, SetRunning, Forget, Put, Get, SameElsewhere, ShouldAlreadyHaveEnded, Served, Has;
    var h := e.handle;
    if h in s.cron && s.cron[h].running {
      var id := s.cron[h].subId;
      RunningIs(s, h);
      if !Has(s, id) {
        TickGone(s, h);
      } else if Get(s, id).paused {
        TickPaused(s, h);
      } else if ShouldAlreadyHaveEnded(Get(s, id), e.now) {
        TickEnded(s, h);
      } else {
        ServedPay(s, id, e.now, e.ok);
      }
    }
  }

  /** Forgetting a job before it stops itself. */
  lemma ForgetAndStop(s: State, h: nat)
    requires Orderly(s) && h in s.cron && s.cron[h].running
    ensures var id := s.cron[h].subId;
            var u := SetRunning(Forget(s, id), h, false);
            SameElsewhere(s, u, id) && u.rows == s.rows
  {
    hide DistinctIds;
    var id := s.cron[h].subId;
    RunningIs(s, h);
    forall k | k != id && k in s.jobs
      ensures s.jobs[k] != h
    {
    }
  }

  lemma TickGone(s: State, h: nat)
    requires Orderly(s) && Served(s) && h in s.cron && s.cron[h].running && !Has(s, s.cron[h].subId)
    ensures Served(SetRunning(Forget(s, s.cron[h].subId), h, false))
  {
    hide Orderly, SetRunning, Forget, SameElsewhere, Serves, Find;
    ForgetAndStop(s, h);
    JobChanged(s, SetRunning(Forget(s, s.cron[h].subId), h, false), s.cron[h].subId);
  }

  lemma TickPaused(s: State, h: nat)
    requires Orderly(s) && Served(s) && h in s.cron && s.cron[h].running
    requires Has(s, s.cron[h].subId) && Get(s, s.cron[h].subId).paused
    ensures Served(SetRunning(s, h, false))
  {
    hide Orderly, SetRunning, SameElsewhere, Find;
    RunningIs(s, h);
    SetRunningIs(s, h, false);
    GetIn(s, s.cron[h].subId);
    OnlyRow(s, Get(s, s.cron[h].subId));
    JobChanged(s, SetRunning(s, h, false), s.cron[h].subId);
  }

  lemma TickEnded(s: State, h: nat)
    requires Orderly(s) && Served(s) && h in s.cron && s.cron[h].running && Has(s, s.cron[h].subId)
    ensures var id := s.cron[h].subId;
            Served(SetRunning(Forget(Put(s, Get(s, id).(ended := true)), id), h, false))
  {
    hide Orderly, SetRunning, Forget, SameElsewhere, Find, Put, Get;
    var id := s.cron[h].subId;
    var r := Get(s, id).(ended := true);
    var p := Put(s, r);
    var u := SetRunning(Forget(p, id), h, false);
    OrderlyPut(s, r);
    PutJobs(s, r);
    ForgetAndStop(p, h);
    Nothing(s, id);
    SameJobs(s, s, p, id);
    Then(s, p, u, id);
    DistinctOf(s);
    OneChanged(s, u, r);
  }

  lemma ServedPause(s: State, id: nat, tenant: nat)
    requires Orderly(s) && Served(s)
    ensures Served(Apply(s, Pause(id, tenant)))
  {
    hide Orderly, StopStored, Get, Put, Find, SameElsewhere, Stored, Runs;
    if Owned(s, id, tenant) {
      var r := Get(s, id).(paused := true);
      var p := Put(s, r);
      OrderlyPut(s, r);
      PutJobs(s, r);
      StopStoredIs(p, id);
      Nothing(s, id);
      SameJobs(s, s, p, id);
      Then(s, p, StopStored(p, id), id);
      DistinctOf(s);
      GetIn(s, id);
      assert Serves(s, Get(s, id));
      PutStored(s, r);
      OneChanged(s, StopStored(p, id), r);
    }
  }

  lemma PutStored(s: State, r: Sub)
    requires Has(s, r.id)
    ensures forall k :: (Stored(Put(s, r), k) <==> Stored(s, k)) && (Runs(Put(s, r), k) <==> Runs(s, k))
  {
    hide Find;
    PutJobs(s, r);
  }

  lemma ServedRestart(s: State, id: nat, tenant: nat)
    requires Orderly(s) && Served(s)
    ensures Served(Apply(s, Restart(id, tenant)))
  {
    hide Orderly, SetRunning, Get, Put, Find, SameElsewhere;
    if Owned(s, id, tenant) {
      var r := Get(s, id).(paused := false);
      var p := Put(s, r);
      OrderlyPut(s, r);
      PutJobs(s, r);
      Nothing(s, id);
      SameJobs(s, s, p, id);
      DistinctOf(s);
      GetIn(s, id);
      assert Serves(s, Get(s, id));
      if id in s.jobs {
        StoredIs(p, id);
        SetRunningIs(p, s.jobs[id], true);
        Then(s, p, SetRunning(p, s.jobs[id], true), id);
        OneChanged(s, SetRunning(p, s.jobs[id], true), r);
      } else {
        OneChanged(s, p, r);
      }
    }
  }

  lemma ServedEdit(s: State, e: Step)
    requires Orderly(s) && Served(s) && e.Edit?
    ensures Served(Apply(s, e))
  {
    hide Orderly, Find, StopStored, ShouldAlreadyHaveEnded, Put, StartCronJob, Forget, Get, SameElsewhere, Edited;
    if e.valid && Has(s, e.id) {
      var u := Edited(Get(s, e.id), e);
      var t := StopStored(s, e.id);
      OrderlyStopStored(s, e.id);
      StopStoredIs(s, e.id);
      DistinctOf(s);
      if ShouldAlreadyHaveEnded(u, e.now) {
        EditEnds(s, t, u.(ended := true));
      } else {
        EditStarts(s, t, u);
      }
    }
  }

  lemma EditEnds(s: State, t: State, r: Sub)
    requires Served(s) && DistinctIds(s.rows) && Has(s, r.id) && t.rows == s.rows && SameElsewhere(s, t, r.id) && r.ended
    ensures Has(t, r.id) && Served(Forget(Put(t, r), r.id))
  {
    hide Find, Put, Forget, SameElsewhere;
    SameRows(s, t, r);
    PutJobs(t, r);
    SameJobs(s, t, Put(t, r), r.id);
    ForgetIs(Put(t, r), r.id);
    Then(s, Put(t, r), Forget(Put(t, r), r.id), r.id);
    ForgetRows(Put(t, r), r.id);
    OneChanged(s, Forget(Put(t, r), r.id), r);
  }

  lemma EditStarts(s: State, t: State, r: Sub)
    requires Served(s) && DistinctIds(s.rows) && Has(s, r.id) && t.rows == s.rows && SameElsewhere(s, t, r.id)
    requires Orderly(t)
    ensures Has(t, r.id) && Served(StartCronJob(Put(t, r), r.id))
  {
    hide Find, Put, StartCronJob, SameElsewhere, Orderly;
    SameRows(s, t, r);
    PutJobs(t, r);
    OrderlyPut(t, r);
    SameJobs(s, t, Put(t, r), r.id);
    StartIs(Put(t, r), r.id);
    Then(s, Put(t, r), StartCronJob(Put(t, r), r.id), r.id);
    StartRows(Put(t, r), r.id);
    OneChanged(s, StartCronJob(Put(t, r), r.id), r);
  }

  // ---------------------------------------------------------------- requests to delete

  /** A request to delete a subscription of somebody else that has not ended. */
  predicate ForeignDelete(s: State, e: Step) {
    e.Delete? && Has(s, e.id) && Get(s, e.id).tenant != e.tenant && !Get(s, e.id).ended
  }

  /** Deleting stops the job whoever asks, but destroys the row only for its owner. */
  lemma ServedDelete(s: State, id: nat, tenant: nat)
    requires Orderly(s) && Served(s)
    ensures Served(Apply(s, Delete(id, tenant))) <==> !ForeignDelete(s, Delete(id, tenant))
  {
    hide Orderly, StopStored, Forget, Without, Find, SameElsewhere;
    var f := Forget(StopStored(s, id), id);
    var r := if id in s.jobs then f else s;
    var u := Apply(s, Delete(id, tenant));
    StopStoredIs(s, id);
    ForgetIs(StopStored(s, id), id);
    ForgetRows(StopStored(s, id), id);
    Then(s, StopStored(s, id), f, id);
    Nothing(s, id);
    if Has(s, id) {
      GetIn(s, id);
      OnlyRow(s, Get(s, id));
    }
    hide Get;
    forall q | q in u.rows
      ensures Serves(u, q) <==> q.id != id || q.ended
    {
      DeleteServes(s, r, u, q, id);
    }
    NoRowOf(s, id);
  }

  lemma NoRowOf(s: State, id: nat)
    ensures !Has(s, id) ==> forall q :: q in s.rows ==> q.id != id
  {
  }

  lemma DeleteServes(s: State, r: State, u: State, q: Sub, id: nat)
    requires Served(s) && q in s.rows && SameElsewhere(s, r, id) && !Stored(r, id)
    requires u.jobs == r.jobs && u.cron == r.cron
    ensures Serves(u, q) <==> q.id != id || q.ended
  {
    assert Serves(s, q);
    assert forall k :: (Stored(u, k) <==> Stored(r, k)) && (Runs(u, k) <==> Runs(r, k));
  }

  /** A step keeps a running job or, while paused, a stored one for every row that has not ended, if and
      only if it does not delete the subscription of another tenant. */
  lemma ServedStep(s: State, e: Step)
    requires Orderly(s) && Served(s) && !e.Initialize? && !e.Crash?
    ensures Served(Apply(s, e)) <==> !ForeignDelete(s, e)
  {
    hide Orderly, Served, Apply, Has, Get;
    match e {
      case Create(_, _, _, _, _, _, _) => ServedCreate(s, e);
      case Tick(_, _, _) => ServedTick(s, e);
      case Pause(id, tenant) => ServedPause(s, id, tenant);
      case Restart(id, tenant) => ServedRestart(s, id, tenant);
      case Edit(_, _, _, _, _, _, _) => ServedEdit(s, e);
      case Delete(id, tenant) => ServedDelete(s, id, tenant);
    }
  }

  lemma ServedInitialize(s: State)
    requires Orderly(s)
    ensures Served(Apply(s, Initialize))
  {
    hide Orderly, StartAll;
    InitializeKeepsOrder(s);
    StartAllFrame(s, s.rows);
    forall r | r in s.rows
      ensures Serves(Apply(s, Initialize), r)
    {
    }
  }

  /** A process starts by initialising, and after a crash a process starts. */
  ghost predicate Boots(es: seq<Step>) {
    BootFirst(es) && forall k :: 0 < k < |es| && es[k - 1].Crash? ==> es[k].Initialize?
  }

  /** At all times while the process is up, subscriptions that have not ended have their job. */
  ghost predicate AlwaysServed(es: seq<Step>) {
    es == [] || (AlwaysServed(es[..|es| - 1]) && (es[|es| - 1].Crash? || Served(Run(Empty, es))))
  }

  ghost predicate NoForeignDelete(es: seq<Step>) {
    es == [] ||
    (NoForeignDelete(es[..|es| - 1]) && !ForeignDelete(Run(Empty, es[..|es| - 1]), es[|es| - 1]))
  }

  /** Over every run, each row that has not ended has its job running or, while it is paused, stored,
      if and only if no request deletes the subscription of another tenant. */
  lemma {:induction false} JobsRun(es: seq<Step>)
    requires Boots(es)
    ensures AlwaysServed(es) <==> NoForeignDelete(es)
  {
    hide Apply, Orderly, Served, ForeignDelete;
    if es != [] {
      var k := |es| - 1;
      var s := Run(Empty, es[..k]);
      JobsRun(es[..k]);
      RunningJobsAreStored(es[..k]);
      if es[k].Initialize? {
        ServedInitialize(s);
        OnlyDeletes(s, es[k]);
      } else if es[k].Crash? {
        OnlyDeletes(s, es[k]);
      } else if AlwaysServed(es[..k]) {
        LastServed(es[..k]);
        ServedStep(s, es[k]);
      }
    }
  }

  lemma OnlyDeletes(s: State, e: Step)
    requires !e.Delete?
    ensures !ForeignDelete(s, e)
  {
  }

  lemma LastServed(es: seq<Step>)
    requires AlwaysServed(es) && (es == [] || !es[|es| - 1].Crash?)
    ensures Served(Run(Empty, es))
  {
    hide Apply;
  }

  // ---------------------------------------------------------------- runs that go wrong

  lemma RunTwo(a: Step, b: Step)
    ensures Run(Empty, [a, b]) == Apply(Apply(Empty, a), b)
  {
    hide Apply;
    assert [a, b][..1] == [a] && [a][..0] == [];
    assert Run(Empty, [a]) == Apply(Run(Empty, []), a);
  }

  lemma FirstCreated(e: Step)
    requires e.Create? && e.ok && e.endDate == 0
    ensures var s := Apply(Empty, e);
            && s.rows == [NewRow(Empty, e).(totalPaid := e.amount, count := 1, ended := e.endNumber == 1)]
            && s.cron == map[0 := Job(0, e.endNumber != 1)] && s.handles == 1 && s.nextId == 1
            && s.jobs == if e.endNumber == 1 then map[] else map[0 := 0]
  {
  }

  /** Initialising after the first subscription was made starts a second job for it. */
  lemma TwoJobs()
    ensures var s := Run(Empty, [Create(1, 10, 1000, 0, 0, 0, true), Initialize]);
            s.cron == map[0 := Job(0, true), 1 := Job(0, true)]
  {
    var a := Create(1, 10, 1000, 0, 0, 0, true);
    var s := Apply(Empty, a);
    FirstCreated(a);
    RunTwo(a, Initialize);
    assert s.rows[..0] == [];
    assert StartAll(s, s.rows[..0]) == s;
  }

  /** A subscription that is edited after its last payment runs again as an ended row, until a restart. */
  lemma EditedIsLost()
    ensures var s := Run(Empty, [Create(1, 10, 1000, 0, 1, 0, true), Edit(0, true, 0, 1000, 0, 5, 0)]);
            && Orderly(s) && Has(s, 0) && Get(s, 0).ended && !Get(s, 0).paused && !Idle(s, 0)
            && !ShouldAlreadyHaveEnded(Get(s, 0), 0) && Idle(Apply(Apply(s, Crash), Initialize), 0)
  {
    var a, b := Create(1, 10, 1000, 0, 1, 0, true), Edit(0, true, 0, 1000, 0, 5, 0);
    FirstCreated(a);
    RunTwo(a, b);
    var s := Apply(Apply(Empty, a), b);
    assert s.cron[1] == Job(0, true);
    RunningJobsAreStored([a, b]);
    hide Apply;
    CrashRecovers(s, 0);
  }

  /** Another tenant's request leaves the subscription in place without its job. */
  lemma ForeignDeleteStops()
    ensures var s := Run(Empty, [Create(1, 10, 1000, 0, 0, 0, true), Delete(0, 2)]);
            Has(s, 0) && !Get(s, 0).ended && !Get(s, 0).paused && Idle(s, 0) && s.jobs == map[]
  {
    var a, b := Create(1, 10, 1000, 0, 0, 0, true), Delete(0, 2);
    FirstCreated(a);
    RunTwo(a, b);
    var s := Apply(Empty, a);
    assert s.rows[..0] == [];
    assert Without(s.rows, 0, 2) == s.rows;
  }
}
