/** What holds of subscriptions and their cron jobs over whole runs. */
module SubscriptionRuns {
  import opened Subscriptions

  ghost predicate DistinctIds(rows: seq<Sub>) {
    forall i, j :: 0 <= i < j < |rows| ==> rows[i].id != rows[j].id
  }

  /** Every running cron job is the one stored for its subscription. */
  ghost predicate RunningIsStored(s: State) {
    forall h :: h in s.cron && s.cron[h].running ==> s.cron[h].subId in s.jobs && s.jobs[s.cron[h].subId] == h
  }

  ghost predicate StoredExists(s: State) {
    forall id :: id in s.jobs ==> s.jobs[id] in s.cron && s.cron[s.jobs[id]].subId == id
  }

  ghost predicate Fresh(s: State) {
    && (forall r :: r in s.rows ==> r.id < s.nextId)
    && (forall h :: h in s.cron ==> h < s.handles && s.cron[h].subId < s.nextId)
  }

  ghost predicate Orderly(s: State) {
    DistinctIds(s.rows) && Fresh(s) && StoredExists(s) && RunningIsStored(s)
  }

  /** No job runs for a subscription. */
  ghost predicate Idle(s: State, id: nat) {
    forall h :: h in s.cron && s.cron[h].subId == id ==> !s.cron[h].running
  }

  lemma OrderlyPut(s: State, r: Sub)
    requires Orderly(s) && Has(s, r.id)
    ensures Orderly(Put(s, r))
  {
    hide Find;
    var u := Put(s, r);
    forall t | t in u.rows
      ensures t.id < u.nextId
    {
      assert t == r || t in s.rows;
      assert s.rows[Find(s.rows, r.id)] in s.rows;
    }
  }

  lemma OrderlyStop(s: State, h: nat)
    requires Orderly(s)
    ensures Orderly(SetRunning(s, h, false))
  {
    hide DistinctIds;
  }

  lemma OrderlyStopStored(s: State, id: nat)
    requires Orderly(s)
    ensures Orderly(StopStored(s, id)) && Idle(StopStored(s, id), id)
  {
    hide DistinctIds;
  }

  lemma OrderlyForget(s: State, id: nat)
    requires Orderly(s) && Idle(s, id)
    ensures Orderly(Forget(s, id))
  {
    hide DistinctIds;
  }

  lemma OrderlyStart(s: State, id: nat)
    requires Orderly(s) && Idle(s, id) && id < s.nextId
    ensures Orderly(StartCronJob(s, id))
  {
    hide DistinctIds;
  }

  lemma IdlePut(s: State, r: Sub, id: nat)
    requires Has(s, r.id)
    ensures Idle(s, id) <==> Idle(Put(s, r), id)
  {
    hide Find;
  }

  lemma HasLogged(s: State, p: Payment)
    requires Orderly(s)
    ensures Orderly(s.(log := s.log + [p]))
  {
    hide DistinctIds;
  }

  lemma OrderlyPay(s: State, id: nat, now: nat, ok: bool)
    requires Orderly(s) && Has(s, id)
    ensures Orderly(Pay(s, id, now, ok))
  {
    hide Orderly, Idle, Find, StopStored, Put, ShouldEndAfterThisPayment, Get;
    var r := Get(s, id);
    var p := s.(log := s.log + [Payment(r, now, ok)]);
    HasLogged(s, Payment(r, now, ok));
    if ok {
      var u := r.(totalPaid := r.totalPaid + r.amount, count := r.count + 1,
                  ended := ShouldEndAfterThisPayment(r, now));
      if ShouldEndAfterThisPayment(r, now) {
        OrderlyStopStored(p, id);
        OrderlyForget(StopStored(p, id), id);
        StopStoredRows(p, id);
        OrderlyPut(Forget(StopStored(p, id), id), u);
      } else {
        OrderlyPut(p, u);
      }
    }
  }

  lemma StopStoredRows(s: State, id: nat)
    ensures StopStored(s, id).rows == s.rows
  {
  }

  lemma {:induction false} WithoutDistinct(rows: seq<Sub>, id: nat, tenant: nat)
    requires DistinctIds(rows)
    ensures DistinctIds(Without(rows, id, tenant))
  {
    hide DistinctIds;
    NoRows();
    if rows != [] {
      var m := |rows| - 1;
      LastDistinct(rows);
      WithoutDistinct(rows[..m], id, tenant);
      MoreDistinct(Without(rows[..m], id, tenant), rows[m]);
    }
  }

  lemma NoRows()
    ensures DistinctIds([])
  {
  }

  lemma LastDistinct(rows: seq<Sub>)
    requires DistinctIds(rows) && rows != []
    ensures var h, t := rows[..|rows| - 1], rows[|rows| - 1];
            DistinctIds(h) && forall u :: u in h ==> u.id != t.id
  {
  }

  lemma MoreDistinct(rows: seq<Sub>, t: Sub)
    ensures DistinctIds(rows) && (forall u :: u in rows ==> u.id != t.id) ==> DistinctIds(rows + [t])
  {
  }

  lemma OrderlyDestroy(s: State, id: nat, tenant: nat)
    requires Orderly(s)
    ensures Orderly(s.(rows := Without(s.rows, id, tenant)))
  {
    hide DistinctIds, Without;
    WithoutDistinct(s.rows, id, tenant);
  }

  lemma OrderlyCreated(s: State, r: Sub)
    requires Orderly(s) && r.id == s.nextId
    ensures Orderly(Created(s, r))
  {
    hide DistinctIds, StartCronJob;
    MoreDistinct(s.rows, r);
    OrderlyStart(s.(rows := s.rows + [r], nextId := s.nextId + 1), r.id);
  }

  /** The stored job of a subscription runs again. */
  lemma OrderlyRestart(s: State, id: nat)
    requires Orderly(s) && id in s.jobs
    ensures Orderly(SetRunning(s, s.jobs[id], true))
  {
    hide DistinctIds;
  }

  lemma OrderlyTick(s: State, h: nat, now: nat, ok: bool)
    requires Orderly(s)
    ensures Orderly(Ticked(s, h, now, ok))
  {
    hide Find, DistinctIds, Pay, ShouldAlreadyHaveEnded, Has, Get, Put;
    if h in s.cron && s.cron[h].running {
      var id := s.cron[h].subId;
      OrderlyEnd(s, h);
      OrderlyStop(s, h);
      if Has(s, id) {
        OrderlyPay(s, id, now, ok);
        var u := Get(s, id).(ended := true);
        OrderlyPut(s, u);
        PutFrame(s, u);
        OrderlyEnd(Put(s, u), h);
      }
    }
  }

  lemma PutFrame(s: State, r: Sub)
    requires Has(s, r.id)
    ensures Put(s, r).cron == s.cron && Put(s, r).jobs == s.jobs
  {
    hide Find;
  }

  lemma OrderlyEnd(s: State, h: nat)
    requires Orderly(s) && h in s.cron && s.cron[h].running
    ensures Orderly(SetRunning(Forget(s, s.cron[h].subId), h, false))
  {
    hide DistinctIds;
  }

  lemma OrderlyEdit(s: State, e: Step)
    requires Orderly(s) && e.Edit?
    ensures Orderly(Apply(s, e))
  {
    hide Orderly, Idle, Find, StopStored, ShouldAlreadyHaveEnded, Put, StartCronJob, Forget, Get;
    if Has(s, e.id) {
      var u := Edited(Get(s, e.id), e);
      var r := StopStored(s, e.id);
      OrderlyStopStored(s, e.id);
      StopStoredRows(s, e.id);
      if ShouldAlreadyHaveEnded(u, e.now) {
        OrderlyPut(r, u.(ended := true));
        IdlePut(r, u.(ended := true), e.id);
        OrderlyForget(Put(r, u.(ended := true)), e.id);
      } else {
        OrderlyPut(r, u);
        IdlePut(r, u, e.id);
        HasBelow(r, e.id);
        PutNumbers(r, u);
        OrderlyStart(Put(r, u), e.id);
      }
    }
  }

  lemma PutNumbers(s: State, r: Sub)
    requires Has(s, r.id)
    ensures Put(s, r).nextId == s.nextId
  {
  }

  lemma HasBelow(s: State, id: nat)
    requires Orderly(s) && Has(s, id)
    ensures id < s.nextId
  {
    hide Find;
    assert s.rows[Find(s.rows, id)] in s.rows;
  }

  lemma OrderlyDelete(s: State, id: nat, tenant: nat)
    requires Orderly(s)
    ensures Orderly(Apply(s, Delete(id, tenant)))
  {
    hide Orderly, Idle, StopStored, Forget, Without;
    var r := if id in s.jobs then Forget(StopStored(s, id), id) else s;
    if id in s.jobs {
      OrderlyStopStored(s, id);
      OrderlyForget(StopStored(s, id), id);
    }
    DeleteRows(s, id);
    OrderlyDestroy(r, id, tenant);
  }

  lemma DeleteRows(s: State, id: nat)
    ensures Forget(StopStored(s, id), id).rows == s.rows
  {
  }

  lemma OrderlyPause(s: State, id: nat, tenant: nat)
    requires Orderly(s)
    ensures Orderly(Apply(s, Pause(id, tenant)))
    ensures Owned(s, id, tenant) ==> Idle(Apply(s, Pause(id, tenant)), id)
  {
    hide Orderly, Idle, StopStored, Get, Put, Find;
    if Owned(s, id, tenant) {
      OrderlyPut(s, Get(s, id).(paused := true));
      OrderlyStopStored(Put(s, Get(s, id).(paused := true)), id);
    }
  }

  lemma OrderlyResume(s: State, id: nat, tenant: nat)
    requires Orderly(s)
    ensures Orderly(Apply(s, Restart(id, tenant)))
  {
    hide Orderly, SetRunning, Get, Put, Find;
    if Owned(s, id, tenant) {
      var u := Get(s, id).(paused := false);
      OrderlyPut(s, u);
      PutFrame(s, u);
      if id in s.jobs {
        OrderlyRestart(Put(s, u), id);
      }
    }
  }

  lemma OrderlyCreate(s: State, e: Step)
    requires Orderly(s) && e.Create?
    ensures Orderly(Apply(s, e))
  {
    hide Orderly, Find, Created, Pay;
    var r := NewRow(s, e);
    OrderlyCreated(s, r);
    if Has(Created(s, r), r.id) {
      OrderlyPay(Created(s, r), r.id, e.now, e.ok);
    }
  }

  lemma OrderlyCrash(s: State)
    requires Orderly(s)
    ensures Orderly(Apply(s, Crash))
  {
    hide DistinctIds;
  }

  /** Every step but initialisation keeps running jobs stored. */
  lemma OrderlyStep(s: State, e: Step)
    requires Orderly(s) && !e.Initialize?
    ensures Orderly(Apply(s, e))
  {
    hide Orderly, Ticked, Created, Pay, Put, Get, StopStored, SetRunning, StartCronJob, Forget, Without, Find,
         ShouldAlreadyHaveEnded, Has;
    match e {
      case Create(_, _, _, _, _, _, _) => OrderlyCreate(s, e);
      case Tick(h, now, ok) => OrderlyTick(s, h, now, ok);
      case Pause(id, tenant) => OrderlyPause(s, id, tenant);
      case Restart(id, tenant) => OrderlyResume(s, id, tenant);
      case Edit(_, _, _, _, _, _, _) => OrderlyEdit(s, e);
      case Delete(id, tenant) => OrderlyDelete(s, id, tenant);
      case Crash => OrderlyCrash(s);
    }
  }

  // ---------------------------------------------------------------- initialisation

  /** No job runs yet for a row that initialisation starts one for. */
  ghost predicate Quiet(s: State) {
    forall r :: r in s.rows && !r.ended ==> Idle(s, r.id)
  }

  lemma {:induction false} StartAllFrame(s: State, rows: seq<Sub>)
    ensures var u := StartAll(s, rows);
            && u == s.(cron := u.cron, jobs := u.jobs, handles := u.handles) && u.handles >= s.handles
            && (forall h :: h in s.cron && h < s.handles ==> h in u.cron && u.cron[h] == s.cron[h])
  {
    if rows != [] {
      StartAllFrame(s, rows[..|rows| - 1]);
    }
  }

  /** The rows that initialisation has still to come to are idle. */
  ghost predicate Ahead(s: State, rows: seq<Sub>, k: nat)
    requires k <= |rows|
  {
    forall i :: k <= i < |rows| && !rows[i].ended ==> Idle(s, rows[i].id)
  }

  lemma StartAhead(s: State, rows: seq<Sub>, k: nat)
    requires k < |rows| && DistinctIds(rows) && Ahead(s, rows, k)
    ensures Ahead(if rows[k].ended then s else StartCronJob(s, rows[k].id), rows, k + 1)
  {
  }

  lemma {:induction false} StartAllOrderly(s: State, rows: seq<Sub>, k: nat)
    requires Orderly(s) && k <= |rows| && DistinctIds(rows) && Ahead(s, rows, 0)
    requires forall r :: r in rows ==> r.id < s.nextId
    ensures Orderly(StartAll(s, rows[..k])) && Ahead(StartAll(s, rows[..k]), rows, k)
  {
    hide Orderly, Idle, DistinctIds, StartCronJob;
    if k == 0 {
      assert rows[..0] == [];
    } else {
      StartAllOrderly(s, rows, k - 1);
      assert rows[..k][..k - 1] == rows[..k - 1];
      var r := StartAll(s, rows[..k - 1]);
      StartAllFrame(s, rows[..k - 1]);
      StartAhead(r, rows, k - 1);
      if !rows[k - 1].ended {
        assert rows[k - 1] in rows;
        OrderlyStart(r, rows[k - 1].id);
      }
    }
  }

  /** Every row that has not ended has its job running and stored after initialisation. */
  ghost predicate Started(s: State, r: Sub) {
    r.id in s.jobs && s.jobs[r.id] in s.cron && s.cron[s.jobs[r.id]] == Job(r.id, true)
  }

  lemma StartedStep(s: State, r: Sub, id: nat)
    requires Started(s, r) && s.handles !in s.cron && r.id != id
    ensures Started(StartCronJob(s, id), r)
  {
  }

  lemma {:induction false} StartAllStarted(s: State, rows: seq<Sub>, k: nat)
    requires DistinctIds(rows) && k <= |rows| && forall h :: h in s.cron ==> h < s.handles
    ensures var u := StartAll(s, rows[..k]);
            && (forall h :: h in u.cron ==> h < u.handles)
            && (forall i :: 0 <= i < k && !rows[i].ended ==> Started(u, rows[i]) && u.jobs[rows[i].id] >= s.handles)
  {
    hide DistinctIds;
    if k > 0 {
      StartAllStarted(s, rows, k - 1);
      assert rows[..k][..k - 1] == rows[..k - 1];
      var r := StartAll(s, rows[..k - 1]);
      StartAllFrame(s, rows[..k - 1]);
      if !rows[k - 1].ended {
        forall i | 0 <= i < k - 1 && !rows[i].ended
          ensures Started(StartCronJob(r, rows[k - 1].id), rows[i])
        {
          DifferentIds(rows, i, k - 1);
          StartedStep(r, rows[i], rows[k - 1].id);
        }
        forall i | 0 <= i < k - 1
          ensures rows[i].id != rows[k - 1].id
        {
          DifferentIds(rows, i, k - 1);
        }
      }
    }
  }

  lemma DifferentIds(rows: seq<Sub>, i: nat, j: nat)
    requires DistinctIds(rows) && i < j < |rows|
    ensures rows[i].id != rows[j].id
  {
  }

  lemma QuietAhead(s: State)
    requires Orderly(s) && Quiet(s)
    ensures Ahead(s, s.rows, 0) && DistinctIds(s.rows) && forall r :: r in s.rows ==> r.id < s.nextId
  {
    hide Idle;
  }

  /** Initialisation keeps running jobs stored if and only if it finds no job already running for a
      row it starts one for; so it has to come before the first subscription is made. */
  lemma InitializeKeepsOrder(s: State)
    requires Orderly(s)
    ensures RunningIsStored(Apply(s, Initialize)) <==> Quiet(s)
    ensures forall r :: r in s.rows && !r.ended ==> Started(Apply(s, Initialize), r)
  {
    hide StartAll, Idle, StartCronJob;
    var u := Apply(s, Initialize);
    assert s.rows[..|s.rows|] == s.rows;
    StartAllStarted(s, s.rows, |s.rows|);
    StartAllFrame(s, s.rows);
    if Quiet(s) {
      QuietAhead(s);
      StartAllOrderly(s, s.rows, |s.rows|);
    } else {
      var r :| r in s.rows && !r.ended && !Idle(s, r.id);
      Orphan(s, r);
    }
  }

  lemma Orphan(s: State, r: Sub)
    requires Orderly(s) && r in s.rows && !r.ended && !Idle(s, r.id)
    requires var u := StartAll(s, s.rows);
             && (forall h :: h in s.cron && h < s.handles ==> h in u.cron && u.cron[h] == s.cron[h])
             && Started(u, r) && u.jobs[r.id] >= s.handles
    ensures !RunningIsStored(StartAll(s, s.rows))
  {
    hide StartAll, DistinctIds;
    var h :| h in s.cron && s.cron[h].subId == r.id && s.cron[h].running;
  }

  /** Initialisation runs only in a process that has just started. */
  ghost predicate BootFirst(es: seq<Step>) {
    forall k :: 0 <= k < |es| && es[k].Initialize? ==> k == 0 || es[k - 1].Crash?
  }

  lemma FreshIsQuiet(s: State)
    requires s.cron == map[]
    ensures Quiet(s)
  {
  }

  lemma InitializeOrderly(s: State)
    requires Orderly(s) && Quiet(s)
    ensures Orderly(Apply(s, Initialize))
  {
    hide Orderly, StartAll, Idle, DistinctIds;
    assert s.rows[..|s.rows|] == s.rows;
    QuietAhead(s);
    StartAllOrderly(s, s.rows, |s.rows|);
  }

  /** Over every run that initialises first, every running cron job is the one stored for its
      subscription; so no subscription has two. */
  lemma {:induction false} RunningJobsAreStored(es: seq<Step>)
    requires BootFirst(es)
    ensures Orderly(Run(Empty, es))
  {
    hide Apply, Orderly;
    if es == [] {
      EmptyOrderly();
    } else {
      var k := |es| - 1;
      RunningJobsAreStored(es[..k]);
      var s := Run(Empty, es[..k]);
      if es[k].Initialize? {
        if k > 0 {
          assert es[..k][..k - 1] == es[..k - 1];
          CrashClears(Run(Empty, es[..k - 1]));
        }
        FreshIsQuiet(s);
        InitializeOrderly(s);
      } else {
        OrderlyStep(s, es[k]);
      }
    }
  }

  lemma CrashClears(s: State)
    ensures Apply(s, Crash).cron == map[]
  {
  }

  lemma EmptyOrderly()
    ensures Orderly(Empty)
  {
  }

  lemma OneJobEach(s: State, h: nat, k: nat)
    requires Orderly(s) && h in s.cron && k in s.cron && s.cron[h].running && s.cron[k].running
    requires s.cron[h].subId == s.cron[k].subId
    ensures h == k
  {
    hide DistinctIds;
  }
}
