/** Recurring payments: the rows of subscriptions and the cron jobs that run them. */
module Subscriptions {
  import opened Options

  /** A row. endDate and endNumber are 0 when there is no such end; interval is in milliseconds. */
  datatype Sub = Sub(id: nat, tenant: nat, amount: nat, interval: nat, endDate: nat, endNumber: nat,
                     count: nat, totalPaid: nat, ended: bool, paused: bool)

  datatype Job = Job(subId: nat, running: bool)

  /** A payment that was tried, with the row as it was and the time. */
  datatype Payment = Payment(sub: Sub, now: nat, ok: bool)

  /** jobs maps subscriptions to the cron jobs stored for them; cron is every cron job of the process. */
  datatype State = State(rows: seq<Sub>, nextId: nat, cron: map<nat, Job>, jobs: map<nat, nat>,
                         handles: nat, log: seq<Payment>)

  const Empty := State([], 0, map[], map[], 0, [])

  function Find(rows: seq<Sub>, id: nat): (i: int)
    ensures -1 <= i < |rows|
    ensures i >= 0 ==> rows[i].id == id
    ensures i < 0 ==> forall k :: 0 <= k < |rows| ==> rows[k].id != id
  {
    if rows == [] then -1
    else if rows[0].id == id then 0
    else
      var i := Find(rows[1..], id);
      if i < 0 then -1 else i + 1
  }

  predicate Has(s: State, id: nat) {
    Find(s.rows, id) >= 0
  }

  function Get(s: State, id: nat): (r: Sub)
    requires Has(s, id)
    ensures r.id == id
  {
    s.rows[Find(s.rows, id)]
  }

  function Put(s: State, r: Sub): State
    requires Has(s, r.id)
  {
    s.(rows := s.rows[Find(s.rows, r.id) := r])
  }

  function Without(rows: seq<Sub>, id: nat, tenant: nat): (r: seq<Sub>)
    ensures forall t :: t in r <==> t in rows && !(t.id == id && t.tenant == tenant)
  {
    if rows == [] then []
    else
      var m := |rows| - 1;
      var r := Without(rows[..m], id, tenant);
      assert rows == rows[..m] + [rows[m]];
      if rows[m].id == id && rows[m].tenant == tenant then r else r + [rows[m]]
  }

  // ---------------------------------------------------------------- cron jobs

  function SetRunning(s: State, h: nat, running: bool): State {
    if h in s.cron then s.(cron := s.cron[h := s.cron[h].(running := running)]) else s
  }

  /** Stops the stored job of a subscription, if there is one. */
  function StopStored(s: State, id: nat): State {
    if id in s.jobs then SetRunning(s, s.jobs[id], false) else s
  }

  function Forget(s: State, id: nat): State {
    s.(jobs := s.jobs - {id})
  }

  function StartCronJob(s: State, id: nat): State {
    s.(cron := s.cron[s.handles := Job(id, true)], jobs := s.jobs[id := s.handles], handles := s.handles + 1)
  }

  function StartAll(s: State, rows: seq<Sub>): State {
    if rows == [] then s
    else
      var r := StartAll(s, rows[..|rows| - 1]);
      if rows[|rows| - 1].ended then r else StartCronJob(r, rows[|rows| - 1].id)
  }

  // ---------------------------------------------------------------- the end of a subscription

  predicate ShouldAlreadyHaveEnded(r: Sub, now: nat) {
    (r.endDate != 0 && now > r.endDate) || (r.endNumber != 0 && r.count >= r.endNumber)
  }

  predicate ShouldEndAfterThisPayment(r: Sub, now: nat) {
    (r.endDate != 0 && now + r.interval > r.endDate) || (r.endNumber != 0 && r.count + 1 >= r.endNumber)
  }

  // ---------------------------------------------------------------- steps

  /** A payment that settles at once; ok tells whether it goes through. */
  function Pay(s: State, id: nat, now: nat, ok: bool): State
    requires Has(s, id)
  {
    var r := Get(s, id);
    var p := s.(log := s.log + [Payment(r, now, ok)]);
    if !ok then p
    else
      var ends := ShouldEndAfterThisPayment(r, now);
      var q := if ends then Forget(StopStored(p, id), id) else p;
      Put(q, r.(totalPaid := r.totalPaid + r.amount, count := r.count + 1, ended := ends))
  }

  datatype Step =
    | Create(tenant: nat, amount: nat, interval: nat, endDate: nat, endNumber: nat, now: nat, ok: bool)
    | Tick(handle: nat, now: nat, ok: bool)
    | Pause(id: nat, tenant: nat)
    | Restart(id: nat, tenant: nat)
    | Edit(id: nat, valid: bool, amount: nat, interval: nat, endDate: nat, endNumber: nat, now: nat)
    | Delete(id: nat, tenant: nat)
    | Crash
    | Initialize

  function NewRow(s: State, e: Step): Sub
    requires e.Create?
  {
    Sub(s.nextId, e.tenant, e.amount, e.interval, e.endDate, e.endNumber, 0, 0, false, false)
  }

  function Edited(r: Sub, e: Step): (u: Sub)
    requires e.Edit?
    ensures u.id == r.id
  {
    r.(interval := e.interval,
       amount := if e.amount != 0 then e.amount else r.amount,
       endDate := if e.endDate != 0 then e.endDate else r.endDate,
       endNumber := if e.endNumber != 0 then e.endNumber else r.endNumber)
  }

  function Created(s: State, r: Sub): State {
    StartCronJob(s.(rows := s.rows + [r], nextId := s.nextId + 1), r.id)
  }

  function Ticked(s: State, h: nat, now: nat, ok: bool): State {
    if h !in s.cron || !s.cron[h].running then s
    else
      var id := s.cron[h].subId;
      if !Has(s, id) then SetRunning(Forget(s, id), h, false)
      else
        var r := Get(s, id);
        if r.paused then SetRunning(s, h, false)
        else if ShouldAlreadyHaveEnded(r, now) then SetRunning(Forget(Put(s, r.(ended := true)), id), h, false)
        else Pay(s, id, now, ok)
  }

  predicate Owned(s: State, id: nat, tenant: nat) {
    Has(s, id) && Get(s, id).tenant == tenant
  }

  function Apply(s: State, e: Step): State {
    match e
    case Create(_, _, _, _, _, now, ok) =>
      var r := NewRow(s, e);
      var c := Created(s, r);
      if Has(c, r.id) then Pay(c, r.id, now, ok) else c
    case Tick(h, now, ok) => Ticked(s, h, now, ok)
    case Pause(id, tenant) =>
      if Owned(s, id, tenant) then StopStored(Put(s, Get(s, id).(paused := true)), id) else s
    case Restart(id, tenant) =>
      if Owned(s, id, tenant) then
        var r := Put(s, Get(s, id).(paused := false));
        if id in s.jobs then SetRunning(r, s.jobs[id], true) else r
      else s
    case Edit(id, valid, _, _, _, _, now) =>
      if !valid || !Has(s, id) then s
      else
        var u := Edited(Get(s, id), e);
        var r := StopStored(s, id);
        if ShouldAlreadyHaveEnded(u, now) then Forget(Put(r, u.(ended := true)), id)
        else StartCronJob(Put(r, u), id)
    case Delete(id, tenant) =>
      var r := if id in s.jobs then Forget(StopStored(s, id), id) else s;
      r.(rows := Without(s.rows, id, tenant))
    case Crash => s.(cron := map[], jobs := map[])
    case Initialize => StartAll(s, s.rows)
  }

  ghost function Run(s: State, es: seq<Step>): State {
    if es == [] then s else Apply(Run(s, es[..|es| - 1]), es[|es| - 1])
  }

  // ---------------------------------------------------------------- the module's variables

  class Node {
    var rows: seq<Sub>
    var nextId: nat
    var cron: map<nat, Job>
    var jobs: map<nat, nat>
    var handles: nat
    var log: seq<Payment>

    ghost function View(): State
      reads this
    {
      State(rows, nextId, cron, jobs, handles, log)
    }

    constructor ()
      ensures View() == Empty
    {
      rows, nextId, cron, jobs, handles, log := [], 0, map[], map[], 0, [];
    }

    method FindOne(id: nat) returns (r: Option<Sub>)
      ensures r == if Has(View(), id) then Some(Get(View(), id)) else None
    {
      var i := Find(rows, id);
      r := if i >= 0 then Some(rows[i]) else None;
    }

    method Update(r: Sub)
      requires Has(View(), r.id)
      modifies this`rows
      ensures View() == Put(old(View()), r)
    {
      rows := rows[Find(rows, r.id) := r];
    }

    method StartJob(id: nat)
      modifies this`cron, this`jobs, this`handles
      ensures View() == StartCronJob(old(View()), id)
    {
      cron := cron[handles := Job(id, true)];
      jobs := jobs[id := handles];
      handles := handles + 1;
    }

    method SetJob(h: nat, running: bool)
      modifies this`cron
      ensures View() == SetRunning(old(View()), h, running)
    {
      if h in cron {
        cron := cron[h := cron[h].(running := running)];
      }
    }

    method StopJob(id: nat)
      modifies this`cron
      ensures View() == StopStored(old(View()), id)
    {
      if id in jobs {
        SetJob(jobs[id], false);
      }
    }

    method SendSubscriptionPayment(sub: Sub, now: nat, ok: bool)
      requires Has(View(), sub.id) && sub == Get(View(), sub.id)
      modifies this
      ensures View() == Pay(old(View()), sub.id, now, ok)
    {
      hide Find, StopStored;
      log := log + [Payment(sub, now, ok)];
      if !ok {
        return;
      }
      var shouldEnd := ShouldEndAfterThisPayment(sub, now);
      if shouldEnd {
        StopJob(sub.id);
        jobs := jobs - {sub.id};
      }
      Update(sub.(totalPaid := sub.totalPaid + sub.amount, count := sub.count + 1, ended := shouldEnd));
    }

    /** What a cron job does when it is due. */
    method OnTick(h: nat, now: nat, ok: bool)
      modifies this
      ensures View() == Apply(old(View()), Tick(h, now, ok))
    {
      hide Find, Pay, ShouldAlreadyHaveEnded;
      if h !in cron || !cron[h].running {
        return;
      }
      var id := cron[h].subId;
      var subscription := FindOne(id);
      if subscription.None? {
        jobs := jobs - {id};
        SetJob(h, false);
        return;
      }
      if subscription.value.paused {
        SetJob(h, false);
        return;
      }
      if ShouldAlreadyHaveEnded(subscription.value, now) {
        Update(subscription.value.(ended := true));
        jobs := jobs - {id};
        SetJob(h, false);
        return;
      }
      SendSubscriptionPayment(subscription.value, now, ok);
    }

    method CreateSubscription(tenant: nat, amount: nat, interval: nat, endDate: nat, endNumber: nat, now: nat, ok: bool)
      modifies this
      ensures View() == Apply(old(View()), Create(tenant, amount, interval, endDate, endNumber, now, ok))
    {
      hide Find, Pay;
      var sub := Sub(nextId, tenant, amount, interval, endDate, endNumber, 0, 0, false, false);
      nextId := nextId + 1;
      rows := rows + [sub];
      StartJob(sub.id);
      var r := FindOne(sub.id);
      if r.Some? {
        SendSubscriptionPayment(r.value, now, ok);
      }
    }

    method PauseSubscription(id: nat, tenant: nat)
      modifies this
      ensures View() == Apply(old(View()), Pause(id, tenant))
    {
      hide Find, StopStored;
      var sub := FindOne(id);
      if sub.Some? && sub.value.tenant == tenant {
        Update(sub.value.(paused := true));
        StopJob(id);
      }
    }

    method RestartSubscription(id: nat, tenant: nat)
      modifies this
      ensures View() == Apply(old(View()), Restart(id, tenant))
    {
      hide Find, SetRunning;
      var sub := FindOne(id);
      if sub.Some? && sub.value.tenant == tenant {
        Update(sub.value.(paused := false));
        if id in jobs {
          SetJob(jobs[id], true);
        }
      }
    }

    /** valid says whether the request has an id, a chat and an interval. */
    method EditSubscription(id: nat, valid: bool, amount: nat, interval: nat, endDate: nat, endNumber: nat, now: nat)
      modifies this
      ensures View() == Apply(old(View()), Edit(id, valid, amount, interval, endDate, endNumber, now))
    {
      hide Find, StopStored, StartCronJob, ShouldAlreadyHaveEnded;
      if !valid {
        return;
      }
      var subRecord := FindOne(id);
      if subRecord.None? {
        return;
      }
      StopJob(id);
      var sub := subRecord.value.(interval := interval);
      if amount != 0 {
        sub := sub.(amount := amount);
      }
      if endDate != 0 {
        sub := sub.(endDate := endDate);
      }
      if endNumber != 0 {
        sub := sub.(endNumber := endNumber);
      }
      assert sub == Edited(subRecord.value, Edit(id, valid, amount, interval, endDate, endNumber, now));
      hide Edited;
      if ShouldAlreadyHaveEnded(sub, now) {
        Update(sub.(ended := true));
        jobs := jobs - {id};
      } else {
        Update(sub);
        StartJob(id);
      }
    }

    method DeleteSubscription(id: nat, tenant: nat)
      modifies this
      ensures View() == Apply(old(View()), Delete(id, tenant))
    {
      hide Without, SetRunning;
      if id in jobs {
        StopJob(id);
        jobs := jobs - {id};
      }
      rows := Without(rows, id, tenant);
    }

    method InitializeCronJobs()
      modifies this
      ensures View() == Apply(old(View()), Initialize)
    {
      hide StartCronJob;
      var subs := rows;
      ghost var from := View();
      var k := 0;
      while k < |subs|
        invariant 0 <= k <= |subs|
        invariant View() == StartAll(from, subs[..k])
      {
        assert subs[..k + 1][..k] == subs[..k];
        if !subs[k].ended {
          StartJob(subs[k].id);
        }
        k := k + 1;
      }
      assert subs[..k] == subs;
    }
  }
}
