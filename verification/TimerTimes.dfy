/** When escrow is paid back: not before its time, over restarts too. */
module TimerTimes {
  import opened Timers
  import opened TimerRuns
  import opened TimerCancel

  // ---------------------------------------------------------------- single steps

  /** A row as it was asked for, due `millis` after now. */
  predicate AsAsked(r: Row, e: Step)
    requires e.Add?
  {
    && r.amount == e.amount && r.receiver == e.receiver && r.chatId == e.chatId && r.tenant == e.tenant
    && r.msgId == e.msgId && r.msgUuid == e.msgUuid && r.millis == e.now + e.millis
  }

  /** Adding escrow holds it: nothing is paid back, the row is stored and a timeout waits for its time. */
  lemma AddWaits(s: State, e: Step)
    requires e.Add? && e.millis >= 0
    ensures var u := Apply(s, e);
            && u.repaid == s.repaid && u.created == s.created + [u.rows[|s.rows|]] && |u.rows| == |s.rows| + 1
            && u.rows[..|s.rows|] == s.rows && AsAsked(u.rows[|s.rows|], e) && u.rows[|s.rows|].id == |s.created|
            && u.pending == s.pending[s.handles := First(u.rows[|s.rows|])]
            && u.due == s.due[s.handles := e.now + if 1 <= e.millis <= MAX_DELAY then e.millis else 1]
  {
    hide Name;
  }

  /** Only escrow whose time is over when it is added is paid back at once, if its chat exists. */
  lemma AddPaysAtOnce(s: State, e: Step)
    requires Once(s) && e.Add? && e.millis < 0
    ensures var u := Apply(s, e);
            && u.pending == s.pending && u.rows == s.rows && |u.created| == |s.created| + 1
            && AsAsked(u.created[|s.created|], e)
            && u.repaid == if (e.chatId, e.tenant) in e.chats then s.repaid + [u.created[|s.created|]] else s.repaid
  {
    hide Name, Select;
    var t := NewRow(s, e);
    OthersSelected(s, t);
  }

  lemma OthersSelected(s: State, t: Row)
    requires Once(s) && t.id == |s.created|
    ensures Select(s.rows + [t], ById(t.id), false) == s.rows
  {
    hide Select;
    RowsAreOther(s, t.id);
    SelectOthers(s.rows, t.id);
    SelectMore(s.rows, t);
  }

  lemma RowsAreOther(s: State, id: nat)
    requires Once(s) && id >= |s.created|
    ensures forall r :: r in s.rows ==> r.id != id
  {
  }

  lemma {:induction false} SelectOthers(rows: seq<Row>, id: nat)
    requires forall r :: r in rows ==> r.id != id
    ensures Select(rows, ById(id), false) == rows
  {
    if rows != [] {
      var m := |rows| - 1;
      assert rows[m] in rows;
      SelectOthers(rows[..m], id);
      assert rows == rows[..m] + [rows[m]];
    }
  }

  lemma SelectMore(rows: seq<Row>, t: Row)
    ensures Select(rows + [t], ById(t.id), false) == Select(rows, ById(t.id), false)
  {
    assert (rows + [t])[..|rows|] == rows;
  }

  /** A timeout does nothing before its time. */
  lemma FireWaits(s: State, h: nat, now: int, chats: set<(nat, nat)>)
    requires h in s.pending && h in s.due && now < s.due[h]
    ensures Apply(s, Fire(h, now, chats)) == s
  {
  }

  /** When its time has come it pays its row back, if the chat exists, and forgets it. */
  lemma FirePays(s: State, h: nat, now: int, chats: set<(nat, nat)>)
    requires h in s.pending && h in s.due && now >= s.due[h] && !s.pending[h].Reload?
    ensures var u, r := Apply(s, Fire(h, now, chats)), s.pending[h].row;
            && u.repaid == (if (r.chatId, r.tenant) in chats then s.repaid + [r] else s.repaid)
            && u.pending == s.pending - {h}
            && forall t :: t in u.rows <==> t in s.rows && t.id != r.id
  {
    hide Select;
  }

  /** After a restart it waits once more, a second longer for every row before it. */
  lemma FireStaggers(s: State, h: nat, now: int, chats: set<(nat, nat)>)
    requires h in s.pending && h in s.due && now >= s.due[h] && s.pending[h].Reload?
    ensures var u, t := Apply(s, Fire(h, now, chats)), s.pending[h];
            && u.repaid == s.repaid && u.rows == s.rows
            && u.pending == (s.pending - {h})[s.handles := Second(t.row)]
            && u.due[s.handles] > now
            && (1 <= 999 * t.place <= MAX_DELAY ==> u.due[s.handles] == now + 999 * t.place)
  {
  }

  /** The timeout of the i-th row after a restart: a row whose time is over waits for the second stage. */
  ghost predicate Rearmed(u: State, h: nat, r: Row, i: nat, now: int) {
    && h in u.pending && h in u.due
    && (r.millis < now ==>
          u.pending[h] == Second(r) && u.due[h] == now + if 1 <= 999 * i <= MAX_DELAY then 999 * i else 1)
    && (r.millis >= now ==>
          && u.pending[h] == Reload(r, i)
          && u.due[h] == if 1 <= r.millis - now <= MAX_DELAY then r.millis else now + 1)
  }

  lemma {:induction false} ReloadedTimes(s: State, ts: seq<Row>, now: int)
    ensures var u := Reloaded(s, ts, now);
            && u.handles == s.handles + |ts|
            && forall i :: 0 <= i < |ts| ==> Rearmed(u, s.handles + i, ts[i], i, now)
  {
    hide SetTimer, Name, Rearmed;
    if ts != [] {
      var m := |ts| - 1;
      ReloadedTimes(s, ts[..m], now);
      var r := Reloaded(s, ts[..m], now);
      RearmedOne(r, Name(ts[m]), ts[m], m, now);
      forall i | 0 <= i < m
        ensures Rearmed(Reloaded(s, ts, now), s.handles + i, ts[i], i, now)
      {
        RearmedStays(r, Name(ts[m]), ts[m], m, now, s.handles + i, ts[i], i);
      }
    }
  }

  lemma RearmedOne(s: State, name: string, t: Row, m: nat, now: int)
    ensures var u := SetTimer(s, name, t.millis, now, Reload(t, m), {});
            Rearmed(u, s.handles, t, m, now) && u.handles == s.handles + 1
  {
  }

  lemma RearmedStays(s: State, name: string, t: Row, m: nat, now: int, h: nat, r: Row, i: nat)
    requires Rearmed(s, h, r, i, now) && h < s.handles
    ensures Rearmed(SetTimer(s, name, t.millis, now, Reload(t, m), {}), h, r, i, now)
  {
    hide Delay, Stagger;
  }

  /** After a restart every row waits for its time, or a while longer when that is over. */
  lemma RestartTimes(s: State, now: int)
    ensures var u := Apply(s, Restart(now));
            u.rows == s.rows && forall i :: 0 <= i < |s.rows| ==> Rearmed(u, s.handles + i, s.rows[i], i, now)
  {
    hide Reloaded, Rearmed;
    ReloadedTimes(Rebooted(s), s.rows, now);
    ReloadedRows(Rebooted(s), s.rows, now);
  }

  // ---------------------------------------------------------------- what is removed

  /** Cancelling takes away the rows of a message, of a receiver, or of a receiver in a chat. */
  lemma RowsRemoved(s: State, uuid: string, contactId: nat, chatId: nat, tenant: nat, r: Row)
    ensures r in Apply(s, Remove(ByMsgUuid(uuid))).rows <==> r in s.rows && r.msgUuid != uuid
    ensures r in Apply(s, Remove(ByContact(contactId, tenant))).rows
       <==> r in s.rows && !(r.receiver == contactId && r.tenant == tenant)
    ensures r in Apply(s, Remove(ByContactAndChat(contactId, chatId, tenant))).rows
       <==> r in s.rows && !(r.receiver == contactId && r.chatId == chatId && r.tenant == tenant)
  {
    hide Apply, Select;
    RemoveFrame(s, ByMsgUuid(uuid));
    RemoveFrame(s, ByContact(contactId, tenant));
    RemoveFrame(s, ByContactAndChat(contactId, chatId, tenant));
  }

  // ---------------------------------------------------------------- runs

  /** No timeout of the row fires before the row's time. */
  ghost predicate Patient(s: State, r: Row) {
    forall h :: h in s.pending && s.pending[h].row == r ==> h in s.due && s.due[h] >= r.millis
  }

  ghost predicate Held(s: State, r: Row) {
    Once(s) && Born(s, r) && Patient(s, r)
  }

  lemma DelayIsEnough(ms: int)
    ensures ms <= MAX_DELAY ==> Delay(ms) >= ms
    ensures Delay(ms) >= 1
  {
  }

  lemma PatientTimer(s: State, name: string, when: int, now: int, t: Timeout, r: Row)
    requires Patient(s, r) && t.Reload? && when == t.row.millis && (t.row == r ==> when - now <= MAX_DELAY)
    ensures Patient(SetTimer(s, name, when, now, t, {}), r)
  {
    hide Delay, Stagger;
    DelayIsEnough(when - now);
    DelayIsEnough(Stagger(t.place));
  }

  lemma {:induction false} PatientReloaded(s: State, ts: seq<Row>, now: int, r: Row)
    requires Patient(s, r) && r.millis - now <= MAX_DELAY
    ensures Patient(Reloaded(s, ts, now), r)
  {
    hide Patient, SetTimer, Name;
    if ts != [] {
      var m := |ts| - 1;
      PatientReloaded(s, ts[..m], now, r);
      PatientTimer(Reloaded(s, ts[..m], now), Name(ts[m]), ts[m].millis, now, Reload(ts[m], m), r);
    }
  }

  lemma PatientAdd(s: State, e: Step, r: Row)
    requires Held(s, r) && e.Add?
    ensures Patient(Apply(s, e), r) && (r in Apply(s, e).repaid ==> r in s.repaid)
  {
    hide Name, Select, DistinctIds, Numbered, Delay;
  }

  lemma PatientFire(s: State, h: nat, now: int, chats: set<(nat, nat)>, r: Row)
    requires Held(s, r)
    ensures var u := Apply(s, Fire(h, now, chats));
            Patient(u, r) && (r in u.repaid && r !in s.repaid ==> now >= r.millis)
  {
    hide Select, DistinctIds, Numbered, Delay, Stagger;
    if Ripe(s, h, now) && s.pending[h].Reload? {
      DelayIsEnough(Stagger(s.pending[h].place));
    }
  }

  lemma PatientRemove(s: State, q: Query, r: Row)
    requires Patient(s, r)
    ensures Patient(Apply(s, Remove(q)), r) && Apply(s, Remove(q)).repaid == s.repaid
  {
    hide Apply, Select;
    RemoveFrame(s, q);
  }

  lemma PatientRestart(s: State, now: int, r: Row)
    requires r.millis - now <= MAX_DELAY
    ensures Patient(Apply(s, Restart(now)), r) && Apply(s, Restart(now)).repaid == s.repaid
  {
    hide Reloaded;
    PatientReloaded(Rebooted(s), s.rows, now, r);
    ReloadedRows(Rebooted(s), s.rows, now);
  }

  lemma HeldStep(s: State, e: Step, r: Row)
    requires Held(s, r) && (e.Restart? ==> r.millis - e.now <= MAX_DELAY)
    ensures Held(Apply(s, e), r)
    ensures r in Apply(s, e).repaid && r !in s.repaid ==> e.Fire? && e.now >= r.millis
  {
    hide Apply, Once, Patient, Ripe;
    OnceStep(s, e);
    CreatedGrows(s, e);
    StillBorn(s, Apply(s, e), r);
    match e {
      case Add(_, _, _, _, _, _, _, _, _) => PatientAdd(s, e, r);
      case Fire(h, now, chats) => PatientFire(s, h, now, chats, r);
      case Remove(q) => PatientRemove(s, q, r);
      case Restart(now) => PatientRestart(s, now, r);
    }
  }

  lemma StillBorn(s: State, u: State, r: Row)
    requires Born(s, r) && s.created <= u.created
    ensures Born(u, r)
  {
  }

  /** The k-th step pays the row back. */
  ghost predicate PaidAt(s: State, es: seq<Step>, k: nat, r: Row) {
    k < |es| && r !in Run(s, es[..k]).repaid && r in Run(s, es[..k + 1]).repaid
  }

  lemma RunMore(s: State, es: seq<Step>, k: nat)
    requires k < |es|
    ensures Run(s, es[..k + 1]) == Apply(Run(s, es[..k]), es[k])
  {
    hide Apply;
    assert es[..k + 1][..k] == es[..k];
  }

  lemma {:induction false} HeldRun(s: State, es: seq<Step>, k: nat, r: Row)
    requires Held(s, r) && k <= |es|
    requires forall j :: 0 <= j < |es| && es[j].Restart? ==> r.millis - es[j].now <= MAX_DELAY
    ensures Held(Run(s, es[..k]), r)
  {
    hide Apply, Held;
    if k == 0 {
      assert es[..0] == [];
    } else {
      HeldRun(s, es, k - 1, r);
      RunMore(s, es, k - 1);
      HeldStep(Run(s, es[..k - 1]), es[k - 1], r);
    }
  }

  /** The clock does not go back behind a time. */
  ghost predicate NotBefore(es: seq<Step>, time: int) {
    forall k :: 0 <= k < |es| && !es[k].Remove? ==> es[k].now >= time
  }

  /** The row that a step adds. */
  function AddedRow(s: State, e: Step): Row
    requires e.Add?
  {
    Row(|s.created|, e.amount, e.now + e.millis, e.receiver, e.msgId, e.msgUuid, e.chatId, e.tenant)
  }

  lemma AddedIsHeld(s: State, e: Step)
    requires Once(s) && e.Add? && 0 <= e.millis <= MAX_DELAY
    ensures Held(Apply(s, e), AddedRow(s, e)) && AddedRow(s, e) !in Apply(s, e).repaid
  {
    hide Apply, Once;
    AddWaits(s, e);
    OnceStep(s, e);
    NewIsPatient(s, Apply(s, e), AddedRow(s, e));
  }

  lemma NewIsPatient(s: State, u: State, r: Row)
    requires Once(s) && r.id == |s.created| && u.pending == s.pending[s.handles := First(r)]
    requires s.handles in u.due && u.due[s.handles] >= r.millis && u.repaid == s.repaid
    requires u.due == s.due[s.handles := u.due[s.handles]]
    ensures Patient(u, r) && r !in u.repaid
  {
    hide DistinctIds, Numbered;
  }

  /** No escrow is paid back before the time it was added plus its delay, whatever happens in between,
      restarts of the node included. */
  lemma NotBeforeItsTime(s: State, e: Step, es: seq<Step>, k: nat)
    requires Once(s) && e.Add? && 0 <= e.millis <= MAX_DELAY && NotBefore(es, e.now)
    requires PaidAt(Apply(s, e), es, k, AddedRow(s, e))
    ensures es[k].Fire? && es[k].now >= e.now + e.millis
  {
    hide Apply, Held, Once;
    var r := AddedRow(s, e);
    AddedIsHeld(s, e);
    HeldRun(Apply(s, e), es, k, r);
    RunMore(Apply(s, e), es, k);
    HeldStep(Run(Apply(s, e), es[..k]), es[k], r);
  }

  /** A longer delay than a timeout can have is none: the escrow is paid back a millisecond later. */
  lemma LongDelayIsCut(s: State, e: Step)
    requires Once(s) && e.Add? && e.millis > MAX_DELAY
    ensures PaidAt(Apply(s, e), [Fire(s.handles, e.now + 1, {(e.chatId, e.tenant)})], 0, AddedRow(s, e))
  {
    hide Apply;
    var u, f := Apply(s, e), Fire(s.handles, e.now + 1, {(e.chatId, e.tenant)});
    var r := AddedRow(s, e);
    AddWaits(s, e);
    FirePays(u, s.handles, e.now + 1, {(e.chatId, e.tenant)});
    RepaidIsOld(s, r);
    assert [f][..0] == [] && [f][..1] == [f];
    RunMore(u, [f], 0);
  }

  lemma RepaidIsOld(s: State, r: Row)
    requires Once(s) && r.id == |s.created|
    ensures r !in s.repaid
  {
    hide DistinctIds, Numbered;
  }

  /** Escrow with a delay can be paid back too early if and only if the delay is longer than that. */
  ghost predicate CanBeEarly(s: State, e: Step)
    requires e.Add?
  {
    exists es: seq<Step>, k: nat ::
      NotBefore(es, e.now) && PaidAt(Apply(s, e), es, k, AddedRow(s, e)) && TooEarly(es, k, e)
  }

  predicate TooEarly(es: seq<Step>, k: nat, e: Step)
    requires e.Add?
  {
    k < |es| && (es[k].Fire? ==> es[k].now < e.now + e.millis)
  }

  lemma EarlyIfTooLong(s: State, e: Step)
    requires Once(s) && e.Add? && e.millis >= 0
    ensures CanBeEarly(s, e) <==> e.millis > MAX_DELAY
  {
    hide Apply, PaidAt, Once;
    if e.millis > MAX_DELAY {
      var f := Fire(s.handles, e.now + 1, {(e.chatId, e.tenant)});
      LongDelayIsCut(s, e);
      assert NotBefore([f], e.now) && TooEarly([f], 0, e);
    } else if CanBeEarly(s, e) {
      var es: seq<Step>, k: nat :|
        NotBefore(es, e.now) && PaidAt(Apply(s, e), es, k, AddedRow(s, e)) && TooEarly(es, k, e);
      NotBeforeItsTime(s, e, es, k);
      assert false;
    }
  }

  /** So it is over every run from the start. */
  lemma EarlyInRuns(before: seq<Step>, e: Step)
    requires e.Add? && e.millis >= 0
    ensures CanBeEarly(Run(Empty, before), e) <==> e.millis > MAX_DELAY
  {
    hide Run, CanBeEarly, Once;
    EmptyOnce();
    OnceRun(Empty, before);
    EarlyIfTooLong(Run(Empty, before), e);
  }
}
