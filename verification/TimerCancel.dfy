/** Cancelled and surviving escrow rows. */
module TimerCancel {
  import opened Options
  import opened Text
  import opened Timers
  import opened TimerRuns

  // ---------------------------------------------------------------- rows that are gone

  /** The row is neither in the database nor armed. */
  ghost predicate Gone(s: State, id: nat) {
    id < |s.created| && Absent(s, id) && Idle(s, id)
  }

  lemma GoneCallback(s: State, t: Timeout, now: int, chats: set<(nat, nat)>, id: nat)
    requires Gone(s, id) && t.row.id != id
    ensures Gone(Callback(s, t, now, chats), id)
    ensures Unpaid(s, id) ==> Unpaid(Callback(s, t, now, chats), id)
  {
    hide Select;
  }

  lemma GoneSetTimer(s: State, name: string, when: int, now: int, t: Timeout, chats: set<(nat, nat)>, id: nat)
    requires Gone(s, id) && t.row.id != id
    ensures Gone(SetTimer(s, name, when, now, t, chats), id)
    ensures Unpaid(s, id) ==> Unpaid(SetTimer(s, name, when, now, t, chats), id)
  {
    hide Callback;
    if when < now {
      GoneCallback(s, t, now, chats, id);
    }
  }

  lemma {:induction false} GoneReloaded(s: State, ts: seq<Row>, now: int, id: nat)
    requires Gone(s, id) && forall t :: t in ts ==> t.id != id
    ensures Gone(Reloaded(s, ts, now), id)
    ensures Unpaid(s, id) ==> Unpaid(Reloaded(s, ts, now), id)
  {
    hide Gone, Unpaid, SetTimer, Name;
    if ts != [] {
      var m := |ts| - 1;
      GoneReloaded(s, ts[..m], now, id);
      GoneSetTimer(Reloaded(s, ts[..m], now), Name(ts[m]), ts[m].millis, now, Reload(ts[m], m), {}, id);
    }
  }

  lemma {:induction false} ClearAllFrame(s: State, ts: seq<Row>)
    ensures var u := ClearAll(s, ts);
            && u == s.(pending := u.pending)
            && (forall h :: h in u.pending ==> h in s.pending && u.pending[h] == s.pending[h])
  {
    hide Name;
    if ts != [] {
      ClearAllFrame(s, ts[..|ts| - 1]);
    }
  }

  lemma RemoveFrame(s: State, q: Query)
    ensures var u := Apply(s, Remove(q));
            && u == s.(pending := u.pending, rows := Select(s.rows, q, false))
            && (forall h :: h in u.pending ==> h in s.pending && u.pending[h] == s.pending[h])
  {
    hide Name, ClearAll, FindFirst, Select;
    ClearAllFrame(s, Select(s.rows, q, true));
  }

  lemma GoneStep(s: State, e: Step, id: nat)
    requires Gone(s, id)
    ensures Gone(Apply(s, e), id)
    ensures Unpaid(s, id) ==> Unpaid(Apply(s, e), id)
  {
    hide SetTimer, Callback, Name, Reloaded, Select, ClearAll, Clear, FindFirst;
    match e {
      case Add(_, _, _, _, _, _, _, now, chats) =>
        var t := NewRow(s, e);
        GoneSetTimer(Create(s, t), Name(t), t.millis, now, First(t), chats, id);
      case Fire(h, now, chats) =>
        if h in s.pending {
          GoneCallback(s.(pending := s.pending - {h}), s.pending[h], now, chats, id);
        }
      case Remove(q) =>
        RemoveFrame(s, q);
      case Restart(now) =>
        GoneReloaded(Rebooted(s), s.rows, now, id);
    }
  }

  /** What is gone stays gone, and is not repaid any more. */
  lemma {:induction false} GoneStays(s: State, es: seq<Step>, id: nat)
    requires Gone(s, id)
    ensures Gone(Run(s, es), id)
    ensures Unpaid(s, id) ==> Unpaid(Run(s, es), id)
  {
    hide Gone, Apply, Unpaid;
    if es != [] {
      GoneStays(s, es[..|es| - 1], id);
      GoneStep(Run(s, es[..|es| - 1]), es[|es| - 1], id);
    }
  }

  // ---------------------------------------------------------------- rows that are armed

  ghost predicate Armed(s: State, t: Row) {
    exists h :: h in s.pending && s.pending[h].row == t
  }

  lemma ArmedStep(s: State, name: string, when: int, now: int, t: Timeout, u: Row)
    requires t.Reload? && s.handles !in s.pending
    ensures var r := SetTimer(s, name, when, now, t, {});
            Armed(r, t.row) && (Armed(s, u) ==> Armed(r, u))
  {
    hide SetTimer;
    Places(s, name, when, now, t);
    var r := SetTimer(s, name, when, now, t, {});
    assert r.pending[s.handles].row == t.row;
    if Armed(s, u) {
      var h :| h in s.pending && s.pending[h].row == u;
      assert r.pending[h].row == u;
    }
  }

  lemma {:induction false} ReloadedArmed(s: State, ts: seq<Row>, k: nat, now: int)
    requires Once(s) && k <= |ts| && DistinctIds(ts) && Waiting(s, ts, 0)
    ensures forall t :: t in ts[..k] ==> Armed(Reloaded(s, ts[..k], now), t)
  {
    hide Once, Armed, Waiting, SetTimer, Name, DistinctIds;
    if k > 0 {
      ReloadedArmed(s, ts, k - 1, now);
      OnceReloaded(s, ts, k - 1, now);
      var h, t := ts[..k - 1], ts[k - 1];
      assert ts[..k] == h + [t] && ts[..k][..k - 1] == h;
      var r := Reloaded(s, h, now);
      FreshHandle(r);
      forall u | u in ts[..k]
        ensures Armed(Reloaded(s, ts[..k], now), u)
      {
        ArmedStep(r, Name(t), t.millis, now, Reload(t, k - 1), u);
      }
    }
  }

  lemma FreshHandle(s: State)
    requires Once(s)
    ensures s.handles !in s.pending
  {
  }

  lemma {:induction false} ReloadedRows(s: State, ts: seq<Row>, now: int)
    ensures var u := Reloaded(s, ts, now); u.rows == s.rows && u.created == s.created && u.repaid == s.repaid
  {
    hide Name;
    if ts != [] {
      ReloadedRows(s, ts[..|ts| - 1], now);
    }
  }

  /** After a restart every surviving row is armed, whatever happened before. */
  lemma RestartArmsAll(es: seq<Step>, now: int)
    ensures var s := Apply(Run(Empty, es), Restart(now));
            s.rows == Run(Empty, es).rows && forall t :: t in s.rows ==> Armed(s, t)
  {
    hide Once, Armed, Run, Reloaded;
    var s := Run(Empty, es);
    assert Once(Empty) by {
      EmptyOnce();
    }
    OnceRun(Empty, es);
    OnceRebooted(s);
    ReloadedArmed(Rebooted(s), s.rows, |s.rows|, now);
    ReloadedRows(Rebooted(s), s.rows, now);
    assert s.rows[..|s.rows|] == s.rows;
  }

  lemma EmptyOnce()
    ensures Once(Empty)
  {
  }

  // ---------------------------------------------------------------- names

  lemma NameInjective(t: Row, u: Row)
    requires Name(t) == Name(u)
    ensures t.chatId == u.chatId && t.receiver == u.receiver && t.msgId == u.msgId
  {
    NameParts(t);
    NameParts(u);
    DecimalInjective(t.chatId, u.chatId);
    DecimalInjective(t.receiver, u.receiver);
    DecimalInjective(t.msgId, u.msgId);
  }

  lemma NameParts(t: Row)
    ensures Split(Name(t), '_') == [Decimal(t.chatId), Decimal(t.receiver), Decimal(t.msgId)]
  {
    var a, b, c := Decimal(t.chatId), Decimal(t.receiver), Decimal(t.msgId);
    assert !IsDigit('_');
    assert Name(t) == a + ['_'] + (b + ['_'] + c);
    SplitFirst(a, b + ['_'] + c, '_');
    SplitFirst(b, c, '_');
    SplitWhole(c, '_');
  }

  /** Messages are told apart by their uuid, and by chat, sender and number. */
  ghost predicate Apart(created: seq<Row>) {
    forall i, j :: 0 <= i < j < |created| ==>
      && created[i].msgUuid != created[j].msgUuid
      && !(created[i].chatId == created[j].chatId && created[i].receiver == created[j].receiver
           && created[i].msgId == created[j].msgId)
  }

  lemma ApartRows(s: State, t: Row, u: Row)
    requires Apart(s.created) && Born(s, t) && Born(s, u) && (Name(t) == Name(u) || t.msgUuid == u.msgUuid)
    ensures t == u
  {
    hide Name;
    if Name(t) == Name(u) {
      NameInjective(t, u);
    }
  }

  // ---------------------------------------------------------------- every timeout that can still be cleared

  /** Every row is armed; a timeout that is not in its second stage has its row and its name. */
  ghost predicate Tracked(s: State) {
    AllArmed(s) && Nameable(s)
  }

  ghost predicate AllArmed(s: State) {
    forall t :: t in s.rows ==> Armed(s, t)
  }

  ghost predicate Nameable(s: State) {
    && (forall h :: h in s.pending && !s.pending[h].Second? ==> Named(s, h))
    && (forall n :: n in s.timerz ==> s.timerz[n] < s.handles && Points(s, n))
  }

  ghost predicate Named(s: State, h: nat)
    requires h in s.pending
  {
    var t := s.pending[h].row;
    t in s.rows && Name(t) in s.timerz && s.timerz[Name(t)] == h
  }

  ghost predicate Points(s: State, n: string)
    requires n in s.timerz
  {
    var h := s.timerz[n];
    h in s.pending ==> !s.pending[h].Second? && Name(s.pending[h].row) == n
  }

  /** What removing rows does: it takes away their rows and their timeouts, second stages excepted. */
  ghost predicate Removed(s: State, q: Query, u: State) {
    && u == s.(pending := u.pending, rows := Select(s.rows, q, false))
    && (forall h :: h in u.pending <==> h in s.pending && (s.pending[h].Second? || !Matches(q, s.pending[h].row)))
    && (forall h :: h in u.pending ==> u.pending[h] == s.pending[h])
  }

  ghost predicate ClearedBy(s: State, ts: seq<Row>, h: nat) {
    exists t :: t in ts && Name(t) in s.timerz && s.timerz[Name(t)] == h
  }

  lemma {:induction false} ClearAllIs(s: State, ts: seq<Row>)
    ensures forall h :: h in ClearAll(s, ts).pending <==> h in s.pending && !ClearedBy(s, ts, h)
  {
    hide Name;
    if ts != [] {
      var m := |ts| - 1;
      ClearAllIs(s, ts[..m]);
      ClearAllFrame(s, ts[..m]);
      forall h
        ensures ClearedBy(s, ts, h)
           <==> ClearedBy(s, ts[..m], h) || (Name(ts[m]) in s.timerz && s.timerz[Name(ts[m])] == h)
      {
        if ClearedBy(s, ts[..m], h) {
          var t :| t in ts[..m] && Name(t) in s.timerz && s.timerz[Name(t)] == h;
          assert t in ts;
        }
        if Name(ts[m]) in s.timerz && s.timerz[Name(ts[m])] == h {
          assert ts[m] in ts;
        }
        if ClearedBy(s, ts, h) {
          var t :| t in ts && Name(t) in s.timerz && s.timerz[Name(t)] == h;
          assert t in ts[..m] || t == ts[m];
        }
      }
    }
  }

  /** Which pending timeouts the rows of a query clear. */
  lemma Clears(s: State, q: Query, ts: seq<Row>, h: nat)
    requires Once(s) && Tracked(s) && Apart(s.created) && h in s.pending
    requires forall t :: t in ts <==> t in s.rows && Matches(q, t)
    ensures ClearedBy(s, ts, h) <==> !s.pending[h].Second? && Matches(q, s.pending[h].row)
  {
    hide Name, Matches, Apart;
    var r := s.pending[h].row;
    if ClearedBy(s, ts, h) {
      var t :| t in ts && Name(t) in s.timerz && s.timerz[Name(t)] == h;
      assert Points(s, Name(t));
      ApartRows(s, t, r);
    }
    if !s.pending[h].Second? && Matches(q, r) {
      assert Named(s, h);
      assert r in ts;
    }
  }

  lemma Only(s: State, q: Query)
    requires Once(s) && Apart(s.created) && q.ByMsgUuid?
    ensures var f := FindFirst(s.rows, q);
            forall t :: t in s.rows && Matches(q, t) <==> f.Some? && t == f.value
  {
    hide Apart;
    forall t | t in s.rows && Matches(q, t)
      ensures FindFirst(s.rows, q) == Some(t)
    {
      ApartRows(s, t, FindFirst(s.rows, q).value);
    }
  }

  /** The rows whose timeouts a removal clears. */
  function Cleared(s: State, q: Query): seq<Row> {
    if q.ByMsgUuid? then
      var f := FindFirst(s.rows, q);
      if f.Some? then [f.value] else []
    else Select(s.rows, q, true)
  }

  lemma RemoveClears(s: State, q: Query)
    ensures Apply(s, Remove(q)) == Destroy(ClearAll(s, Cleared(s, q)), q)
  {
    hide Name, Select, FindFirst;
    var f := FindFirst(s.rows, q);
    if f.Some? {
      assert [f.value][..0] == [];
    }
  }

  lemma RemoveIs(s: State, q: Query)
    requires Once(s) && Tracked(s) && Apart(s.created)
    ensures Removed(s, q, Apply(s, Remove(q)))
  {
    hide Name, Matches, Apart, Tracked, Once, Select, FindFirst, ClearAll, Clear;
    var u := Apply(s, Remove(q));
    RemoveFrame(s, q);
    RemoveClears(s, q);
    var ts := Cleared(s, q);
    if q.ByMsgUuid? {
      Only(s, q);
    }
    ClearAllIs(s, ts);
    forall h | h in s.pending
      ensures ClearedBy(s, ts, h) <==> !s.pending[h].Second? && Matches(q, s.pending[h].row)
    {
      Clears(s, q, ts, h);
    }
  }

  // ---------------------------------------------------------------- every step keeps track

  lemma NameableArm(s: State, t: Timeout, due: int)
    requires Once(s) && Nameable(s) && Apart(s.created) && Idle(s, t.row.id)
    requires t.row in s.rows && !t.Second?
    ensures Nameable(Arm(s, t, due).(timerz := s.timerz[Name(t.row) := s.handles]))
  {
    hide Name, Apart;
    var u := Arm(s, t, due).(timerz := s.timerz[Name(t.row) := s.handles]);
    forall h | h in u.pending && !u.pending[h].Second?
      ensures Named(u, h)
    {
      if h != s.handles {
        assert Named(s, h);
        if Name(s.pending[h].row) == Name(t.row) {
          ApartRows(s, s.pending[h].row, t.row);
        }
      }
    }
    forall n | n in u.timerz
      ensures u.timerz[n] < u.handles && Points(u, n)
    {
      if n != Name(t.row) {
        assert Points(s, n);
      }
    }
  }

  lemma NameableArmSecond(s: State, t: Timeout, due: int)
    requires Once(s) && Nameable(s) && t.Second?
    ensures Nameable(Arm(s, t, due))
  {
    hide Name;
    var u := Arm(s, t, due);
    forall h | h in u.pending && !u.pending[h].Second?
      ensures Named(u, h)
    {
      assert Named(s, h);
    }
    forall n | n in u.timerz
      ensures u.timerz[n] < u.handles && Points(u, n)
    {
      assert Points(s, n);
    }
  }

  /** Fewer rows and timeouts, no named timeout without its row. */
  ghost predicate Less(s: State, u: State) {
    && u == s.(pending := u.pending, rows := u.rows, repaid := u.repaid)
    && (forall t :: t in u.rows ==> t in s.rows)
    && (forall h :: h in u.pending ==> h in s.pending && u.pending[h] == s.pending[h])
    && (forall h :: h in u.pending && !u.pending[h].Second? && u.pending[h].row in s.rows ==> u.pending[h].row in u.rows)
  }

  lemma NameableLess(s: State, u: State)
    requires Nameable(s) && Less(s, u)
    ensures Nameable(u)
  {
    hide Name;
    forall h | h in u.pending && !u.pending[h].Second?
      ensures Named(u, h)
    {
      assert Named(s, h);
    }
    forall n | n in u.timerz
      ensures u.timerz[n] < u.handles && Points(u, n)
    {
      assert Points(s, n);
    }
  }

  lemma AllArmedLess(s: State, u: State)
    requires AllArmed(s) && Less(s, u)
    requires forall h :: h in s.pending && s.pending[h].row in u.rows ==> h in u.pending
    ensures AllArmed(u)
  {
    forall t | t in u.rows
      ensures Armed(u, t)
    {
      assert Armed(s, t);
      var h :| h in s.pending && s.pending[h].row == t;
      assert u.pending[h].row == t;
    }
  }

  lemma TrackedRemove(s: State, q: Query)
    requires Once(s) && Tracked(s) && Apart(s.created)
    ensures Tracked(Apply(s, Remove(q)))
  {
    hide Apply, Matches, Once, Apart, AllArmed, Nameable, Select;
    RemoveIs(s, q);
    var u := Apply(s, Remove(q));
    assert Less(s, u);
    NameableLess(s, u);
    AllArmedLess(s, u);
  }

  lemma PaidLess(s: State, h: nat, chats: set<(nat, nat)>)
    requires Once(s) && h in s.pending
    ensures var u := PayBack(s.(pending := s.pending - {h}), s.pending[h].row, chats);
            && Less(s, u) && (forall k :: k in s.pending && s.pending[k].row in u.rows ==> k in u.pending)
  {
    hide Select, DistinctIds, Numbered;
  }

  lemma ReloadLess(s: State, h: nat)
    requires Once(s) && h in s.pending
    ensures Less(s, s.(pending := s.pending - {h}))
  {
  }

  lemma ReloadArmed(s: State, h: nat, due: int)
    requires AllArmed(s) && s.handles !in s.pending && h in s.pending
    ensures AllArmed(Arm(s.(pending := s.pending - {h}), Second(s.pending[h].row), due))
  {
    var u := Arm(s.(pending := s.pending - {h}), Second(s.pending[h].row), due);
    forall t | t in u.rows
      ensures Armed(u, t)
    {
      assert Armed(s, t);
      var k :| k in s.pending && s.pending[k].row == t;
      assert u.pending[if k == h then s.handles else k].row == t;
    }
  }

  lemma TrackedFire(s: State, h: nat, now: int, chats: set<(nat, nat)>)
    requires Once(s) && Tracked(s)
    ensures Tracked(Apply(s, Fire(h, now, chats)))
  {
    hide Once, AllArmed, Nameable, PayBack, Arm, Less;
    if Ripe(s, h, now) {
      var u := s.(pending := s.pending - {h});
      if s.pending[h].Reload? {
        var due := now + Delay(Stagger(s.pending[h].place));
        OnceUnpend(s, h);
        ReloadLess(s, h);
        NameableLess(s, u);
        NameableArmSecond(u, Second(s.pending[h].row), due);
        FreshHandle(s);
        ReloadArmed(s, h, due);
      } else {
        PaidLess(s, h, chats);
        NameableLess(s, PayBack(u, s.pending[h].row, chats));
        AllArmedLess(s, PayBack(u, s.pending[h].row, chats));
      }
    }
  }

  lemma NameableCreate(s: State, t: Row)
    requires Nameable(s)
    ensures Nameable(Create(s, t))
  {
    hide Name;
    var u := Create(s, t);
    forall h | h in u.pending && !u.pending[h].Second?
      ensures Named(u, h)
    {
      assert Named(s, h);
    }
    forall n | n in u.timerz
      ensures u.timerz[n] < u.handles && Points(u, n)
    {
      assert Points(s, n);
    }
  }

  lemma AddArmed(s: State, t: Row, due: int, timerz: map<string, nat>)
    requires AllArmed(s) && s.handles !in s.pending
    ensures AllArmed(Arm(Create(s, t), First(t), due).(timerz := timerz))
  {
    var u := Arm(Create(s, t), First(t), due).(timerz := timerz);
    forall v | v in u.rows
      ensures Armed(u, v)
    {
      if v in s.rows {
        assert Armed(s, v);
        var k :| k in s.pending && s.pending[k].row == v;
        assert u.pending[k].row == v;
      } else {
        assert u.pending[s.handles].row == v;
      }
    }
  }

  /** A row paid back at once leaves the others alone. */
  lemma AddPaid(s: State, t: Row, chats: set<(nat, nat)>)
    requires Once(s) && Tracked(s) && t.id == |s.created|
    ensures Tracked(PayBack(Create(s, t), t, chats))
  {
    hide Name, Select, DistinctIds, Numbered, AllArmed, Nameable;
    var u := PayBack(Create(s, t), t, chats);
    NameableCreate(s, t);
    PaidAtOnce(s, t, chats);
    NameableLess(Create(s, t), u);
    AddPaidArmed(s, t, chats);
  }

  lemma PaidAtOnce(s: State, t: Row, chats: set<(nat, nat)>)
    requires Once(s) && t.id == |s.created|
    ensures Less(Create(s, t), PayBack(Create(s, t), t, chats))
  {
    hide Name, Select, DistinctIds, Numbered;
    var u := PayBack(Create(s, t), t, chats);
    forall h | h in u.pending
      ensures u.pending[h].row.id != t.id
    {
    }
  }

  lemma AddPaidArmed(s: State, t: Row, chats: set<(nat, nat)>)
    requires Once(s) && AllArmed(s) && t.id == |s.created|
    ensures AllArmed(PayBack(Create(s, t), t, chats))
  {
    hide Name, Select, DistinctIds, Numbered;
    var u := PayBack(Create(s, t), t, chats);
    forall v | v in u.rows
      ensures Armed(u, v)
    {
      assert v in s.rows;
      assert Armed(s, v);
      var k :| k in s.pending && s.pending[k].row == v;
      assert u.pending[k].row == v;
    }
  }

  lemma TrackedAdd(s: State, e: Step)
    requires Once(s) && Tracked(s) && e.Add? && Apart(Apply(s, e).created)
    ensures Tracked(Apply(s, e))
  {
    hide Once, AllArmed, Nameable, PayBack, Apart, Name;
    var t := NewRow(s, e);
    AddCreates(s, e);
    OnceCreate(s, t);
    if t.millis < e.now {
      AddPaid(s, t, e.chats);
    } else {
      NameableCreate(s, t);
      var due := e.now + Delay(t.millis - e.now);
      NameableArm(Create(s, t), First(t), due);
      FreshHandle(s);
      AddArmed(s, t, due, s.timerz[Name(t) := s.handles]);
    }
  }

  lemma AddCreates(s: State, e: Step)
    requires e.Add?
    ensures Apply(s, e).created == s.created + [NewRow(s, e)]
  {
    hide Name, Select;
  }

  lemma {:induction false} NameableReloaded(s: State, ts: seq<Row>, k: nat, now: int)
    requires Once(s) && k <= |ts| && DistinctIds(ts) && Waiting(s, ts, 0)
    requires Nameable(s) && Apart(s.created) && s.rows == ts
    ensures Nameable(Reloaded(s, ts[..k], now))
  {
    hide Once, Waiting, DistinctIds, Name, Apart, Nameable, Arm;
    if k == 0 {
      assert ts[..0] == [];
    } else {
      NameableReloaded(s, ts, k - 1, now);
      OnceReloaded(s, ts, k - 1, now);
      ReloadedRows(s, ts[..k - 1], now);
      var r, t := Reloaded(s, ts[..k - 1], now), ts[k - 1];
      assert ts[..k][..k - 1] == ts[..k - 1] && ts[..k][k - 1] == t;
      NextWaits(r, ts, k - 1);
      if t.millis < now {
        NameableArmSecond(r, Second(t), now + Delay(Stagger(k - 1)));
      } else {
        NameableArm(r, Reload(t, k - 1), now + Delay(t.millis - now));
      }
    }
  }

  lemma TrackedRestart(s: State, now: int)
    requires Once(s) && Apart(s.created)
    ensures Tracked(Apply(s, Restart(now)))
  {
    hide Once, Armed, Reloaded, Apart, Name;
    OnceRebooted(s);
    ReloadedArmed(Rebooted(s), s.rows, |s.rows|, now);
    ReloadedRows(Rebooted(s), s.rows, now);
    NameableReloaded(Rebooted(s), s.rows, |s.rows|, now);
    assert s.rows[..|s.rows|] == s.rows;
  }

  lemma TrackedStep(s: State, e: Step)
    requires Once(s) && Tracked(s) && Apart(Apply(s, e).created)
    ensures Tracked(Apply(s, e)) && Apart(s.created)
  {
    hide Once, Tracked, Apply;
    CreatedGrows(s, e);
    match e {
      case Add(_, _, _, _, _, _, _, _, _) => TrackedAdd(s, e);
      case Fire(h, now, chats) => TrackedFire(s, h, now, chats);
      case Remove(q) => TrackedRemove(s, q);
      case Restart(now) => TrackedRestart(s, now);
    }
  }

  lemma CreatedGrows(s: State, e: Step)
    ensures s.created <= Apply(s, e).created
  {
    hide Reloaded, Select, ClearAll, Clear, FindFirst, Name;
    match e {
      case Add(_, _, _, _, _, _, _, _, _) => AddCreates(s, e);
      case Remove(q) => RemoveFrame(s, q);
      case Restart(now) => ReloadedRows(Rebooted(s), s.rows, now);
      case _ =>
    }
  }

  /** As long as messages are told apart, every run keeps track. */
  lemma {:induction false} TrackedRun(es: seq<Step>)
    requires Apart(Run(Empty, es).created)
    ensures Once(Run(Empty, es)) && Tracked(Run(Empty, es))
  {
    hide Apply, Apart, Once, Tracked;
    if es == [] {
      EmptyTracked();
    } else {
      var s := Run(Empty, es[..|es| - 1]);
      ApartBefore(s, es[|es| - 1]);
      TrackedRun(es[..|es| - 1]);
      OnceStep(s, es[|es| - 1]);
      TrackedStep(s, es[|es| - 1]);
    }
  }

  lemma ApartBefore(s: State, e: Step)
    requires Apart(Apply(s, e).created)
    ensures Apart(s.created)
  {
    hide Apply;
    CreatedGrows(s, e);
    var c := Apply(s, e).created;
    assert forall i :: 0 <= i < |s.created| ==> s.created[i] == c[i];
  }

  lemma EmptyTracked()
    ensures Once(Empty) && Tracked(Empty)
  {
  }

  // ---------------------------------------------------------------- what cancelling achieves

  ghost predicate InSecondStage(s: State, t: Row) {
    exists h :: h in s.pending && s.pending[h] == Second(t)
  }

  ghost predicate RepaidLater(s: State, t: Row) {
    exists es :: t in Run(s, es).repaid
  }

  lemma GoneAfterRemoval(s: State, q: Query, t: Row)
    requires Once(s) && Tracked(s) && Apart(s.created)
    requires t in s.rows && Matches(q, t) && !InSecondStage(s, t)
    ensures var u := Apply(s, Remove(q)); Gone(u, t.id) && Unpaid(u, t.id)
  {
    hide Apply, Matches, Apart, Tracked, Select;
    var u := Apply(s, Remove(q));
    RemoveIs(s, q);
    forall r | r in u.rows
      ensures r.id != t.id
    {
      assert r in s.rows && !Matches(q, r);
    }
    forall h | h in u.pending
      ensures u.pending[h].row.id != t.id
    {
      assert Born(s, s.pending[h].row) && Born(s, t);
    }
  }

  lemma PendingIsDue(s: State, h: nat)
    requires Once(s) && h in s.pending
    ensures h in s.due
  {
  }

  lemma SecondStageSurvives(s: State, q: Query, t: Row)
    requires Once(s) && Tracked(s) && Apart(s.created) && InSecondStage(s, t)
    ensures RepaidLater(Apply(s, Remove(q)), t)
  {
    hide Matches, Apart, Tracked, Select, Once, FindFirst, ClearAll, Clear;
    var h :| h in s.pending && s.pending[h] == Second(t);
    var u := Apply(s, Remove(q));
    RemoveIs(s, q);
    PendingIsDue(s, h);
    var e := Fire(h, s.due[h], {(t.chatId, t.tenant)});
    assert [e][..0] == [];
    assert Run(u, [e]) == Apply(u, e);
    assert t in Run(u, [e]).repaid;
  }

  /** A cancelled row can still be repaid if and only if its timeout is in the second stage a
      restart gives it: that stage has no name in the table, and paying does not look for the row. */
  lemma CancelledUnlessSecondStage(es: seq<Step>, q: Query, t: Row)
    requires Apart(Run(Empty, es).created)
    requires t in Run(Empty, es).rows && Matches(q, t)
    ensures RepaidLater(Apply(Run(Empty, es), Remove(q)), t) <==> InSecondStage(Run(Empty, es), t)
  {
    hide Apply, Run, Matches, Apart, Tracked, Once, Gone, InSecondStage;
    var s := Run(Empty, es);
    var u := Apply(s, Remove(q));
    TrackedRun(es);
    if InSecondStage(s, t) {
      SecondStageSurvives(s, q, t);
    } else {
      GoneAfterRemoval(s, q, t);
      forall later
        ensures t !in Run(u, later).repaid
      {
        GoneStays(u, later, t.id);
      }
    }
  }

  /** Such a run exists: a row is added, the node restarts after it is due, the row is cancelled. */
  lemma SecondStageHappens()
    ensures var es := [Add(5, 100, 2, 7, "u", 1, 1, 0, {(1, 1)}), Restart(200)];
            var s := Run(Empty, es);
            && s.rows == [Row(0, 5, 100, 2, 7, "u", 1, 1)]
            && InSecondStage(s, s.rows[0])
  {
    hide Name;
    var a, b := Add(5, 100, 2, 7, "u", 1, 1, 0, {(1, 1)}), Restart(200);
    var t := Row(0, 5, 100, 2, 7, "u", 1, 1);
    var s1 := Apply(Empty, a);
    assert [a][..0] == [] && [a, b][..1] == [a];
    assert s1.rows == [t];
    assert [t][..0] == [];
    var s2 := Apply(s1, b);
    assert s2.pending[1] == Second(t);
    assert Run(Empty, [a]) == s1;
  }

  /** A timeout that has not reached the second stage is stored in the table under its row's name. */
  lemma StoredUnderName(es: seq<Step>, h: nat)
    requires Apart(Run(Empty, es).created) && h in Run(Empty, es).pending
    ensures var s := Run(Empty, es);
            var t := s.pending[h].row;
            !s.pending[h].Second? <==> Name(t) in s.timerz && s.timerz[Name(t)] == h
  {
    hide Run, Name;
    TrackedRun(es);
    var s := Run(Empty, es);
    if !s.pending[h].Second? {
      assert Named(s, h);
    } else if Name(s.pending[h].row) in s.timerz {
      assert Points(s, Name(s.pending[h].row));
    }
  }
}
