/** What holds of escrow timers over whole runs. */
module TimerRuns {
  import opened Options
  import opened Timers

  ghost predicate Born(s: State, t: Row) {
    t.id < |s.created| && s.created[t.id] == t
  }

  ghost predicate Numbered(created: seq<Row>) {
    forall i :: 0 <= i < |created| ==> created[i].id == i
  }

  ghost predicate DistinctIds(rows: seq<Row>) {
    forall i, j :: 0 <= i < j < |rows| ==> rows[i].id != rows[j].id
  }

  /** No timeout is pending for a row. */
  ghost predicate Idle(s: State, id: nat) {
    forall h :: h in s.pending ==> s.pending[h].row.id != id
  }

  ghost predicate Unpaid(s: State, id: nat) {
    forall t :: t in s.repaid ==> t.id != id
  }

  ghost predicate Absent(s: State, id: nat) {
    forall t :: t in s.rows ==> t.id != id
  }

  ghost predicate PendingOnce(s: State) {
    && (forall h :: h in s.pending ==> h < s.handles && h in s.due && Born(s, s.pending[h].row))
    && forall h, k :: h in s.pending && k in s.pending && h != k ==> s.pending[h].row.id != s.pending[k].row.id
  }

  /** Every row is armed at most once, and a repaid one is gone for good. */
  ghost predicate Once(s: State) {
    && Numbered(s.created)
    && (forall t :: t in s.rows ==> Born(s, t))
    && DistinctIds(s.rows)
    && PendingOnce(s)
    && (forall t :: t in s.repaid ==> Born(s, t) && Idle(s, t.id) && Absent(s, t.id))
    && DistinctIds(s.repaid)
  }

  lemma DistinctMore(rows: seq<Row>, t: Row)
    requires DistinctIds(rows) && forall u :: u in rows ==> u.id != t.id
    ensures DistinctIds(rows + [t])
  {
  }

  lemma DistinctLess(rows: seq<Row>)
    requires DistinctIds(rows) && rows != []
    ensures var h, t := rows[..|rows| - 1], rows[|rows| - 1];
            DistinctIds(h) && forall u :: u in h ==> u.id != t.id
  {
  }

  lemma {:induction false} SelectDistinct(rows: seq<Row>, q: Query, want: bool)
    requires DistinctIds(rows)
    ensures DistinctIds(Select(rows, q, want))
  {
    hide DistinctIds, Matches;
    if rows == [] {
      DistinctNone();
    } else {
      var m := |rows| - 1;
      DistinctLess(rows);
      SelectDistinct(rows[..m], q, want);
      DistinctSelect(rows, q, want);
    }
  }

  lemma DistinctNone()
    ensures DistinctIds([])
  {
  }

  lemma DistinctSelect(rows: seq<Row>, q: Query, want: bool)
    requires rows != [] && DistinctIds(Select(rows[..|rows| - 1], q, want))
    requires forall u :: u in rows[..|rows| - 1] ==> u.id != rows[|rows| - 1].id
    ensures DistinctIds(Select(rows[..|rows| - 1], q, want) + [rows[|rows| - 1]])
  {
    hide Select, Matches;
    var h := rows[..|rows| - 1];
    assert forall u :: u in Select(h, q, want) ==> u in h;
    DistinctMore(Select(h, q, want), rows[|rows| - 1]);
  }

  lemma OnceDestroy(s: State, q: Query)
    requires Once(s)
    ensures Once(Destroy(s, q))
  {
    hide Select, Matches;
    SelectDistinct(s.rows, q, false);
  }

  lemma OnceUnpend(s: State, h: nat)
    requires Once(s)
    ensures Once(s.(pending := s.pending - {h}))
    ensures h in s.pending ==> Idle(s.(pending := s.pending - {h}), s.pending[h].row.id)
  {
  }

  lemma OnceArm(s: State, t: Timeout, due: int)
    requires Once(s) && Born(s, t.row) && Idle(s, t.row.id) && Unpaid(s, t.row.id)
    ensures Once(Arm(s, t, due))
  {
    hide DistinctIds, Numbered;
  }

  lemma OncePayBack(s: State, t: Row, chats: set<(nat, nat)>)
    requires Once(s) && Born(s, t) && Idle(s, t.id) && Unpaid(s, t.id)
    ensures Once(PayBack(s, t, chats))
    ensures PayBack(s, t, chats).created == s.created
  {
    hide Select, DistinctIds;
    SelectDistinct(s.rows, ById(t.id), false);
    DistinctMore(s.repaid, t);
  }

  lemma OnceCallback(s: State, t: Timeout, now: int, chats: set<(nat, nat)>)
    requires Once(s) && Born(s, t.row) && Idle(s, t.row.id) && Unpaid(s, t.row.id)
    ensures Once(Callback(s, t, now, chats))
  {
    hide Once, PayBack, Arm, Born, Idle, Unpaid;
    match t {
      case First(row) => OncePayBack(s, row, chats);
      case Second(row) => OncePayBack(s, row, chats);
      case Reload(row, place) => OnceArm(s, Second(row), now + Delay(Stagger(place)));
    }
  }

  lemma OnceSetTimer(s: State, name: string, when: int, now: int, t: Timeout, chats: set<(nat, nat)>)
    requires Once(s) && Born(s, t.row) && Idle(s, t.row.id) && Unpaid(s, t.row.id)
    ensures Once(SetTimer(s, name, when, now, t, chats))
  {
    hide Once, Born, Idle, Unpaid, Callback, Arm;
    if when < now {
      OnceCallback(s, t, now, chats);
    } else {
      OnceArm(s, t, now + Delay(when - now));
      OnceNames(Arm(s, t, now + Delay(when - now)), s.timerz[name := s.handles]);
    }
  }

  lemma OnceNames(s: State, timerz: map<string, nat>)
    requires Once(s)
    ensures Once(s.(timerz := timerz))
  {
  }

  lemma OnceClear(s: State, t: Option<Row>)
    requires Once(s)
    ensures Once(Clear(s, t))
  {
    hide Once, Name;
    if t.Some? && Name(t.value) in s.timerz {
      OnceUnpend(s, s.timerz[Name(t.value)]);
    }
  }

  lemma {:induction false} OnceClearAll(s: State, ts: seq<Row>)
    requires Once(s)
    ensures Once(ClearAll(s, ts))
  {
    hide Once, Clear;
    if ts != [] {
      OnceClearAll(s, ts[..|ts| - 1]);
      OnceClear(ClearAll(s, ts[..|ts| - 1]), Some(ts[|ts| - 1]));
    }
  }

  lemma OnceCreate(s: State, t: Row)
    requires Once(s) && t.id == |s.created|
    ensures var u := Create(s, t);
            Once(u) && Born(u, t) && Idle(u, t.id) && Unpaid(u, t.id)
  {
    hide DistinctIds;
    DistinctMore(s.rows, t);
  }

  /** The rows a restart has still to arm are as they were. */
  ghost predicate Waiting(s: State, ts: seq<Row>, k: nat)
    requires k <= |ts|
  {
    && (forall i :: k <= i < |ts| ==> Born(s, ts[i]) && Idle(s, ts[i].id) && Unpaid(s, ts[i].id))
  }

  lemma Places(s: State, name: string, when: int, now: int, t: Timeout)
    requires t.Reload?
    ensures var u := SetTimer(s, name, when, now, t, {});
            && u.rows == s.rows && u.created == s.created && u.repaid == s.repaid && u.handles == s.handles + 1
            && u.pending == s.pending[s.handles := if when < now then Second(t.row) else t]
            && u.timerz == if when < now then s.timerz else s.timerz[name := s.handles]
  {
  }

  lemma WaitingStep(s: State, name: string, when: int, now: int, ts: seq<Row>, k: nat)
    requires k < |ts| && DistinctIds(ts) && Waiting(s, ts, k)
    ensures Waiting(SetTimer(s, name, when, now, Reload(ts[k], k), {}), ts, k + 1)
  {
    hide SetTimer;
    Places(s, name, when, now, Reload(ts[k], k));
  }

  lemma {:induction false} OnceReloaded(s: State, ts: seq<Row>, k: nat, now: int)
    requires Once(s) && k <= |ts| && DistinctIds(ts) && Waiting(s, ts, 0)
    ensures Once(Reloaded(s, ts[..k], now)) && Waiting(Reloaded(s, ts[..k], now), ts, k)
  {
    hide Once, Waiting, DistinctIds, SetTimer, Name, Born, Idle, Unpaid;
    if k == 0 {
      assert ts[..0] == [];
    } else {
      OnceReloaded(s, ts, k - 1, now);
      assert ts[..k][..k - 1] == ts[..k - 1];
      var r := Reloaded(s, ts[..k - 1], now);
      NextWaits(r, ts, k - 1);
      OnceSetTimer(r, Name(ts[k - 1]), ts[k - 1].millis, now, Reload(ts[k - 1], k - 1), {});
      WaitingStep(r, Name(ts[k - 1]), ts[k - 1].millis, now, ts, k - 1);
    }
  }

  lemma NextWaits(s: State, ts: seq<Row>, k: nat)
    requires k < |ts| && Waiting(s, ts, k)
    ensures Born(s, ts[k]) && Idle(s, ts[k].id) && Unpaid(s, ts[k].id)
  {
  }

  function Rebooted(s: State): State {
    s.(pending := map[], timerz := map[])
  }

  lemma OnceRebooted(s: State)
    requires Once(s)
    ensures Once(Rebooted(s)) && DistinctIds(s.rows) && Waiting(Rebooted(s), s.rows, 0)
  {
  }

  lemma OnceFire(s: State, h: nat, now: int, chats: set<(nat, nat)>)
    requires Once(s)
    ensures Once(Apply(s, Fire(h, now, chats)))
  {
    hide Callback, Born, Idle, Unpaid;
    if h in s.pending {
      var u := s.(pending := s.pending - {h});
      OnceUnpend(s, h);
      FiredIsUnpaid(s, h);
      hide Once;
      OnceCallback(u, s.pending[h], now, chats);
    }
  }

  lemma FiredIsUnpaid(s: State, h: nat)
    requires Once(s) && h in s.pending
    ensures var u := s.(pending := s.pending - {h});
            Born(u, s.pending[h].row) && Unpaid(u, s.pending[h].row.id)
  {
  }

  /** Every step keeps the invariant. */
  lemma OnceStep(s: State, e: Step)
    requires Once(s)
    ensures Once(Apply(s, e))
  {
    hide Once, Destroy, Clear, ClearAll, FindFirst, Select, SetTimer, Create, Born, Idle, Unpaid, Reloaded, Name, Callback;
    match e {
      case Add(_, _, _, _, _, _, _, now, chats) =>
        var t := NewRow(s, e);
        OnceCreate(s, t);
        OnceSetTimer(Create(s, t), Name(t), t.millis, now, First(t), chats);
      case Fire(h, now, chats) =>
        OnceFire(s, h, now, chats);
      case Remove(q) =>
        OnceClear(s, FindFirst(s.rows, q));
        OnceClearAll(s, Select(s.rows, q, true));
        OnceDestroy(if q.ByMsgUuid? then Clear(s, FindFirst(s.rows, q)) else ClearAll(s, Select(s.rows, q, true)), q);
      case Restart(now) =>
        OnceRebooted(s);
        OnceReloaded(Rebooted(s), s.rows, |s.rows|, now);
        assert s.rows[..|s.rows|] == s.rows;
    }
  }

  lemma {:induction false} OnceRun(s: State, es: seq<Step>)
    requires Once(s)
    ensures Once(Run(s, es))
  {
    hide Once, Apply;
    if es != [] {
      OnceRun(s, es[..|es| - 1]);
      OnceStep(Run(s, es[..|es| - 1]), es[|es| - 1]);
    }
  }

  /** Over every run no row is repaid twice, and what is repaid is a row that was added. */
  lemma AtMostOnce(es: seq<Step>)
    ensures var s := Run(Empty, es);
            DistinctIds(s.repaid) && forall t :: t in s.repaid ==> t in s.created
  {
    hide Apply;
    assert Once(Empty);
    OnceRun(Empty, es);
  }
}
