/** Escrow held by a tribe owner: timer rows in the database and the timeouts armed for them. */
module Timers {
  import opened Options
  import opened Text

  datatype Row = Row(id: nat, amount: nat, millis: int, receiver: nat, msgId: nat, msgUuid: string,
                     chatId: nat, tenant: nat)

  /** What a pending timeout will do: pay back, or (after a restart) wait once more and then pay. */
  datatype Timeout = First(row: Row) | Reload(row: Row, place: nat) | Second(row: Row)

  /** created is every row there ever was, by number; due is when each timeout fires at the earliest;
      repaid is every repayment, in order. */
  datatype State = State(created: seq<Row>, rows: seq<Row>, pending: map<nat, Timeout>, due: map<nat, int>,
                         timerz: map<string, nat>, handles: nat, repaid: seq<Row>)

  const Empty := State([], [], map[], map[], map[], 0, [])

  /** The longest delay of a timeout; a longer one, and one of no time, is a millisecond. */
  const MAX_DELAY := 0x7FFF_FFFF

  function Delay(ms: int): int {
    if ms < 1 || ms > MAX_DELAY then 1 else ms
  }

  function Name(t: Row): string {
    Decimal(t.chatId) + "_" + Decimal(t.receiver) + "_" + Decimal(t.msgId)
  }

  // ---------------------------------------------------------------- the single operations

  datatype Query =
    | ById(id: nat)
    | ByMsgUuid(msgUuid: string)
    | ByContact(contactId: nat, tenant: nat)
    | ByContactAndChat(contactId: nat, chatId: nat, tenant: nat)

  predicate Matches(q: Query, t: Row) {
    match q
    case ById(id) => t.id == id
    case ByMsgUuid(uuid) => t.msgUuid == uuid
    case ByContact(contactId, tenant) => t.receiver == contactId && t.tenant == tenant
    case ByContactAndChat(contactId, chatId, tenant) =>
      t.receiver == contactId && t.chatId == chatId && t.tenant == tenant
  }

  /** The rows that match a query, or those that do not. */
  function Select(rows: seq<Row>, q: Query, want: bool): (r: seq<Row>)
    ensures forall t :: t in r <==> t in rows && Matches(q, t) == want
  {
    if rows == [] then []
    else
      var m := |rows| - 1;
      var r := Select(rows[..m], q, want);
      assert rows == rows[..m] + [rows[m]];
      if Matches(q, rows[m]) == want then r + [rows[m]] else r
  }

  function FindFirst(rows: seq<Row>, q: Query): (t: Option<Row>)
    ensures t.Some? ==> t.value in rows && Matches(q, t.value)
    ensures t.None? ==> forall u :: u in rows ==> !Matches(q, u)
  {
    if rows == [] then None
    else if Matches(q, rows[0]) then Some(rows[0])
    else FindFirst(rows[1..], q)
  }

  function Destroy(s: State, q: Query): State {
    s.(rows := Select(s.rows, q, false))
  }

  /** A timeout nobody has a name for. */
  function Arm(s: State, t: Timeout, due: int): State {
    s.(pending := s.pending[s.handles := t], due := s.due[s.handles := due], handles := s.handles + 1)
  }

  /** A pending timeout whose time has come. */
  predicate Ripe(s: State, h: nat, now: int) {
    h in s.pending && h in s.due && s.due[h] <= now
  }

  /** Pays a row back; chats tells whether its chat still exists. */
  function PayBack(s: State, t: Row, chats: set<(nat, nat)>): State {
    Destroy(if (t.chatId, t.tenant) in chats then s.(repaid := s.repaid + [t]) else s, ById(t.id))
  }

  /** A row read after a restart waits some more, the later the more, so that not all are paid at once. */
  function Stagger(place: nat): nat {
    place * 999
  }

  function Callback(s: State, t: Timeout, now: int, chats: set<(nat, nat)>): State {
    match t
    case First(row) => PayBack(s, row, chats)
    case Second(row) => PayBack(s, row, chats)
    case Reload(row, place) => Arm(s, Second(row), now + Delay(Stagger(place)))
  }

  function SetTimer(s: State, name: string, when: int, now: int, t: Timeout, chats: set<(nat, nat)>): State {
    if when < now then Callback(s, t, now, chats)
    else Arm(s, t, now + Delay(when - now)).(timerz := s.timerz[name := s.handles])
  }

  function Clear(s: State, t: Option<Row>): State {
    if t.Some? && Name(t.value) in s.timerz then s.(pending := s.pending - {s.timerz[Name(t.value)]}) else s
  }

  function ClearAll(s: State, ts: seq<Row>): State {
    if ts == [] then s else Clear(ClearAll(s, ts[..|ts| - 1]), Some(ts[|ts| - 1]))
  }

  function Create(s: State, t: Row): State {
    s.(created := s.created + [t], rows := s.rows + [t])
  }

  function Reloaded(s: State, ts: seq<Row>, now: int): State {
    if ts == [] then s
    else
      var m := |ts| - 1;
      SetTimer(Reloaded(s, ts[..m], now), Name(ts[m]), ts[m].millis, now, Reload(ts[m], m), {})
  }

  // ---------------------------------------------------------------- steps and runs

  datatype Step =
    | Add(amount: nat, millis: int, receiver: nat, msgId: nat, msgUuid: string, chatId: nat, tenant: nat, now: int,
          chats: set<(nat, nat)>)
    | Fire(handle: nat, now: int, chats: set<(nat, nat)>)
    | Remove(query: Query)
    | Restart(now: int)

  function NewRow(s: State, e: Step): Row
    requires e.Add?
  {
    Row(|s.created|, e.amount, e.now + e.millis, e.receiver, e.msgId, e.msgUuid, e.chatId, e.tenant)
  }

  function Apply(s: State, e: Step): State {
    match e
    case Add(_, _, _, _, _, _, _, now, chats) =>
      var t := NewRow(s, e);
      SetTimer(Create(s, t), Name(t), t.millis, now, First(t), chats)
    case Fire(h, now, chats) =>
      if Ripe(s, h, now) then Callback(s.(pending := s.pending - {h}), s.pending[h], now, chats) else s
    case Remove(q) =>
      Destroy(if q.ByMsgUuid? then Clear(s, FindFirst(s.rows, q)) else ClearAll(s, Select(s.rows, q, true)), q)
    case Restart(now) =>
      Reloaded(s.(pending := map[], timerz := map[]), s.rows, now)
  }

  ghost function Run(s: State, es: seq<Step>): State {
    if es == [] then s else Apply(Run(s, es[..|es| - 1]), es[|es| - 1])
  }

  // ---------------------------------------------------------------- the module's variables

  class Node {
    var rows: seq<Row>
    var nextId: nat
    var pending: map<nat, Timeout>
    var due: map<nat, int>
    var timerz: map<string, nat>
    var handles: nat
    var repaid: seq<Row>
    ghost var created: seq<Row>

    ghost predicate Valid()
      reads this
    {
      nextId == |created|
    }

    ghost function View(): State
      reads this
    {
      State(created, rows, pending, due, timerz, handles, repaid)
    }

    constructor ()
      ensures Valid() && View() == Empty
    {
      rows, nextId, pending, due, timerz, handles, repaid, created := [], 0, map[], map[], map[], 0, [], [];
    }

    method DestroyRows(q: Query)
      requires Valid()
      modifies this`rows
      ensures Valid() && View() == Destroy(old(View()), q)
    {
      rows := Select(rows, q, false);
    }

    method SetTimeout(t: Timeout, now: int, ms: int) returns (handle: nat)
      requires Valid()
      modifies this`pending, this`due, this`handles
      ensures Valid() && View() == Arm(old(View()), t, now + Delay(ms)) && handle == old(handles)
    {
      handle := handles;
      pending := pending[handle := t];
      due := due[handle := now + Delay(ms)];
      handles := handles + 1;
    }

    method PayBackRow(t: Row, chats: set<(nat, nat)>)
      requires Valid()
      modifies this
      ensures Valid() && View() == PayBack(old(View()), t, chats)
    {
      hide Select;
      if (t.chatId, t.tenant) !in chats {
        DestroyRows(ById(t.id));
        return;
      }
      repaid := repaid + [t];
      DestroyRows(ById(t.id));
    }

    method Call(t: Timeout, now: int, chats: set<(nat, nat)>)
      requires Valid()
      modifies this
      ensures Valid() && View() == Callback(old(View()), t, now, chats)
    {
      hide PayBack, Arm, Delay;
      match t {
        case First(row) => PayBackRow(row, chats);
        case Second(row) => PayBackRow(row, chats);
        case Reload(row, place) => var _ := SetTimeout(Second(row), now, place * 999);
      }
    }

    method SetNamedTimer(name: string, when: int, now: int, t: Timeout, chats: set<(nat, nat)>)
      requires Valid()
      modifies this
      ensures Valid() && View() == SetTimer(old(View()), name, when, now, t, chats)
    {
      hide Callback, Delay;
      if when - now < 0 {
        Call(t, now, chats);
      } else {
        var handle := SetTimeout(t, now, when - now);
        timerz := timerz[name := handle];
      }
    }

    method AddTimer(amount: nat, millis: int, receiver: nat, msgId: nat, msgUuid: string, chatId: nat, tenant: nat,
                    now: int, chats: set<(nat, nat)>)
      requires Valid()
      modifies this
      ensures Valid()
      ensures View() == Apply(old(View()), Add(amount, millis, receiver, msgId, msgUuid, chatId, tenant, now, chats))
    {
      hide Name, SetTimer;
      var when := now + millis;
      var t := Row(nextId, amount, when, receiver, msgId, msgUuid, chatId, tenant);
      created := created + [t];
      nextId := nextId + 1;
      rows := rows + [t];
      SetNamedTimer(Name(t), when, now, First(t), chats);
    }

    method FireTimeout(handle: nat, now: int, chats: set<(nat, nat)>)
      requires Valid()
      modifies this
      ensures Valid() && View() == Apply(old(View()), Fire(handle, now, chats))
    {
      hide Callback;
      if handle in pending && handle in due && due[handle] <= now {
        var t := pending[handle];
        pending := pending - {handle};
        Call(t, now, chats);
      }
    }

    method ClearTimer(t: Option<Row>)
      requires Valid()
      modifies this`pending
      ensures Valid() && View() == Clear(old(View()), t)
    {
      hide Name;
      if t.Some? {
        var name := Name(t.value);
        if name in timerz {
          pending := pending - {timerz[name]};
        }
      }
    }

    method ClearTimers(ts: seq<Row>)
      requires Valid()
      modifies this`pending
      ensures Valid() && View() == ClearAll(old(View()), ts)
    {
      hide Clear;
      var k := 0;
      while k < |ts|
        invariant 0 <= k <= |ts|
        invariant Valid() && View() == ClearAll(old(View()), ts[..k])
      {
        assert ts[..k + 1][..k] == ts[..k];
        ClearTimer(Some(ts[k]));
        k := k + 1;
      }
      assert ts[..k] == ts;
    }

    method RemoveTimerByMsgId(msgUuid: string)
      requires Valid()
      modifies this
      ensures Valid() && View() == Apply(old(View()), Remove(ByMsgUuid(msgUuid)))
    {
      hide Clear, Destroy, FindFirst;
      var q := ByMsgUuid(msgUuid);
      var t := FindFirst(rows, q);
      ClearTimer(t);
      DestroyRows(q);
    }

    method RemoveTimersByContactId(contactId: nat, tenant: nat)
      requires Valid()
      modifies this
      ensures Valid() && View() == Apply(old(View()), Remove(ByContact(contactId, tenant)))
    {
      hide ClearAll, Destroy, Select;
      var q := ByContact(contactId, tenant);
      var ts := Select(rows, q, true);
      ClearTimers(ts);
      DestroyRows(q);
    }

    method RemoveTimersByContactIdChatId(contactId: nat, chatId: nat, tenant: nat)
      requires Valid()
      modifies this
      ensures Valid() && View() == Apply(old(View()), Remove(ByContactAndChat(contactId, chatId, tenant)))
    {
      hide ClearAll, Destroy, Select;
      var q := ByContactAndChat(contactId, chatId, tenant);
      var ts := Select(rows, q, true);
      ClearTimers(ts);
      DestroyRows(q);
    }

    /** A new process: no timeout is left of the old one, the rows are read from the database. */
    method ReloadTimers(now: int)
      requires Valid()
      modifies this
      ensures Valid() && View() == Apply(old(View()), Restart(now))
    {
      hide SetTimer, Name;
      pending, timerz := map[], map[];
      var ts := rows;
      ghost var from := View();
      var i := 0;
      while i < |ts|
        invariant 0 <= i <= |ts|
        invariant Valid() && View() == Reloaded(from, ts[..i], now)
      {
        assert ts[..i + 1][..i] == ts[..i];
        SetNamedTimer(Name(ts[i]), ts[i].millis, now, Reload(ts[i], i), {});
        i := i + 1;
      }
      assert ts[..i] == ts;
    }
  }
}
