/** Sending one message to a chat: whom it goes to, in what order, and who is paid. */
module Broadcast {
  import opened Options
  import Lightning = Keysend

  /** A contact; hosted tells whether it lives on the same proxy as the sender. */
  datatype Contact = Contact(key: string, isOwner: bool, hosted: bool)

  /** One call: the chat, the sender's database, and the amount meant for one contact.
      payee is 0 when there is no such contact; original is the sender of the stored message. */
  datatype Call = Call(tenant: int, tribe: bool, ownsChat: bool, confirmation: bool, hidden: bool,
                       contactIds: seq<int>, chatOwner: Option<int>, contacts: map<int, Contact>,
                       skipKey: Option<string>, payee: int, amount: nat, min: nat, proxy: bool,
                       original: Option<int>)

  /** What happens, in order; ok tells whether an attempt to send went through. */
  datatype Event =
    | Score(id: int, amt: nat)
    | Keysend(id: int, amt: nat, ok: bool)
    | Publish(id: int, ok: bool)
    | HandOver(id: int, ok: bool)
    | Reversal(id: int, amt: nat)

  datatype Outcome = Called(success: bool) | Silent | Thrown

  predicate TribeOwner(c: Call) {
    c.tribe && c.ownsChat
  }

  predicate JustMe(c: Call) {
    c.contactIds == [c.tenant] || (TribeOwner(c) && c.hidden)
  }

  function Recipients(c: Call): seq<int> {
    if c.tribe && !c.ownsChat then if c.chatOwner.Some? then [c.chatOwner.value] else []
    else c.contactIds
  }

  /** The position of the first x, or -1. */
  function IndexOf(s: seq<int>, x: int): (i: int)
    ensures -1 <= i < |s|
    ensures i >= 0 ==> s[i] == x && x !in s[..i]
    ensures i < 0 ==> x !in s
  {
    if s == [] then -1
    else if s[0] == x then 0
    else
      var i := IndexOf(s[1..], x);
      if i < 0 then -1 else i + 1
  }

  /** The list with its first x moved to the front. */
  function MovedToFront(s: seq<int>, x: int): (r: seq<int>)
    ensures multiset(r) == multiset(s)
    ensures x in s ==> r != [] && r[0] == x
  {
    var i := IndexOf(s, x);
    if i > 0 then
      assert s == s[..i] + [s[i]] + s[i + 1..];
      [s[i]] + s[..i] + s[i + 1..]
    else s
  }

  predicate Skipped(c: Call, id: int) {
    || id == c.tenant
    || id !in c.contacts
    || (c.tenant == -1 && c.contacts[id].isOwner)
    || c.skipKey == Some(c.contacts[id].key)
  }

  /** The contact that is paid by the owner of a tribe. */
  predicate Forced(c: Call, id: int) {
    TribeOwner(c) && c.amount > 0 && c.payee != 0 && c.payee == id
  }

  function Attempt(c: Call, id: int, ok: bool): Event
    requires id in c.contacts
  {
    if TribeOwner(c) && !Forced(c, id) then
      if c.proxy && c.contacts[id].hosted then HandOver(id, ok) else Publish(id, ok)
    else Keysend(id, Lightning.Clamp(c.amount, c.min), ok)
  }

  function Visit(c: Call, id: int, ok: bool): seq<Event>
    requires id in c.contacts
  {
    if Forced(c, id) then [Score(id, c.amount), Attempt(c, id, ok)] else [Attempt(c, id, ok)]
  }

  /** Giving the sats back to the sender of the original message. */
  function Reversals(c: Call): seq<Event> {
    if c.original.Some? && c.original.value != c.tenant && c.original.value in c.contacts
    then [Reversal(c.original.value, Lightning.Clamp(c.amount, c.min))] else []
  }

  /** The loop's variables: what happened, whether some send failed, whether the loop was left. */
  datatype Progress = Progress(log: seq<Event>, no: bool, stopped: bool)

  function Advance(c: Call, p: Progress, id: int, works: int -> bool): Progress {
    if p.stopped || Skipped(c, id) then p
    else if works(id) then p.(log := p.log + Visit(c, id, true))
    else if c.payee != 0 && id == c.payee then Progress(p.log + Visit(c, id, false) + Reversals(c), true, true)
    else Progress(p.log + Visit(c, id, false), true, false)
  }

  function Walk(c: Call, ids: seq<int>, works: int -> bool): Progress {
    if ids == [] then Progress([], false, false)
    else Advance(c, Walk(c, ids[..|ids| - 1], works), ids[|ids| - 1], works)
  }

  datatype Sent = Sent(log: seq<Event>, outcome: Outcome)

  /** The whole call. */
  function Send(c: Call, works: int -> bool): Sent {
    if c.tenant == 0 || (c.tribe && c.confirmation && !c.ownsChat) then Sent([], Silent)
    else if JustMe(c) then Sent([], Called(true))
    else SendTo(c, Recipients(c), works)
  }

  /** The call once its recipients are known. */
  function SendTo(c: Call, ids: seq<int>, works: int -> bool): Sent {
    if c.payee != 0 && c.payee !in ids then Sent(Reversals(c), if c.original.Some? then Silent else Thrown)
    else Finished(c, Walk(c, MovedToFront(ids, c.payee), works))
  }

  function Finished(c: Call, p: Progress): Sent {
    Sent(p.log, if p.stopped && c.original.None? then Thrown else Called(!p.no))
  }

  /** Gives the sats back; throws when the original message is not stored. */
  method InitiateReversal(c: Call) returns (log: seq<Event>, threw: bool)
    ensures log == Reversals(c) && threw == c.original.None?
  {
    log := [];
    if c.original.None? {
      return log, true;
    }
    if c.original.value != c.tenant {
      if c.original.value in c.contacts {
        log := [Reversal(c.original.value, Lightning.Clamp(c.amount, c.min))];
      }
    }
    return log, false;
  }

  /** The loop over the contacts. */
  method SendToAll(c: Call, ids: seq<int>, works: int -> bool) returns (log: seq<Event>, outcome: Outcome)
    ensures Sent(log, outcome) == Finished(c, Walk(c, ids, works))
  {
    hide Skipped, Reversals, Visit;
    log := [];
    var no := false;
    var k := 0;
    while k < |ids|
      invariant 0 <= k <= |ids|
      invariant Progress(log, no, false) == Walk(c, ids[..k], works)
    {
      assert ids[..k + 1][..k] == ids[..k];
      var id := ids[k];
      k := k + 1;
      if Skipped(c, id) {
        continue;
      }
      Known(c, id);
      log := log + Visit(c, id, works(id));
      if !works(id) {
        no := true;
        if c.payee != 0 && id == c.payee {
          var back, threw := InitiateReversal(c);
          log := log + back;
          Stays(c, ids, k, works);
          return log, if threw then Thrown else Called(false);
        }
      }
    }
    assert ids[..k] == ids;
    outcome := Called(!no);
  }

  /** The contact to be paid is served first, or not found at all. */
  method SendInOrder(c: Call, contactIds: seq<int>, works: int -> bool) returns (log: seq<Event>, outcome: Outcome)
    ensures Sent(log, outcome) == SendTo(c, contactIds, works)
  {
    hide MovedToFront, Reversals, Walk, Finished;
    var realSatsIndex := IndexOf(contactIds, c.payee);
    if c.payee != 0 && realSatsIndex < 0 {
      var threw;
      log, threw := InitiateReversal(c);
      return log, if threw then Thrown else Silent;
    }
    var ids := contactIds;
    if realSatsIndex > 0 {
      ids := [ids[realSatsIndex]] + ids[..realSatsIndex] + ids[realSatsIndex + 1..];
    }
    Front(contactIds, c.payee);
    log, outcome := SendToAll(c, ids, works);
  }

  /** works tells for which contacts personalising and sending go through. */
  method SendMessage(c: Call, works: int -> bool) returns (log: seq<Event>, outcome: Outcome)
    ensures Sent(log, outcome) == Send(c, works)
  {
    hide SendTo;
    log := [];
    if c.tenant == 0 {
      return log, Silent;
    }
    var isTribeOwner := c.tribe && c.ownsChat;
    var justMe := |c.contactIds| == 1 && c.contactIds[0] == c.tenant;
    assert justMe <==> c.contactIds == [c.tenant];
    var contactIds := c.contactIds;
    if c.tribe {
      if c.confirmation && !isTribeOwner {
        return log, Silent;
      }
      if isTribeOwner && c.hidden {
        justMe := true;
      }
      if justMe {
        return log, Called(true);
      }
      if !isTribeOwner {
        contactIds := if c.chatOwner.Some? then [c.chatOwner.value] else [];
      }
    } else if justMe {
      return log, Called(true);
    }
    hide JustMe, TribeOwner, SendTo;
    assert !JustMe(c) && contactIds == Recipients(c);
    log, outcome := SendInOrder(c, contactIds, works);
  }

  lemma Front(s: seq<int>, x: int)
    ensures MovedToFront(s, x) == var i := IndexOf(s, x); if i > 0 then [s[i]] + s[..i] + s[i + 1..] else s
  {
  }

  lemma Known(c: Call, id: int)
    requires !Skipped(c, id)
    ensures id in c.contacts
  {
  }

  /** A loop that was left does nothing more. */
  lemma {:induction false} Stays(c: Call, ids: seq<int>, k: nat, works: int -> bool)
    requires k <= |ids| && Walk(c, ids[..k], works).stopped
    ensures Walk(c, ids, works) == Walk(c, ids[..k], works)
    decreases |ids| - k
  {
    hide Skipped, Visit, Reversals;
    if k == |ids| {
      assert ids[..k] == ids;
    } else {
      assert ids[..k + 1][..k] == ids[..k];
      Stays(c, ids, k + 1, works);
    }
  }
}
