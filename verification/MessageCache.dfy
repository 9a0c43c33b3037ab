/** Messages of the database and of a remote cache, merged without repeating any. */
module MessageCache {

  /** A message; chatId is the field chat_id, which only messages of the cache have (0 for none);
      cacheable tells whether its type is one the cache keeps. */
  datatype Message = Message(uuid: string, chatId: nat, cacheable: bool, content: string)

  datatype State = State(kept: seq<Message>, byUuid: map<string, Message>, removed: nat)

  /** The position of the first message with a uuid, or -1. */
  function FindIndex(ms: seq<Message>, uuid: string): (i: int)
    ensures -1 <= i < |ms|
    ensures i >= 0 ==> ms[i].uuid == uuid
    ensures i < 0 ==> forall k :: 0 <= k < |ms| ==> ms[k].uuid != uuid
  {
    if ms == [] then -1
    else if ms[0].uuid == uuid then 0
    else
      var i := FindIndex(ms[1..], uuid);
      if i < 0 then -1 else i + 1
  }

  function RemoveFirst(ms: seq<Message>, uuid: string): seq<Message> {
    var i := FindIndex(ms, uuid);
    if i < 0 then ms else ms[..i] + ms[i + 1..]
  }

  predicate Replaces(s: State, m: Message) {
    m.cacheable && m.uuid in s.byUuid && s.byUuid[m.uuid].chatId == 0
  }

  function Step(s: State, m: Message): State {
    if Replaces(s, m) then State(RemoveFirst(s.kept, m.uuid) + [m], s.byUuid[m.uuid := m], s.removed + 1)
    else State(s.kept + [m], s.byUuid[m.uuid := m], s.removed)
  }

  function Fold(ms: seq<Message>): State {
    if ms == [] then State([], map[], 0) else Step(Fold(ms[..|ms| - 1]), ms[|ms| - 1])
  }

  /** Every message looked up by its uuid has one of that uuid in the list. */
  ghost predicate Present(s: State) {
    forall u :: u in s.byUuid ==> FindIndex(s.kept, u) >= 0
  }

  lemma FoundIfIn(ms: seq<Message>, m: Message)
    requires m in ms
    ensures FindIndex(ms, m.uuid) >= 0
  {
    hide FindIndex;
    var k :| 0 <= k < |ms| && ms[k] == m;
    assert ms[k].uuid == m.uuid;
  }

  lemma PresentStep(s: State, m: Message)
    requires Present(s)
    ensures Present(Step(s, m))
  {
    hide FindIndex;
    var t := Step(s, m);
    forall u | u in t.byUuid
      ensures FindIndex(t.kept, u) >= 0
    {
      if u == m.uuid {
        assert t.kept[|t.kept| - 1] == m;
        FoundIfIn(t.kept, m);
      } else {
        var i := FindIndex(s.kept, u);
        var x := s.kept[i];
        var j := FindIndex(s.kept, m.uuid);
        assert x in t.kept by {
          StaysIn(s.kept, i, j, m, t.kept);
        }
        FoundIfIn(t.kept, x);
      }
    }
  }

  lemma StaysIn(ms: seq<Message>, i: nat, j: int, m: Message, r: seq<Message>)
    requires i < |ms| && i != j && j < |ms|
    requires r == ms + [m] || (0 <= j && r == ms[..j] + ms[j + 1..] + [m]) || (j < 0 && r == ms + [m])
    ensures ms[i] in r
  {
    if r != ms + [m] {
      if i < j {
        assert r[i] == ms[i];
      } else {
        assert r[i - 1] == ms[i];
      }
    } else {
      assert r[i] == ms[i];
    }
  }

  method RemoveDuplicateMsg(messages: seq<Message>, length: int) returns (kept: seq<Message>, newLength: int)
    ensures kept == Fold(messages).kept
    ensures newLength == length - Fold(messages).removed
  {
    hide FindIndex;
    kept, newLength := [], length;
    var byUuid: map<string, Message> := map[];
    var i := 0;
    while i < |messages|
      invariant 0 <= i <= |messages|
      invariant newLength <= length
      invariant Fold(messages[..i]) == State(kept, byUuid, length - newLength)
      invariant Present(State(kept, byUuid, length - newLength))
    {
      assert messages[..i + 1][..i] == messages[..i];
      var message := messages[i];
      PresentStep(Fold(messages[..i]), message);
      if message.cacheable && message.uuid in byUuid && byUuid[message.uuid].chatId == 0 {
        var msgIndex := FindIndex(kept, message.uuid);
        kept := kept[..msgIndex] + kept[msgIndex + 1..];
        newLength := newLength - 1;
        kept := kept + [message];
        byUuid := byUuid[message.uuid := message];
      } else {
        kept := kept + [message];
        byUuid := byUuid[message.uuid := message];
      }
      i := i + 1;
    }
    assert messages[..i] == messages;
  }

  // ---------------------------------------------------------------- database first, then cache

  ghost predicate DistinctUuids(ms: seq<Message>) {
    forall i, j :: 0 <= i < j < |ms| ==> ms[i].uuid != ms[j].uuid
  }

  /** The message at i is the first of its uuid. */
  predicate First(ms: seq<Message>, i: nat)
    requires i < |ms|
  {
    forall j :: 0 <= j < i ==> ms[j].uuid != ms[i].uuid
  }

  /** The uuids of those that take another's place: only the first of a uuid does. */
  function Taken(cache: seq<Message>): set<string> {
    set i | 0 <= i < |cache| && cache[i].cacheable && First(cache, i) :: cache[i].uuid
  }

  function Without(ms: seq<Message>, uuids: set<string>): seq<Message> {
    if ms == [] then []
    else
      var r := Without(ms[..|ms| - 1], uuids);
      if ms[|ms| - 1].uuid in uuids then r else r + [ms[|ms| - 1]]
  }

  /** Database messages have no chat_id and repeat no uuid, cached ones have one. */
  ghost predicate Sources(db: seq<Message>, cache: seq<Message>) {
    && DistinctUuids(db)
    && (forall m :: m in db ==> m.chatId == 0)
    && (forall m :: m in cache ==> m.chatId != 0)
  }

  /** The lookup table maps exactly the uuids seen, to the latest message. */
  ghost predicate LooksUp(byUuid: map<string, Message>, db: seq<Message>, cache: seq<Message>) {
    && (forall m :: m in cache ==> m.uuid in byUuid && byUuid[m.uuid] in cache)
    && (forall u :: u in byUuid ==> byUuid[u].uuid == u && (byUuid[u] in cache || byUuid[u] in db))
    && (forall m :: m in db ==> m.uuid in byUuid)
  }

  lemma NewUuid(ms: seq<Message>, m: Message)
    requires DistinctUuids(ms + [m])
    ensures DistinctUuids(ms) && forall x :: x in ms ==> x.uuid != m.uuid
  {
    var all := ms + [m];
    forall x | x in ms
      ensures x.uuid != m.uuid
    {
      var k :| 0 <= k < |ms| && ms[k] == x;
      assert all[k] == x && all[|ms|] == m;
    }
    forall i, j | 0 <= i < j < |ms|
      ensures ms[i].uuid != ms[j].uuid
    {
      assert all[i].uuid != all[j].uuid;
    }
  }

  lemma DatabaseStep(s: State, h: seq<Message>, m: Message)
    requires s.kept == h && s.removed == 0 && LooksUp(s.byUuid, h, [])
    requires forall x :: x in h ==> x.uuid != m.uuid
    ensures var t := Step(s, m); t.kept == h + [m] && t.removed == 0 && LooksUp(t.byUuid, h + [m], [])
  {
    hide RemoveFirst;
    assert m.uuid !in s.byUuid;
    var all := h + [m];
    assert forall x :: x in all <==> x in h || x == m;
  }

  lemma {:induction false} FoldOfDatabase(db: seq<Message>)
    requires DistinctUuids(db)
    ensures Fold(db).kept == db && Fold(db).removed == 0 && LooksUp(Fold(db).byUuid, db, [])
  {
    hide Step, DistinctUuids, LooksUp;
    if db == [] {
      EmptyLooksUp();
    } else {
      var h, m := db[..|db| - 1], db[|db| - 1];
      assert db == h + [m];
      NewUuid(h, m);
      FoldOfDatabase(h);
      DatabaseStep(Fold(h), h, m);
    }
  }

  lemma EmptyLooksUp()
    ensures LooksUp(map[], [], [])
  {
  }

  lemma {:induction false} WithoutNone(ms: seq<Message>, uuid: string, uuids: set<string>)
    requires forall m :: m in ms ==> m.uuid != uuid
    ensures Without(ms, uuids + {uuid}) == Without(ms, uuids)
  {
    if ms != [] {
      assert ms[|ms| - 1] in ms;
      WithoutNone(ms[..|ms| - 1], uuid, uuids);
    }
  }

  lemma {:induction false} WithoutIn(ms: seq<Message>, uuids: set<string>)
    ensures forall m :: m in Without(ms, uuids) <==> m in ms && m.uuid !in uuids
    ensures Without(ms, {}) == ms
  {
    if ms != [] {
      var h, m := ms[..|ms| - 1], ms[|ms| - 1];
      WithoutIn(h, uuids);
      assert ms == h + [m];
      assert Without(ms, uuids) == if m.uuid in uuids then Without(h, uuids) else Without(h, uuids) + [m];
    }
  }

  lemma RemoveFirstAt(a: seq<Message>, m: Message, b: seq<Message>)
    requires forall x :: x in a ==> x.uuid != m.uuid
    ensures RemoveFirst(a + [m] + b, m.uuid) == a + b
  {
    hide FindIndex;
    var s := a + [m] + b;
    var i := FindIndex(s, m.uuid);
    assert s[|a|] == m;
    FirstIs(s, |a|, m.uuid);
    assert s[..|a|] == a && s[|a| + 1..] == b;
  }

  lemma {:induction false} FirstIs(s: seq<Message>, k: nat, uuid: string)
    requires k < |s| && s[k].uuid == uuid && forall j :: 0 <= j < k ==> s[j].uuid != uuid
    ensures FindIndex(s, uuid) == k
  {
    if k > 0 {
      assert s[0].uuid != uuid;
      FirstIs(s[1..], k - 1, uuid);
    }
  }

  lemma RemoveFirstInFront(a: seq<Message>, b: seq<Message>, uuid: string, r: seq<Message>)
    requires exists x :: x in a && x.uuid == uuid
    requires RemoveFirst(a, uuid) == r
    ensures RemoveFirst(a + b, uuid) == r + b
  {
    hide FindIndex;
    var x :| x in a && x.uuid == uuid;
    FoundIfIn(a, x);
    var i := FindIndex(a, uuid);
    FirstBefore(a, uuid);
    FirstIs(a + b, i, uuid);
    assert (a + b)[..i] == a[..i] && (a + b)[i + 1..] == a[i + 1..] + b;
  }

  lemma {:induction false} FirstBefore(s: seq<Message>, uuid: string)
    ensures forall j :: 0 <= j < FindIndex(s, uuid) ==> s[j].uuid != uuid
  {
    if s != [] && s[0].uuid != uuid {
      FirstBefore(s[1..], uuid);
    }
  }

  lemma WithoutMore(ms: seq<Message>, m: Message, uuids: set<string>)
    ensures Without(ms + [m], uuids) == if m.uuid in uuids then Without(ms, uuids) else Without(ms, uuids) + [m]
  {
    assert (ms + [m])[..|ms|] == ms;
  }

  /** Taking one database message out. */
  lemma {:induction false} WithoutOne(db: seq<Message>, d: Message, uuids: set<string>)
    requires DistinctUuids(db) && d in db && d.uuid !in uuids
    ensures RemoveFirst(Without(db, uuids), d.uuid) == Without(db, uuids + {d.uuid})
  {
    hide RemoveFirst, DistinctUuids, Without;
    var h, m := db[..|db| - 1], db[|db| - 1];
    assert db == h + [m];
    NewUuid(h, m);
    WithoutMore(h, m, uuids);
    WithoutMore(h, m, uuids + {d.uuid});
    if m == d {
      WithoutIn(h, uuids);
      WithoutNone(h, d.uuid, uuids);
      RemoveFirstAt(Without(h, uuids), d, []);
      assert Without(h, uuids) + [d] + [] == Without(h, uuids) + [d];
      assert Without(h, uuids) + [] == Without(h, uuids);
    } else {
      assert d in h;
      WithoutOne(h, d, uuids);
      if m.uuid !in uuids {
        WithoutIn(h, uuids);
        assert d in Without(h, uuids);
        RemoveFirstInFront(Without(h, uuids), [m], d.uuid, Without(h, uuids + {d.uuid}));
      }
    }
  }

  ghost function Shared(db: seq<Message>, uuids: set<string>): set<string> {
    set d | d in db && d.uuid in uuids :: d.uuid
  }

  /** What the loop has after the database and some of the cache. */
  ghost predicate Merged(s: State, db: seq<Message>, cache: seq<Message>) {
    && s.kept == Without(db, Taken(cache)) + cache
    && s.removed == |Shared(db, Taken(cache))|
    && LooksUp(s.byUuid, db, cache)
  }

  lemma TakenMore(cache: seq<Message>, c: Message)
    ensures Taken(cache + [c])
         == if c.cacheable && (forall m :: m in cache ==> m.uuid != c.uuid) then Taken(cache) + {c.uuid}
            else Taken(cache)
  {
    hide First;
    var all := cache + [c];
    FirstsMore(cache, c);
    forall u
      ensures u in Taken(all) <==> u in Taken(cache) || (c.cacheable && First(all, |cache|) && u == c.uuid)
    {
      if u in Taken(all) {
        var i :| 0 <= i < |all| && all[i].cacheable && First(all, i) && all[i].uuid == u;
        assert i < |cache| ==> all[i] == cache[i];
      }
      if u in Taken(cache) {
        var i :| 0 <= i < |cache| && cache[i].cacheable && First(cache, i) && cache[i].uuid == u;
        assert all[i] == cache[i];
      }
      if c.cacheable && First(all, |cache|) && u == c.uuid {
        assert all[|cache|] == c;
      }
    }
    var taken := if c.cacheable && First(all, |cache|) then Taken(cache) + {c.uuid} else Taken(cache);
    assert forall u :: u in Taken(all) <==> u in taken;
  }

  lemma FirstsMore(cache: seq<Message>, c: Message)
    ensures forall i :: 0 <= i < |cache| ==> (First(cache + [c], i) <==> First(cache, i))
    ensures First(cache + [c], |cache|) <==> forall m :: m in cache ==> m.uuid != c.uuid
  {
    var all := cache + [c];
    assert forall i :: 0 <= i < |cache| ==> all[i] == cache[i];
    forall i | 0 <= i < |cache|
      ensures First(all, i) <==> First(cache, i)
    {
      assert all[i] == cache[i];
      if First(all, i) {
        forall j | 0 <= j < i
          ensures cache[j].uuid != cache[i].uuid
        {
          assert all[j] == cache[j];
        }
      }
    }
    if First(all, |cache|) {
      forall m | m in cache
        ensures m.uuid != c.uuid
      {
        var j :| 0 <= j < |cache| && cache[j] == m;
        assert all[j] == m;
      }
    }
  }

  lemma SharedMore(db: seq<Message>, uuids: set<string>, uuid: string)
    requires uuid !in uuids
    ensures (exists d :: d in db && d.uuid == uuid) ==>
            |Shared(db, uuids + {uuid})| == |Shared(db, uuids)| + 1
    ensures !(exists d :: d in db && d.uuid == uuid) ==> Shared(db, uuids + {uuid}) == Shared(db, uuids)
  {
    if exists d :: d in db && d.uuid == uuid {
      assert Shared(db, uuids + {uuid}) == Shared(db, uuids) + {uuid};
    }
  }

  lemma TakenIn(cache: seq<Message>, uuid: string)
    requires forall m :: m in cache ==> m.uuid != uuid
    ensures uuid !in Taken(cache)
  {
  }

  /** One message of the cache. */
  lemma MergeStep(s: State, db: seq<Message>, cache: seq<Message>, c: Message)
    requires Merged(s, db, cache) && DistinctUuids(db) && c.chatId != 0
    requires (forall m :: m in cache ==> m.chatId != 0) && (forall m :: m in db ==> m.chatId == 0)
    ensures Merged(Step(s, c), db, cache + [c])
  {
    hide RemoveFirst, DistinctUuids, Without, Taken, Shared;
    TakenMore(cache, c);
    assert forall m :: m in cache + [c] <==> m in cache || m == c;
    if x :| x in cache && x.uuid == c.uuid {
      assert s.byUuid[c.uuid].chatId != 0;
    } else {
      MergeNew(s, db, cache, c);
    }
    Append(Step(s, c).kept, Without(db, Taken(cache + [c])), cache, c);
  }

  lemma MergeNew(s: State, db: seq<Message>, cache: seq<Message>, c: Message)
    requires Merged(s, db, cache) && DistinctUuids(db) && c.chatId != 0
    requires (forall m :: m in cache ==> m.uuid != c.uuid && m.chatId != 0) && (forall m :: m in db ==> m.chatId == 0)
    ensures var t, u := Step(s, c), if c.cacheable then Taken(cache) + {c.uuid} else Taken(cache);
            && t.kept == Without(db, u) + cache + [c] && t.removed == |Shared(db, u)|
            && LooksUp(t.byUuid, db, cache + [c])
  {
    hide RemoveFirst, DistinctUuids, Without, Taken, Shared;
    TakenIn(cache, c.uuid);
    SharedMore(db, Taken(cache), c.uuid);
    assert forall m :: m in cache + [c] <==> m in cache || m == c;
    WithoutIn(db, Taken(cache));
    if d :| d in db && d.uuid == c.uuid {
      assert c.uuid in s.byUuid && s.byUuid[c.uuid] in db;
      if c.cacheable {
        WithoutOne(db, d, Taken(cache));
        assert d in Without(db, Taken(cache));
        RemoveFirstInFront(Without(db, Taken(cache)), cache, c.uuid, Without(db, Taken(cache) + {c.uuid}));
      }
    } else {
      assert c.uuid !in s.byUuid;
      if c.cacheable {
        WithoutNone(db, c.uuid, Taken(cache));
      }
    }
  }

  lemma Append(kept: seq<Message>, a: seq<Message>, b: seq<Message>, c: Message)
    ensures kept == a + b + [c] ==> kept == a + (b + [c])
  {
  }

  lemma FoldMore(ms: seq<Message>, m: Message)
    ensures Fold(ms + [m]) == Step(Fold(ms), m)
  {
    hide Step;
    assert (ms + [m])[..|ms|] == ms;
  }

  lemma {:induction false} Merge(db: seq<Message>, cache: seq<Message>)
    requires Sources(db, cache)
    ensures Merged(Fold(db + cache), db, cache)
  {
    hide Step, DistinctUuids, Fold, Merged;
    if cache == [] {
      assert db + cache == db;
      MergeNothing(db);
    } else {
      var h, c := cache[..|cache| - 1], cache[|cache| - 1];
      assert cache == h + [c];
      Merge(db, h);
      MergeStep(Fold(db + h), db, h, c);
      assert db + cache == (db + h) + [c];
      FoldMore(db + h, c);
    }
  }

  lemma MergeNothing(db: seq<Message>)
    requires DistinctUuids(db)
    ensures Merged(Fold(db), db, [])
  {
    hide Fold, DistinctUuids, LooksUp, Without, Shared, Taken;
    FoldOfDatabase(db);
    NothingTaken(db);
  }

  lemma NothingTaken(db: seq<Message>)
    ensures Taken([]) == {} && Shared(db, {}) == {} && Without(db, {}) + [] == db
  {
    WithoutIn(db, {});
  }

  /** Whatever the input, the number taken off the length is the number of messages dropped. */
  lemma {:induction false} LengthsAgree(ms: seq<Message>)
    ensures Present(Fold(ms)) && |Fold(ms).kept| + Fold(ms).removed == |ms|
  {
    hide FindIndex, Present;
    if ms == [] {
      NothingPresent();
    } else {
      LengthsAgree(ms[..|ms| - 1]);
      PresentStep(Fold(ms[..|ms| - 1]), ms[|ms| - 1]);
      ReplacedIsThere(Fold(ms[..|ms| - 1]), ms[|ms| - 1]);
    }
  }

  lemma NothingPresent()
    ensures Present(State([], map[], 0))
  {
  }

  lemma ReplacedIsThere(s: State, m: Message)
    requires Present(s)
    ensures Replaces(s, m) ==> |RemoveFirst(s.kept, m.uuid)| == |s.kept| - 1
  {
    hide FindIndex;
  }

  /** Every cached message that shares its uuid with one of the database is of a cacheable type. */
  ghost predicate SharedAreCacheable(db: seq<Message>, cache: seq<Message>) {
    forall c, d :: c in cache && d in db && c.uuid == d.uuid ==> c.cacheable
  }

  lemma {:induction false} WithoutDistinct(ms: seq<Message>, uuids: set<string>)
    requires DistinctUuids(ms)
    ensures DistinctUuids(Without(ms, uuids))
  {
    hide DistinctUuids;
    if ms == [] {
      NothingDistinct();
    } else {
      var h, m := ms[..|ms| - 1], ms[|ms| - 1];
      assert ms == h + [m];
      NewUuid(h, m);
      WithoutDistinct(h, uuids);
      WithoutIn(h, uuids);
      DistinctMore(Without(h, uuids), m);
    }
  }

  lemma NothingDistinct()
    ensures DistinctUuids([])
  {
  }

  lemma DistinctMore(ms: seq<Message>, m: Message)
    requires DistinctUuids(ms) && forall x :: x in ms ==> x.uuid != m.uuid
    ensures DistinctUuids(ms + [m])
  {
  }

  lemma DistinctBoth(a: seq<Message>, b: seq<Message>)
    requires DistinctUuids(a) && DistinctUuids(b)
    ensures DistinctUuids(a + b) <==> forall x, y :: x in a && y in b ==> x.uuid != y.uuid
  {
    var s := a + b;
    if DistinctUuids(s) {
      forall x, y | x in a && y in b
        ensures x.uuid != y.uuid
      {
        var i :| 0 <= i < |a| && a[i] == x;
        var j :| 0 <= j < |b| && b[j] == y;
        assert s[i] == x && s[|a| + j] == y;
      }
    }
    if forall x, y :: x in a && y in b ==> x.uuid != y.uuid {
      forall i, j | 0 <= i < j < |s|
        ensures s[i].uuid != s[j].uuid
      {
        if i < |a| && j >= |a| {
          assert s[i] in a && s[j] in b;
        }
      }
    }
  }

  /** The merged list is the database messages that no cached one replaces, then every cached message;
      it repeats no uuid if and only if the cache does not and the shared ones are cacheable; and as many
      are taken off the length as are replaced. */
  lemma MergeIsUnion(db: seq<Message>, cache: seq<Message>)
    requires Sources(db, cache)
    ensures var s := Fold(db + cache);
            && s.kept == Without(db, Taken(cache)) + cache
            && (forall m :: m in s.kept <==> m in cache || (m in db && m.uuid !in Taken(cache)))
            && (DistinctUuids(s.kept) <==> DistinctUuids(cache) && SharedAreCacheable(db, cache))
            && s.removed == |Shared(db, Taken(cache))|
  {
    hide Fold, DistinctUuids, Without, Taken, Shared, SharedAreCacheable;
    Merge(db, cache);
    WithoutIn(db, Taken(cache));
    WithoutDistinct(db, Taken(cache));
    if DistinctUuids(cache) {
      DistinctBoth(Without(db, Taken(cache)), cache);
      NoneShared(db, cache);
    } else {
      RepeatsStay(Without(db, Taken(cache)), cache);
    }
  }

  lemma RepeatsStay(a: seq<Message>, b: seq<Message>)
    requires !DistinctUuids(b)
    ensures !DistinctUuids(a + b)
  {
    var i, j :| 0 <= i < j < |b| && b[i].uuid == b[j].uuid;
    assert (a + b)[|a| + i] == b[i] && (a + b)[|a| + j] == b[j];
  }

  lemma SharedDetail(db: seq<Message>, cache: seq<Message>, c: Message, d: Message)
    requires DistinctUuids(cache) && c in cache && d in db && c.uuid == d.uuid && !c.cacheable
    ensures d.uuid !in Taken(cache)
  {
  }

  lemma NoneShared(db: seq<Message>, cache: seq<Message>)
    requires DistinctUuids(cache)
    ensures SharedAreCacheable(db, cache)
       <==> forall d, c :: d in Without(db, Taken(cache)) && c in cache ==> d.uuid != c.uuid
  {
    hide DistinctUuids, Without, Taken;
    WithoutIn(db, Taken(cache));
    if SharedAreCacheable(db, cache) {
      forall d, c | d in Without(db, Taken(cache)) && c in cache
        ensures d.uuid != c.uuid
      {
        CacheableTaken(cache, c);
      }
    } else {
      var c, d :| c in cache && d in db && c.uuid == d.uuid && !c.cacheable;
      SharedDetail(db, cache, c, d);
    }
  }

  lemma CacheableTaken(cache: seq<Message>, c: Message)
    requires DistinctUuids(cache) && c in cache
    ensures c.cacheable ==> c.uuid in Taken(cache)
  {
    var k :| 0 <= k < |cache| && cache[k] == c;
    assert First(cache, k);
  }

  /** When they all are, every uuid of either list is there once, the cached copy winning. */
  lemma EveryUuidOnce(db: seq<Message>, cache: seq<Message>)
    requires Sources(db, cache) && DistinctUuids(cache) && SharedAreCacheable(db, cache)
    ensures var kept := Fold(db + cache).kept;
            && DistinctUuids(kept)
            && (forall c :: c in cache ==> c in kept)
            && (forall d :: d in db ==> d in kept || exists c :: c in cache && c.uuid == d.uuid)
            && (forall m :: m in kept ==> m in cache || m in db)
            && |kept| + |Shared(db, Taken(cache))| == |db| + |cache|
  {
    hide Fold, DistinctUuids, Taken, Shared, SharedAreCacheable;
    MergeIsUnion(db, cache);
    LengthsAgree(db + cache);
    forall d | d in db && d.uuid in Taken(cache)
      ensures exists c :: c in cache && c.uuid == d.uuid
    {
      TakenFrom(cache, d.uuid);
    }
  }

  lemma TakenFrom(cache: seq<Message>, uuid: string)
    requires uuid in Taken(cache)
    ensures exists c :: c in cache && c.uuid == uuid
  {
  }

  // ---------------------------------------------------------------- database messages that repeat a uuid

  /** No cacheable message repeats an earlier uuid. */
  ghost predicate NoneRepeats(ms: seq<Message>) {
    forall i, j :: 0 <= i < j < |ms| && ms[i].uuid == ms[j].uuid ==> !ms[j].cacheable
  }

  ghost predicate Seen(s: State, ms: seq<Message>) {
    && (forall m :: m in ms ==> m.uuid in s.byUuid)
    && (forall u :: u in s.byUuid ==> s.byUuid[u].chatId == 0 && exists m :: m in ms && m.uuid == u)
  }

  lemma RepeatsLast(h: seq<Message>, m: Message)
    ensures NoneRepeats(h + [m]) <==> NoneRepeats(h) && (m.cacheable ==> forall x :: x in h ==> x.uuid != m.uuid)
  {
    var all := h + [m];
    assert forall i :: 0 <= i < |h| ==> all[i] == h[i];
    if NoneRepeats(all) {
      forall x | x in h && m.cacheable
        ensures x.uuid != m.uuid
      {
        var k :| 0 <= k < |h| && h[k] == x;
        assert all[k] == x && all[|h|] == m;
      }
      forall i, j | 0 <= i < j < |h| && h[i].uuid == h[j].uuid
        ensures !h[j].cacheable
      {
        assert all[i].uuid == all[j].uuid;
      }
    }
  }

  lemma SeenStep(s: State, h: seq<Message>, m: Message)
    requires Seen(s, h) && m.chatId == 0
    ensures Seen(Step(s, m), h + [m])
    ensures Replaces(s, m) <==> m.cacheable && exists x :: x in h && x.uuid == m.uuid
  {
    hide RemoveFirst;
    assert forall x :: x in h + [m] <==> x in h || x == m;
  }

  lemma {:induction false} FoldSees(ms: seq<Message>)
    requires forall m :: m in ms ==> m.chatId == 0
    ensures Seen(Fold(ms), ms) && (Fold(ms).removed == 0 <==> NoneRepeats(ms))
    ensures Fold(ms).removed == 0 ==> Fold(ms).kept == ms
  {
    hide Seen, NoneRepeats, RemoveFirst;
    if ms == [] {
      SeenNothing();
    } else {
      var h, m := ms[..|ms| - 1], ms[|ms| - 1];
      assert ms == h + [m];
      FoldSees(h);
      SeenStep(Fold(h), h, m);
      RepeatsLast(h, m);
    }
  }

  lemma SeenNothing()
    ensures Seen(State([], map[], 0), []) && NoneRepeats([])
  {
  }

  /** Messages of the database alone are all kept if and only if no cacheable one repeats an earlier
      uuid. Messages without a uuid count as having the same one. */
  lemma DatabaseIsKept(db: seq<Message>)
    requires forall m :: m in db ==> m.chatId == 0
    ensures Fold(db).kept == db <==> NoneRepeats(db)
  {
    hide Fold, NoneRepeats, Present;
    FoldSees(db);
    LengthsAgree(db);
  }
}
