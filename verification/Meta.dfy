/** The key and value section of a data access token. */
module Meta {
  import opened Options
  import Ascii
  import Text
  import Numbers
  import Percent

  /** An integer, a value of another kind by the text it is turned into, or a text. */
  datatype Value = Num(n: int) | Other(shown: string) | Str(s: string)

  datatype Entry = Entry(key: string, value: Value)

  function Show(v: Value): string {
    match v
    case Num(n) => Numbers.ShowInt(n)
    case Other(s) => s
    case Str(s) => s
  }

  /** A value as it is read: a text that begins with a nonzero number becomes that number, which is
      infinity when it is too large. */
  function Read(s: string): Value {
    var n := Numbers.Leading(s);
    var r := if n.None? then 0 else Numbers.Rounded(n.value);
    if r == 0 then Str(s)
    else if Numbers.Finite(r) then Num(r)
    else Other(if r < 0 then "-Infinity" else "Infinity")
  }

  function Piece(e: Entry): string {
    Percent.Encode(e.key) + "=" + Percent.Encode(Show(e.value))
  }

  /** Lexicographic order on texts. */
  predicate Greater(a: string, b: string) {
    a != "" && (b == "" || a[0] > b[0] || (a[0] == b[0] && Greater(a[1..], b[1..])))
  }

  function Insert(s: string, ss: seq<string>): (r: seq<string>)
    ensures multiset(r) == multiset(ss) + multiset{s}
  {
    if ss == [] then [s]
    else if Greater(ss[|ss| - 1], s) then
      assert ss == ss[..|ss| - 1] + [ss[|ss| - 1]];
      Insert(s, ss[..|ss| - 1]) + [ss[|ss| - 1]]
    else ss + [s]
  }

  function Sort(ss: seq<string>): (r: seq<string>)
    ensures multiset(r) == multiset(ss)
  {
    if ss == [] then []
    else
      assert ss == ss[..|ss| - 1] + [ss[|ss| - 1]];
      Insert(ss[|ss| - 1], Sort(ss[..|ss| - 1]))
  }

  function Pieces(es: seq<Entry>): (ps: seq<string>)
    ensures |ps| == |es| && forall k :: 0 <= k < |es| ==> ps[k] == Piece(es[k])
  {
    seq(|es|, k requires 0 <= k < |es| => Piece(es[k]))
  }

  function Serialize(es: seq<Entry>): string {
    Text.Join(Sort(Pieces(es)), '&')
  }

  method SerializeMeta(es: seq<Entry>) returns (s: string)
    ensures s == Serialize(es)
  {
    hide Sort, Piece;
    var str: seq<string> := [];
    var k := 0;
    while k < |es|
      invariant 0 <= k <= |es|
      invariant str == Pieces(es)[..k]
    {
      PieceIs(es[k]);
      str := str + [Percent.Encode(es[k].key) + "=" + Percent.Encode(Show(es[k].value))];
      k := k + 1;
    }
    assert str == Pieces(es);
    s := Text.Join(Sort(str), '&');
  }

  lemma PieceIs(e: Entry)
    ensures Piece(e) == Percent.Encode(e.key) + "=" + Percent.Encode(Show(e.value))
  {
  }

  // ---------------------------------------------------------------- the pieces are in order

  /** No piece is behind a later one. */
  ghost predicate Sorted(ss: seq<string>) {
    forall i, j :: 0 <= i < j < |ss| ==> !Greater(ss[i], ss[j])
  }

  lemma {:induction false} NotBoth(a: string, b: string)
    ensures !(Greater(a, b) && Greater(b, a))
  {
    if a != "" && b != "" && a[0] == b[0] {
      NotBoth(a[1..], b[1..]);
    }
  }

  lemma {:induction false} Chain(a: string, b: string, c: string)
    requires !Greater(a, b) && !Greater(b, c)
    ensures !Greater(a, c)
    decreases |b|
  {
    if a != "" && b != "" && c != "" && a[0] == b[0] == c[0] {
      Chain(a[1..], b[1..], c[1..]);
    }
  }

  lemma {:induction false} InsertSorts(s: string, ss: seq<string>)
    requires Sorted(ss)
    ensures Sorted(Insert(s, ss))
    ensures forall x :: x in Insert(s, ss) ==> x == s || x in ss
  {
    hide Greater;
    if ss != [] && Greater(ss[|ss| - 1], s) {
      var h, m := ss[..|ss| - 1], ss[|ss| - 1];
      InsertSorts(s, h);
      NotBoth(m, s);
      var r := Insert(s, h) + [m];
      forall i, j | 0 <= i < j < |r|
        ensures !Greater(r[i], r[j])
      {
        if j == |r| - 1 && r[i] != s {
          assert r[i] in Insert(s, h);
          var k :| 0 <= k < |h| && h[k] == r[i];
          assert ss[k] == r[i];
        }
      }
    } else if ss != [] {
      var r := ss + [s];
      forall i, j | 0 <= i < j < |r|
        ensures !Greater(r[i], r[j])
      {
        if j == |r| - 1 && i < |ss| - 1 {
          Chain(ss[i], ss[|ss| - 1], s);
        }
      }
    }
  }

  /** Sorting puts texts into ascending order. */
  lemma {:induction false} SortSorts(ss: seq<string>)
    ensures Sorted(Sort(ss))
  {
    hide Insert, Greater;
    if ss != [] {
      SortSorts(ss[..|ss| - 1]);
      InsertSorts(ss[|ss| - 1], Sort(ss[..|ss| - 1]));
    }
  }

  // ---------------------------------------------------------------- reading

  /** The characters a piece may have inside a JSON string. */
  predicate Plain(s: string) {
    forall k :: 0 <= k < |s| ==> s[k] as int >= 32 && s[k] != '"' && s[k] != '\\'
  }

  /** One piece; None stands for an exception. */
  function ReadPiece(s: string): Option<Entry> {
    var kv := Text.Split(s, '=');
    if |kv| != 2 || !Plain(s) then None
    else if kv[0] == "" then Some(Entry("", Read(kv[1])))
    else
      var v := Percent.Decode(kv[1]);
      if v.None? then None else Some(Entry(kv[0], Read(v.value)))
  }

  /** Assigning to a field; the name __proto__ does not make a field. */
  function Assign(m: map<string, Value>, e: Entry): map<string, Value> {
    if e.key == "__proto__" then m else m[e.key := e.value]
  }

  function Collect(ps: seq<string>): Option<map<string, Value>> {
    if ps == [] then Some(map[])
    else
      var m, e := Collect(ps[..|ps| - 1]), ReadPiece(ps[|ps| - 1]);
      if m.None? || e.None? then None else Some(Assign(m.value, e.value))
  }

  function Deserialize(s: string): Option<map<string, Value>> {
    if |s| > 2 then Collect(Text.Split(s, '&')) else Some(map[])
  }

  method DeserializeMeta(s: string) returns (r: Option<map<string, Value>>)
    ensures r == Deserialize(s)
  {
    hide ReadPiece;
    if |s| <= 2 {
      return Some(map[]);
    }
    var ps := Text.Split(s, '&');
    var ret: map<string, Value> := map[];
    var k := 0;
    while k < |ps|
      invariant 0 <= k <= |ps|
      invariant Collect(ps[..k]) == Some(ret)
    {
      assert ps[..k + 1][..k] == ps[..k];
      var e := ReadPiece(ps[k]);
      if e.None? {
        Fails(ps, k);
        return None;
      }
      ret := Assign(ret, e.value);
      k := k + 1;
    }
    assert ps[..k] == ps;
    r := Some(ret);
  }

  lemma {:induction false} Fails(ps: seq<string>, k: nat)
    requires k < |ps| && ReadPiece(ps[k]).None?
    ensures Collect(ps) == None
  {
    hide ReadPiece;
    if k < |ps| - 1 {
      Fails(ps[..|ps| - 1], k);
    }
  }

  // ---------------------------------------------------------------- what comes back

  /** Entries with unreserved keys and nonempty values. */
  predicate Regular(e: Entry) {
    && e.key != "" && e.key != "__proto__" && Show(e.value) != ""
    && forall k :: 0 <= k < |e.key| ==> Percent.Unreserved(e.key[k])
  }

  ghost predicate DistinctKeys(es: seq<Entry>) {
    forall i, j :: 0 <= i < j < |es| ==> es[i].key != es[j].key
  }

  lemma SafeIsPlain(c: char)
    requires Percent.Safe(c)
    ensures c as int >= 32 && c != '"' && c != '\\' && c != '&' && c != '='
  {
  }

  /** What a piece consists of. */
  lemma PieceShape(e: Entry)
    requires Regular(e)
    ensures Plain(Piece(e)) && '&' !in Piece(e) && |Piece(e)| >= 3
    ensures Text.Split(Piece(e), '=') == [e.key, Percent.Encode(Show(e.value))]
  {
    hide Percent.Encode, Percent.Unreserved, Show, Percent.Safe;
    var a, b := Percent.Encode(e.key), Percent.Encode(Show(e.value));
    Percent.EncodeIsSafe(e.key);
    Percent.EncodeIsSafe(Show(e.value));
    Percent.UnreservedStays(e.key);
    forall c | c in a || c in b
      ensures c as int >= 32 && c != '"' && c != '\\' && c != '&' && c != '='
    {
      SafeIsPlain(c);
    }
    var p := Piece(e);
    assert p == a + ['='] + b;
    forall k | 0 <= k < |p|
      ensures p[k] as int >= 32 && p[k] != '"' && p[k] != '\\' && p[k] != '&'
    {
      assert p[k] in a || p[k] in b || p[k] == '=';
    }
    Text.SplitFirst(a, b, '=');
    Text.SplitWhole(b, '=');
  }

  /** A piece is read back with its value as it is read. */
  lemma PieceReads(e: Entry)
    requires Regular(e)
    ensures ReadPiece(Piece(e)) == Some(Entry(e.key, Read(Show(e.value))))
  {
    hide Percent.Encode, Show, Read, Piece, Plain;
    PieceShape(e);
    Percent.DecodeEncode(Show(e.value));
  }

  /** Every piece is the piece of an entry. */
  ghost predicate From(ps: seq<string>, es: seq<Entry>) {
    forall p :: p in ps ==> exists e :: e in es && Regular(e) && p == Piece(e)
  }

  ghost predicate Holds(m: map<string, Value>, ps: seq<string>, es: seq<Entry>)
  {
    && (forall e :: e in es && Regular(e) && Piece(e) in ps ==> e.key in m && m[e.key] == Read(Show(e.value)))
    && (forall k :: k in m ==> exists e :: e in es && e.key == k)
  }

  lemma SameKey(es: seq<Entry>, e: Entry, f: Entry)
    requires DistinctKeys(es) && e in es && f in es && e.key == f.key
    ensures e == f
  {
  }

  lemma {:induction false} Collected(ps: seq<string>, es: seq<Entry>)
    requires From(ps, es) && DistinctKeys(es) && forall e :: e in es ==> Regular(e)
    ensures Collect(ps).Some? && Holds(Collect(ps).value, ps, es)
  {
    hide Piece, ReadPiece, Read, Show, DistinctKeys;
    if ps != [] {
      var h, p := ps[..|ps| - 1], ps[|ps| - 1];
      assert ps == h + [p];
      assert forall q :: q in h ==> q in ps;
      Collected(h, es);
      assert p in ps;
      var e :| e in es && Regular(e) && p == Piece(e);
      PieceReads(e);
      var m := Collect(h).value;
      assert Collect(ps) == Some(m[e.key := Read(Show(e.value))]);
      forall f | f in es && Piece(f) in ps
        ensures f.key in Collect(ps).value && Collect(ps).value[f.key] == Read(Show(f.value))
      {
        if f.key == e.key {
          SameKey(es, e, f);
        } else if Piece(f) == p {
          PieceReads(f);
        }
      }
    }
  }

  /** The fields a token's section is read as. */
  ghost predicate IsReading(m: map<string, Value>, es: seq<Entry>) {
    && (forall e :: e in es ==> e.key in m && m[e.key] == Read(Show(e.value)))
    && (forall k :: k in m ==> exists e :: e in es && e.key == k)
  }

  /** Reading a serialized section gives exactly the keys written, each with its value as it is read. */
  lemma DeserializeSerialize(es: seq<Entry>)
    requires DistinctKeys(es)
    requires forall e :: e in es ==> Regular(e)
    ensures Deserialize(Serialize(es)).Some? && IsReading(Deserialize(Serialize(es)).value, es)
  {
    hide Regular, Piece, ReadPiece, Read, Show, DistinctKeys, Sort, Collect, Holds, IsReading, From;
    var ps := Sort(Pieces(es));
    if es == [] {
      SortNothing();
      NothingRead();
    } else {
      SortedPieces(es);
      Text.SplitJoin(ps, '&');
      JoinLonger(ps);
      Collected(ps, es);
      HeldIsReading(Collect(ps).value, ps, es);
    }
  }

  lemma SortNothing()
    ensures Sort(Pieces([])) == []
  {
  }

  lemma NothingRead()
    ensures Deserialize("") == Some(map[]) && IsReading(map[], [])
  {
  }

  lemma HeldIsReading(m: map<string, Value>, ps: seq<string>, es: seq<Entry>)
    requires Holds(m, ps, es) && forall e :: e in es ==> Regular(e)
    requires forall e :: e in es ==> Piece(e) in ps
    ensures IsReading(m, es)
  {
    hide Regular, Piece, Read, Show;
  }

  lemma JoinLonger(ps: seq<string>)
    requires ps != [] && |ps[0]| >= 3
    ensures |Text.Join(ps, '&')| >= 3
  {
  }

  lemma SortedPieces(es: seq<Entry>)
    requires es != [] && forall e :: e in es ==> Regular(e)
    ensures var ps := Sort(Pieces(es));
            && ps != [] && From(ps, es) && (forall k :: 0 <= k < |ps| ==> '&' !in ps[k] && |ps[k]| >= 3)
            && (forall e :: e in es ==> Piece(e) in ps)
  {
    hide Regular, Piece, Sort;
    var ps, qs := Sort(Pieces(es)), Pieces(es);
    forall p | p in ps
      ensures exists e :: e in es && Regular(e) && p == Piece(e)
    {
      assert p in multiset(ps) && p in multiset(qs);
      assert p in qs;
      var k :| 0 <= k < |qs| && qs[k] == p;
      assert es[k] in es;
    }
    forall k | 0 <= k < |ps|
      ensures '&' !in ps[k] && |ps[k]| >= 3
    {
      assert ps[k] in ps;
      var e :| e in es && Regular(e) && ps[k] == Piece(e);
      PieceShape(e);
    }
    forall e | e in es
      ensures Piece(e) in ps
    {
      var k :| 0 <= k < |es| && es[k] == e;
      assert qs[k] in multiset(qs) && qs[k] in multiset(ps);
    }
    assert |multiset(ps)| == |ps| && |multiset(qs)| == |qs|;
  }

  /** A value is read as it was written if and only if it is a nonzero integer of less than 22
      digits, or a text that does not begin with a nonzero one. */
  lemma ValueComesBack(v: Value)
    requires v.Num? ==> Numbers.IsNumber(v.n)
    ensures Read(Show(v)) == v <==>
            match v
            case Num(n) => n != 0 && Numbers.Abs(n) < Numbers.LIMIT
            case Other(_) => false
            case Str(s) => Numbers.Leading(s) == None || Numbers.Leading(s) == Some(0)
  {
    hide Numbers.Leading, Numbers.ShowInt, Numbers.Round, Numbers.Finite, Numbers.LIMIT;
    match v
    case Num(n) => Numbers.LeadingOfShown(n);
    case Other(s) => NotInfinity(s);
    case Str(s) => RoundsToNothing(s);
  }

  /** Infinity is printed as a text that is read as it is. */
  lemma NotInfinity(s: string)
    ensures Read(s) != Other(s)
  {
    hide Numbers.Leading, Numbers.Rounded, Numbers.Finite;
    Infinities();
  }

  lemma Infinities()
    ensures Numbers.Leading("Infinity") == None && Numbers.Leading("-Infinity") == None
  {
    assert "-Infinity"[1..] == "Infinity";
  }

  lemma RoundsToNothing(s: string)
    ensures Read(s) == Str(s) <==> Numbers.Leading(s) == None || Numbers.Leading(s) == Some(0)
  {
    hide Numbers.Leading, Numbers.Round, Numbers.Finite;
    var n := Numbers.Leading(s);
    Numbers.SmallRound(0);
    if n.Some? && n.value != 0 {
      Numbers.RoundPositive(Numbers.Abs(n.value));
    }
  }

  /** White space in front of a number is passed over, other than the blank too. */
  lemma NoBreakSpace()
    ensures Read(Show(Str("\U{00A0}5"))) == Num(5)
  {
    hide Numbers.Round, Numbers.Finite;
    assert "\U{00A0}5"[1..] == "5";
    Numbers.OneDigit('5');
    assert "5" + "" == "5";
    hide Numbers.Leading;
    Numbers.LeadingDigits("5", "");
    Numbers.SmallRound(5);
    Numbers.LimitIsFinite(5);
  }

  /** A number of 22 digits is read as its first one. */
  lemma LargeNumber()
    ensures Numbers.IsNumber(Numbers.LIMIT) && Read(Show(Num(Numbers.LIMIT))) == Num(1)
  {
    hide Numbers.Round, Numbers.Finite, Numbers.ShowInt;
    Numbers.LimitShown();
    Numbers.LimitIsNumber();
    Numbers.LimitIsFinite(Numbers.LIMIT);
    OneRead();
    Numbers.SmallRound(1);
    Numbers.LimitIsFinite(1);
  }

  lemma OneRead()
    ensures Numbers.Leading("1e+21") == Some(1)
  {
    Numbers.OneDigit('1');
    assert "1" + "e+21" == "1e+21";
    hide Numbers.Leading;
    Numbers.LeadingDigits("1", "e+21");
  }

  /** Keys of unreserved characters with nonzero integers of less than 22 digits. */
  predicate Numeric(e: Entry) {
    && e.key != "" && e.key != "__proto__" && (forall k :: 0 <= k < |e.key| ==> Percent.Unreserved(e.key[k]))
    && e.value.Num? && Numbers.IsNumber(e.value.n) && 0 < Numbers.Abs(e.value.n) < Numbers.LIMIT
  }

  lemma NumericIsRegular(e: Entry)
    requires Numeric(e)
    ensures Regular(e) && Read(Show(e.value)) == e.value
  {
    hide Numbers.ShowInt, Numbers.Leading, Numbers.IsNumber, Numbers.LIMIT;
    Numbers.ShownIsAscii(e.value.n);
    ValueComesBack(e.value);
    assert forall c :: Percent.Unreserved(c) ==> c as int < 128;
  }

  /** A section of numbers comes back as it was written. */
  lemma NumbersComeBack(es: seq<Entry>)
    requires DistinctKeys(es) && forall e :: e in es ==> Numeric(e)
    ensures var r := Deserialize(Serialize(es));
            && r.Some? && (forall e :: e in es ==> e.key in r.value && r.value[e.key] == e.value)
            && (forall k :: k in r.value ==> exists e :: e in es && e.key == k)
  {
    hide Numeric, Read, Show, Serialize, Deserialize, DistinctKeys;
    forall e | e in es
      ensures Regular(e) && Read(Show(e.value)) == e.value
    {
      NumericIsRegular(e);
    }
    DeserializeSerialize(es);
  }

  /** The size of a picture is read as its width. */
  lemma DimensionsAreLost()
    ensures Read("1500x1300") == Num(1500)
  {
    hide Text.ParseInt, Numbers.Finite;
    assert Text.Decimal(1) == "1";
    assert Text.Decimal(15) == Text.Decimal(1) + [Text.Digit(5)];
    assert Text.Decimal(150) == Text.Decimal(15) + [Text.Digit(0)];
    assert Text.Decimal(1500) == Text.Decimal(150) + [Text.Digit(0)];
    assert Text.Decimal(1500) + "x1300" == "1500x1300";
    hide Numbers.Leading, Text.Decimal, Numbers.Round;
    Numbers.LeadingBefore(1500, "x1300");
    Numbers.SmallRound(1500);
    Numbers.LimitIsFinite(1500);
  }

  // ---------------------------------------------------------------- the text written

  lemma PieceIsAscii(e: Entry)
    ensures Ascii.IsAscii(Piece(e)) && Piece(e) != ""
  {
    hide Percent.Encode;
    var a, b := Percent.Encode(e.key), Percent.Encode(Show(e.value));
    Percent.EncodeIsSafe(e.key);
    Percent.EncodeIsSafe(Show(e.value));
    var p := Piece(e);
    forall k | 0 <= k < |p|
      ensures p[k] as int < 128
    {
      assert p[k] in a || p[k] in b || p[k] == '=';
    }
  }

  lemma {:induction false} JoinIsAscii(ps: seq<string>)
    requires forall k :: 0 <= k < |ps| ==> Ascii.IsAscii(ps[k]) && ps[k] != ""
    ensures Ascii.IsAscii(Text.Join(ps, '&')) && (Text.Join(ps, '&') == "" <==> ps == [])
  {
    if |ps| > 1 {
      JoinIsAscii(ps[1..]);
    }
  }

  /** A section is ASCII, and empty only without entries. */
  lemma SerializeIsAscii(es: seq<Entry>)
    ensures Ascii.IsAscii(Serialize(es)) && (Serialize(es) == "" <==> es == [])
  {
    hide Sort, Piece, Ascii.IsAscii;
    var ps, qs := Sort(Pieces(es)), Pieces(es);
    forall k | 0 <= k < |ps|
      ensures Ascii.IsAscii(ps[k]) && ps[k] != ""
    {
      assert ps[k] in multiset(ps) && ps[k] in multiset(qs);
      var j :| 0 <= j < |qs| && qs[j] == ps[k];
      PieceIsAscii(es[j]);
    }
    JoinIsAscii(ps);
    assert |multiset(ps)| == |ps| && |multiset(qs)| == |qs|;
  }
}
