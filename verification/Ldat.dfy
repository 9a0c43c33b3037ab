/** Data access tokens: five or six base64 terms separated by dots. */
module Ldat {
  import opened Options
  import opened Numerals
  import Ascii
  import Base64
  import Hex
  import Meta
  import Text

  /** The bytes of the expiry; none for 0. */
  function ExpiryBytes(exp: nat): (bs: seq<nat>)
    ensures Below(bs, 256)
  {
    if exp == 0 then [] else Hex.FromHex(Hex.HexOf(exp))
  }

  /** The five terms of a token. */
  function Buffers(host: string, muid: string, pk: string, exp: nat, meta: seq<Meta.Entry>): (bufs: seq<seq<nat>>)
    ensures |bufs| == 5
  {
    [Ascii.Bytes(host), Base64.FromBase64(muid), Base64.FromBase64(pk), ExpiryBytes(exp),
     Ascii.Bytes(Meta.Serialize(meta))]
  }

  function Terms(bufs: seq<seq<nat>>): (ts: seq<string>)
    ensures |ts| == |bufs| && forall k :: 0 <= k < |bufs| ==> ts[k] == Base64.UrlBase64(bufs[k])
  {
    seq(|bufs|, k requires 0 <= k < |bufs| => Base64.UrlBase64(bufs[k]))
  }

  function StartLdat(host: string, muid: string, pk: string, exp: nat, meta: seq<Meta.Entry>): string {
    Text.Join(Terms(Buffers(host, muid, pk, exp, meta)), '.')
  }

  /** What is read from a token; a term that is empty or missing leaves its field out. In meta the
      inner None stands for an exception. */
  datatype Fields = Fields(host: Option<string>, muid: Option<string>, pubkey: Option<string>, ts: Option<nat>,
                           meta: Option<Option<map<string, Meta.Value>>>, sig: Option<string>)

  /** The bytes of the i-th term. */
  function Term(a: seq<string>, i: nat): (r: Option<seq<nat>>)
    ensures r.Some? ==> Below(r.value, 256)
  {
    if i < |a| && a[i] != "" then Some(Base64.FromBase64(a[i])) else None
  }

  function Map<T, U>(o: Option<T>, f: T -> U): Option<U> {
    if o.None? then None else Some(f(o.value))
  }

  function ReadMeta(bs: seq<nat>): Option<map<string, Meta.Value>> {
    if bs == [] then Some(map[]) else Meta.Deserialize(Ascii.Text(bs))
  }

  function ParseTerms(a: seq<string>): Fields {
    Fields(Map(Term(a, 0), Ascii.Text),
           Map(Term(a, 1), Base64.UrlBase64),
           if Term(a, 2).None? then None else Some(Hex.ToHex(Term(a, 2).value)),
           if Term(a, 3).None? || Term(a, 3).value == [] then None else Some(Value(Term(a, 3).value, 256)),
           Map(Term(a, 4), ReadMeta),
           Map(Term(a, 5), Base64.UrlBase64))
  }

  function ParseLdat(ldat: string): Fields {
    ParseTerms(Text.Split(ldat, '.'))
  }

  // ---------------------------------------------------------------- tokens are read back

  lemma NoDot(bs: seq<nat>)
    ensures '.' !in Base64.UrlBase64(bs)
  {
    hide Base64.UrlBase64;
    Base64.UrlIsSafe(bs);
  }

  /** The terms are found again. */
  lemma TermsSplit(bufs: seq<seq<nat>>)
    requires bufs != []
    ensures Text.Split(Text.Join(Terms(bufs), '.'), '.') == Terms(bufs)
  {
    hide Base64.UrlBase64;
    forall k | 0 <= k < |bufs|
      ensures '.' !in Terms(bufs)[k]
    {
      NoDot(bufs[k]);
    }
    Text.SplitJoin(Terms(bufs), '.');
  }

  /** A token is host, media id, key, expiry and section, each in base64, in this order between dots. */
  lemma TermsAre(host: string, muid: string, pk: string, exp: nat, meta: seq<Meta.Entry>)
    ensures Text.Split(StartLdat(host, muid, pk, exp, meta), '.')
         == [Base64.UrlBase64(Ascii.Bytes(host)), Base64.UrlBase64(Base64.FromBase64(muid)),
             Base64.UrlBase64(Base64.FromBase64(pk)), Base64.UrlBase64(ExpiryBytes(exp)),
             Base64.UrlBase64(Ascii.Bytes(Meta.Serialize(meta)))]
  {
    hide Base64.UrlBase64, Base64.FromBase64, ExpiryBytes, Meta.Serialize, Ascii.Bytes;
    TermsSplit(Buffers(host, muid, pk, exp, meta));
  }

  lemma TermReads(bufs: seq<seq<nat>>, i: nat)
    requires i < |bufs| && Below(bufs[i], 256)
    ensures Term(Terms(bufs), i) == if bufs[i] == [] then None else Some(bufs[i])
  {
    hide Base64.UrlBase64, Base64.FromBase64, Below;
    Base64.FromUrl(bufs[i]);
    Base64.NothingPrinted(bufs[i]);
  }

  function Present<T>(some: bool, t: T): Option<T> {
    if some then Some(t) else None
  }

  /** The token with the signature of its bytes. */
  function SignedToken(host: string, muid: string, pk: string, exp: nat, meta: seq<Meta.Entry>, sig: seq<nat>): string {
    StartLdat(host, muid, pk, exp, meta) + "." + Base64.UrlBase64(sig)
  }

  /** The fields of the first five terms: the key and the media id are what was written; so is the host
      if and only if it is ASCII, and the expiry, unless its hexadecimal form has an odd number of
      digits, when the last is lost. */
  ghost predicate ReadsBack(f: Fields, host: string, muid: seq<nat>, pk: seq<nat>, exp: nat, meta: seq<Meta.Entry>)
    requires Below(pk, 256)
  {
    && f.host == Present(host != "", Ascii.Text(Ascii.Bytes(host)))
    && (f.host == Some(host) <==> host != "" && Ascii.IsAscii(host))
    && f.muid == Present(muid != [], Base64.UrlBase64(muid))
    && f.pubkey == Present(pk != [], Hex.ToHex(pk))
    && f.ts == ReadExpiry(exp)
    && f.meta == Present(meta != [], Meta.Deserialize(Meta.Serialize(meta)))
  }

  lemma FieldsRead(a: seq<string>, host: string, muid: seq<nat>, pk: seq<nat>, exp: nat, meta: seq<Meta.Entry>)
    requires Below(muid, 256) && Below(pk, 256) && Ascii.IsAscii(Meta.Serialize(meta))
    requires Term(a, 0) == if host == "" then None else Some(Ascii.Bytes(host))
    requires Term(a, 1) == if muid == [] then None else Some(muid)
    requires Term(a, 2) == if pk == [] then None else Some(pk)
    requires Term(a, 3) == if ExpiryBytes(exp) == [] then None else Some(ExpiryBytes(exp))
    requires Term(a, 4) == if Meta.Serialize(meta) == "" then None else Some(Ascii.Bytes(Meta.Serialize(meta)))
    ensures ReadsBack(ParseTerms(a), host, muid, pk, exp, meta)
  {
    hide Base64.UrlBase64, Below, Ascii.Bytes, Ascii.Text, ExpiryBytes, ReadExpiry, Meta.Serialize, Meta.Deserialize,
         Ascii.IsAscii, Term, Hex.ToHex, Value;
    Meta.SerializeIsAscii(meta);
    Ascii.ComesBack(host);
    Ascii.ComesBack(Meta.Serialize(meta));
    ExpiryReads(exp);
  }

  lemma TermsRead(bufs: seq<seq<nat>>, host: string, muid: seq<nat>, pk: seq<nat>, exp: nat, meta: seq<Meta.Entry>)
    requires Below(muid, 256) && Below(pk, 256)
    requires |bufs| >= 5
    requires bufs[..5] == Buffers(host, Base64.UrlBase64(muid), Base64.ToBase64(pk), exp, meta)
    ensures ReadsBack(ParseTerms(Terms(bufs)), host, muid, pk, exp, meta)
  {
    hide Base64.UrlBase64, Base64.ToBase64, Base64.FromBase64, Below, Ascii.Bytes, Ascii.Text, ExpiryBytes,
         Meta.Serialize, Ascii.IsAscii, Term, Terms, ReadsBack, ParseTerms;
    Meta.SerializeIsAscii(meta);
    Base64.FromUrl(muid);
    Base64.FromStandard(pk);
    var b := bufs[..5];
    assert bufs[0] == b[0] && bufs[1] == b[1] && bufs[2] == b[2] && bufs[3] == b[3] && bufs[4] == b[4];
    TermReads(bufs, 0);
    TermReads(bufs, 1);
    TermReads(bufs, 2);
    TermReads(bufs, 3);
    TermReads(bufs, 4);
    FieldsRead(Terms(bufs), host, muid, pk, exp, meta);
  }

  /** A token without a signature is read back. */
  lemma ParseStart(host: string, muid: seq<nat>, pk: seq<nat>, exp: nat, meta: seq<Meta.Entry>)
    requires Below(muid, 256) && Below(pk, 256)
    ensures var f := ParseLdat(StartLdat(host, Base64.UrlBase64(muid), Base64.ToBase64(pk), exp, meta));
            ReadsBack(f, host, muid, pk, exp, meta) && f.sig == None
  {
    hide Base64.UrlBase64, Base64.ToBase64, Below, Ascii.IsAscii, Buffers, Terms, ReadsBack, Term;
    var bufs := Buffers(host, Base64.UrlBase64(muid), Base64.ToBase64(pk), exp, meta);
    assert bufs[..5] == bufs;
    TermsSplit(bufs);
    TermsRead(bufs, host, muid, pk, exp, meta);
    NoSixth(bufs);
  }

  /** A signed token is read back, its signature included. */
  lemma ParseSigned(host: string, muid: seq<nat>, pk: seq<nat>, exp: nat, meta: seq<Meta.Entry>, sig: seq<nat>)
    requires Below(muid, 256) && Below(pk, 256) && Below(sig, 256)
    ensures var f := ParseLdat(SignedToken(host, Base64.UrlBase64(muid), Base64.ToBase64(pk), exp, meta, sig));
            ReadsBack(f, host, muid, pk, exp, meta) && f.sig == Present(sig != [], Base64.UrlBase64(sig))
  {
    hide Base64.UrlBase64, Base64.ToBase64, Below, Ascii.IsAscii, Buffers, Terms, ReadsBack, Term;
    var bufs := Buffers(host, Base64.UrlBase64(muid), Base64.ToBase64(pk), exp, meta);
    var six := bufs + [sig];
    assert six[..5] == bufs;
    TermsMore(bufs, sig);
    TermsSplit(six);
    TermsRead(six, host, muid, pk, exp, meta);
    TermReads(six, 5);
  }

  lemma TermsMore(bufs: seq<seq<nat>>, b: seq<nat>)
    requires bufs != []
    ensures Text.Join(Terms(bufs + [b]), '.') == Text.Join(Terms(bufs), '.') + "." + Base64.UrlBase64(b)
  {
    hide Base64.UrlBase64;
    JoinMore(Terms(bufs), Base64.UrlBase64(b));
    assert Terms(bufs + [b]) == Terms(bufs) + [Base64.UrlBase64(b)];
  }

  lemma {:induction false} JoinMore(ts: seq<string>, t: string)
    requires ts != []
    ensures Text.Join(ts + [t], '.') == Text.Join(ts, '.') + "." + t
  {
    if |ts| == 1 {
      assert (ts + [t])[1..] == [t];
    } else {
      JoinMore(ts[1..], t);
      assert (ts + [t])[1..] == ts[1..] + [t];
    }
  }

  lemma NoSixth(bufs: seq<seq<nat>>)
    requires |bufs| == 5
    ensures Term(Terms(bufs), 5) == None
  {
  }

  /** What is read of an expiry. */
  function ReadExpiry(exp: nat): Option<nat> {
    if |Hex.HexOf(exp)| % 2 == 0 then Some(exp) else if exp < 16 then None else Some(exp / 16)
  }

  lemma ExpiryReads(exp: nat)
    ensures ReadExpiry(exp) == Present(ExpiryBytes(exp) != [], Value(ExpiryBytes(exp), 256))
  {
    hide Hex.HexOf, Hex.FromHex, Value;
    Hex.BytesOfNumber(exp);
    Hex.SmallHex(exp);
    if exp >= 16 {
      TwoOrMore(exp);
    }
  }

  lemma TwoOrMore(n: nat)
    requires n >= 16
    ensures |Hex.HexOf(n)| >= 2
  {
  }

  /** The expiry survives if and only if its hexadecimal form has an even number of digits. */
  lemma ExpirySurvives(exp: nat)
    ensures ReadExpiry(exp) == Some(exp) <==> |Hex.HexOf(exp)| % 2 == 0
  {
    hide Hex.HexOf;
  }

  /** The same fields come back: of a token with all its fields, a section of numbers, and an expiry
      with an even number of hexadecimal digits. */
  lemma SameFieldsComeBack(host: string, muid: seq<nat>, pk: seq<nat>, exp: nat, meta: seq<Meta.Entry>)
    requires host != "" && Ascii.IsAscii(host) && muid != [] && Below(muid, 256) && pk != [] && Below(pk, 256)
    requires meta != [] && Meta.DistinctKeys(meta) && (forall e :: e in meta ==> Meta.Numeric(e))
    requires |Hex.HexOf(exp)| % 2 == 0
    ensures var f := ParseLdat(StartLdat(host, Base64.UrlBase64(muid), Base64.ToBase64(pk), exp, meta));
            && f == Fields(Some(host), Some(Base64.UrlBase64(muid)), Some(Hex.ToHex(pk)), Some(exp), f.meta, None)
            && f.meta.Some? && f.meta.value.Some?
            && (forall e :: e in meta ==> e.key in f.meta.value.value && f.meta.value.value[e.key] == e.value)
            && (forall k :: k in f.meta.value.value ==> exists e :: e in meta && e.key == k)
  {
    hide Base64.UrlBase64, Base64.ToBase64, Below, Ascii.IsAscii, Meta.Serialize, Meta.Deserialize, Meta.Numeric,
         Meta.DistinctKeys, ParseLdat, StartLdat, Hex.HexOf, Hex.ToHex;
    Meta.NumbersComeBack(meta);
    ParseStart(host, muid, pk, exp, meta);
  }
}
