/** Parsing a received text and verifying its signature. */
module Payloads {
  import opened Options
  import opened Text

  /** What JSON.parse returns. */
  datatype Json = Null | Bool(b: bool) | Number(n: real) | Str(s: string) | List(items: seq<Json>)
                | Object(fields: map<string, Json>)

  /** What a verifier answers, if it does not throw. */
  datatype Verdict = Valid | Invalid | Throws

  /** JSON.parse, with None for an exception, and the verifiers: of the signer, with the key, and of the node. */
  datatype Wire = Wire(parse: string -> Option<Json>, signer: (string, string, Json) -> Verdict,
                       node: (string, string) -> Verdict)

  predicate Truthy(v: Json) {
    match v
    case Null => false
    case Bool(b) => b
    case Number(n) => n != 0.0
    case Str(s) => s != ""
    case List(_) => true
    case Object(_) => true
  }

  /** A property of a value; no property of another kind of value has one of the names read here. */
  function Field(v: Json, name: string): Json {
    if v.Object? && name in v.fields then v.fields[name] else Null
  }

  /** A text taken apart at its last brace: the JSON document and its signature. */
  function Unsigned(text: string): (string, string) {
    var li := LastIndexOf(text, '}');
    (text[..li + 1], text[li + 1..])
  }

  /** A JSON object followed by a signature without braces comes apart again. */
  lemma SignatureSplitsOff(json: string, sig: string)
    requires json != "" && json[|json| - 1] == '}' && '}' !in sig
    ensures Unsigned(json + sig) == (json, sig)
  {
    SplitAtLast(json, sig, '}');
  }

  /** What the try block comes to: a value is returned, or something is thrown. */
  datatype Outcome = Returned(payload: Option<Json>) | Thrown

  /** The verdict on a signature, which is asked for by its length. */
  function Verified(msg: string, sig: string, key: Json, w: Wire): Option<Verdict> {
    if |sig| == 96 then Some(w.signer(msg, sig, key))
    else if |sig| == 104 then Some(w.node(msg, sig))
    else None
  }

  /** A signature of 96 letters is asked about with the key of the sender, one of 104 without it. */
  lemma WhoIsAsked(json: string, sig: string, key: Json, w: Wire)
    requires json != "" && json[|json| - 1] == '}' && '}' !in sig
    ensures var (msg, s) := Unsigned(json + sig);
            && (|sig| == 96 ==> Verified(msg, s, key, w) == Some(w.signer(json, sig, key)))
            && (|sig| == 104 ==> Verified(msg, s, key, w) == Some(w.node(json, sig)))
            && (|sig| != 96 && |sig| != 104 ==> Verified(msg, s, key, w) == None)
  {
    hide Unsigned;
    SignatureSplitsOff(json, sig);
  }

  function TryVerify(msg: string, sig: string, payload: Json, w: Wire): Outcome {
    var key := Field(Field(payload, "sender"), "pub_key");
    if Truthy(payload) && Truthy(Field(payload, "sender")) && Truthy(key) then
      match Verified(msg, sig, key, w)
      case Some(Throws) => Thrown
      case Some(Valid) => Returned(Some(payload))
      case _ => Returned(Some(payload))
    else Returned(None)
  }

  function ParseAndVerifyPayload(data: string, w: Wire): Option<Json> {
    var (msg, sig) := Unsigned(data);
    var payload := w.parse(msg);
    if payload.None? then None
    else
      match TryVerify(msg, sig, payload.value, w)
      case Returned(p) => p
      case Thrown => if Truthy(payload.value) then Some(payload.value) else None
  }

  /** Texts that are unencrypted keysend payloads. */
  function Keysends(w: Wire): string -> bool {
    (data: string) =>
      var payload := w.parse(Unsigned(data).0);
      payload.Some? && Truthy(payload.value) && Field(payload.value, "type") == Number(28.0)
  }

  /** A payload that says who sent it. */
  predicate Attributed(v: Json) {
    Truthy(Field(Field(v, "sender"), "pub_key"))
  }

  /** Whatever the verifiers answer or throw, a text is handed on if and only if it parses to a payload
      that names its sender. */
  lemma HandedOnIfAttributed(data: string, w: Wire)
    ensures var parsed := w.parse(Unsigned(data).0);
            ParseAndVerifyPayload(data, w) == if parsed.Some? && Attributed(parsed.value) then parsed else None
  {
    hide Unsigned;
  }

  /** The wire of a node whose verifiers reject every signature. */
  function Rejecting(payload: Json): Wire {
    Wire(text => if text == "{}" then Some(payload) else None,
         (msg: string, sig: string, key: Json) => Invalid, (msg: string, sig: string) => Invalid)
  }

  /** A text whose signature is asked about and rejected is handed on all the same. */
  lemma ForgedIsHandedOn()
    ensures var payload := Object(map["sender" := Object(map["pub_key" := Str("02")])]);
            var w, sig := Rejecting(payload), seq(104, _ => 'y');
            && Verified("{}", sig, Str("02"), w) == Some(Invalid)
            && ParseAndVerifyPayload("{}" + sig, w) == Some(payload)
  {
    hide Unsigned;
    SignatureSplitsOff("{}", seq(104, _ => 'y'));
  }
}
