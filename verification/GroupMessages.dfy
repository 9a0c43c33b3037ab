/** A tribe owner passes messages on: from the group's key to the key of each recipient. */
module GroupMessages {
  import opened Options
  import Base64
  import Rsa

  /** A text field: missing, one text, or a text for each recipient by its name. */
  datatype Field = Absent | One(s: string) | Each(texts: map<string, string>)

  /** A message; terms tells whether it has media terms, skip whether these skip signing, known
      whether its chat has a type and a uuid. */
  datatype Msg = Msg(content: Field, mediaKey: Field, terms: bool, skip: bool, tribe: bool, known: bool)

  predicate Truthy(f: Field) {
    f.Each? || (f.One? && f.s != "")
  }

  /** The text under the name of the group. */
  function Shared(f: Field): Option<string> {
    if f.Each? && "chat" in f.texts && f.texts["chat"] != "" then Some(f.texts["chat"]) else None
  }

  function Shown(f: Field): string {
    match f
    case Absent => "undefined"
    case One(s) => s
    case Each(_) => if Shared(f).Some? then Shared(f).value else "[object Object]"
  }

  /** With the group's private key; None when the chat has none. */
  function DecryptMessage(m: Msg, group: Option<Rsa.Cipher>): Msg {
    if group.None? then m
    else
      m.(content := if Truthy(m.content) then One(Rsa.Decrypted(group.value, Shown(m.content))) else m.content,
         mediaKey := if !Truthy(m.mediaKey) then m.mediaKey
                     else if m.mediaKey.Each? && Shared(m.mediaKey).None? then One("")
                     else One(Rsa.Decrypted(group.value, Shown(m.mediaKey))))
  }

  function ForContact(f: Field, contact: string, tribe: bool): Field
    requires f.Each?
  {
    if tribe && Shared(f).Some? then One(Shared(f).value)
    else if contact in f.texts then One(f.texts[contact])
    else Absent
  }

  function AddInRemoteText(m: Msg, contact: string): Msg {
    if m.content.Each? then m.(content := ForContact(m.content, contact, m.tribe)) else m
  }

  function AddInMediaKey(m: Msg, contact: string): Msg {
    if m.mediaKey.Each? && m.terms then
      m.(mediaKey := if m.skip then One("") else ForContact(m.mediaKey, contact, m.tribe))
    else m
  }

  function EncryptField(f: Field, key: Rsa.Cipher): Field {
    match f
    case Absent => f
    case One(s) => if s == "" then f else One(Rsa.Encrypted(key, s))
    case Each(_) => One("")
  }

  function EncryptTribeBroadcast(m: Msg, key: Rsa.Cipher, isTribeOwner: bool): Msg {
    if !isTribeOwner || !m.known then m
    else m.(content := EncryptField(m.content, key), mediaKey := EncryptField(m.mediaKey, key))
  }

  /** The message for one recipient. */
  function PersonalizeMessage(m: Msg, contact: string, key: Rsa.Cipher, isTribeOwner: bool): Msg {
    EncryptTribeBroadcast(AddInMediaKey(AddInRemoteText(m, contact), contact), key, isTribeOwner)
  }

  // ---------------------------------------------------------------- what a recipient reads

  /** A field that holds a text under a key, by itself or under the name of the group. */
  ghost predicate Carries(f: Field, text: string, key: Rsa.Cipher) {
    text != "" && (f == One(Rsa.Encrypted(key, text)) || Shared(f) == Some(Rsa.Encrypted(key, text)))
  }

  lemma EncryptedIsSomething(c: Rsa.Cipher, text: string)
    requires Rsa.Inverts(c) && text != ""
    ensures Rsa.Encrypted(c, text) != ""
  {
    hide Rsa.Encrypted, Rsa.Reread;
    Rsa.DecryptEncrypt(c, text);
    Rsa.ComesBack(text);
    NothingDecrypted(c);
  }

  lemma NothingDecrypted(c: Rsa.Cipher)
    ensures Rsa.Decrypted(c, "") == ""
  {
    Base64NothingRead();
    hide Base64.FromBase64;
  }

  lemma Base64NothingRead()
    ensures Base64.FromBase64("") == []
  {
    hide Base64.Codes;
    assert Base64.Codes("") == [] by {
      NoCodes();
    }
  }

  lemma NoCodes()
    ensures Base64.Codes("") == []
  {
  }

  lemma FieldDecrypts(f: Field, text: string, key: Rsa.Cipher)
    requires Rsa.Inverts(key) && Carries(f, text, key)
    ensures Truthy(f) && (f.Each? ==> Shared(f).Some?) && Rsa.Decrypted(key, Shown(f)) == Rsa.Reread(text) != ""
  {
    hide Rsa.Encrypted, Rsa.Decrypted, Rsa.Inverts, Rsa.Reread;
    EncryptedIsSomething(key, text);
    Rsa.DecryptEncrypt(key, text);
    Rsa.ComesBack(text);
  }

  /** A field under the group's key, or none. */
  ghost predicate CarriesOrNone(f: Field, text: string, key: Rsa.Cipher) {
    Carries(f, text, key) || (!Truthy(f) && text == "")
  }

  /** What a recipient reads of a text that was encrypted twice. */
  function Received(text: string): string {
    Rsa.Reread(Rsa.Reread(text))
  }

  /** It is the text if and only if no border between blocks cuts a character. */
  lemma ReceivedIsText(text: string)
    ensures Received(text) == text <==> Rsa.Whole(text)
  {
    hide Rsa.Reread, Rsa.Whole;
    Rsa.ComesBack(text);
    Rsa.ComesBack(Rsa.Reread(text));
    if |Rsa.Reread(text)| > |text| {
      assert |Received(text)| > |text|;
    }
  }

  lemma FieldPassesOn(f: Field, text: string, group: Rsa.Cipher, key: Rsa.Cipher)
    requires Rsa.Inverts(group) && Rsa.Inverts(key) && CarriesOrNone(f, text, group)
    ensures var d := if Truthy(f) then One(Rsa.Decrypted(group, Shown(f))) else f;
            && !d.Each? && (f.Each? ==> Shared(f).Some?)
            && var e := EncryptField(d, key);
               if text == "" then e == f else e.One? && Rsa.Decrypted(key, e.s) == Received(text)
  {
    hide Rsa.Encrypted, Rsa.Decrypted, Rsa.Inverts, Rsa.Reread, Shown;
    if Carries(f, text, group) {
      FieldDecrypts(f, text, group);
      Rsa.DecryptEncrypt(key, Rsa.Reread(text));
    }
  }

  /** Texts under the group's key, passed on by the owner, are for every recipient the same texts, if
      and only if no border between blocks cuts a character of theirs. */
  lemma RecipientReads(m: Msg, text: string, mediaKey: string, group: Rsa.Cipher, contact: string, key: Rsa.Cipher)
    requires Rsa.Inverts(group) && Rsa.Inverts(key) && m.tribe && m.known
    requires CarriesOrNone(m.content, text, group) && CarriesOrNone(m.mediaKey, mediaKey, group)
    ensures var p := PersonalizeMessage(DecryptMessage(m, Some(group)), contact, key, true);
            && (if text == "" then p.content == m.content
                else p.content.One? && (Rsa.Decrypted(key, p.content.s) == text <==> Rsa.Whole(text)))
            && (if mediaKey == "" then p.mediaKey == m.mediaKey
                else p.mediaKey.One? && (Rsa.Decrypted(key, p.mediaKey.s) == mediaKey <==> Rsa.Whole(mediaKey)))
  {
    hide Rsa.Encrypted, Rsa.Decrypted, Rsa.Inverts, Rsa.Whole, Received, Shown, CarriesOrNone;
    FieldPassesOn(m.content, text, group, key);
    FieldPassesOn(m.mediaKey, mediaKey, group, key);
    ReceivedIsText(text);
    ReceivedIsText(mediaKey);
  }

  /** Outside tribes every recipient gets the text and the media key under its own name, in tribes those of
      the group; whoever does not own the tribe leaves them as they are. */
  lemma EachGetsItsOwn(m: Msg, texts: map<string, string>, keys: map<string, string>, contact: string, key: Rsa.Cipher)
    requires m.content == Each(texts) && m.mediaKey == Each(keys) && contact in texts && contact in keys && m.terms
    ensures var p := PersonalizeMessage(m, contact, key, false);
            && p.content == One(if m.tribe && "chat" in texts && texts["chat"] != "" then texts["chat"] else texts[contact])
            && p.mediaKey == One(if m.skip then ""
                                 else if m.tribe && "chat" in keys && keys["chat"] != "" then keys["chat"]
                                 else keys[contact])
  {
  }
}
