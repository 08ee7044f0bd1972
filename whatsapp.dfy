/** How the WhatsApp webhook handler finds the sender's phone and the message
    text in a payload whose shape depends on the gateway (index.js:146-197):
    each is the first of a fixed list of candidate fields that qualifies, and
    the search stops at the first match. */
module WhatsAppExtraction {
  import opened Js
  import opened PhoneNormalizer

  const WhatsAppSuffix := "@s.whatsapp.net"
  const ContactSuffix := "@c.us"

  /** Removing one occurrence of a text without digits does not change the
      digits of a string. */
  lemma RemoveFirstKeepsDigits(s: string, p: string)
    requires p != "" && forall i :: 0 <= i < |p| ==> !IsDigit(p[i])
    ensures DigitsOnly(RemoveFirst(s, p)) == DigitsOnly(s)
  {
    var found := IndexOf(s, p);
    if found.Some? {
      var i := found.value;
      SplitAtOccurrence(s, p, i);
      DigitsOnlySkips(s[..i], p, s[i + |p|..]);
    }
  }

  /** `attempt.replace('@s.whatsapp.net', '').replace('@c.us', '')`: the
      first occurrence of each WhatsApp suffix is removed. The digits, and so
      the normalised phone, are the same as those of the raw field. */
  function StripSuffixes(s: string): (r: string)
    ensures |r| <= |s|
    ensures DigitsOnly(r) == DigitsOnly(s)
  {
    var once := RemoveFirst(s, WhatsAppSuffix);
    RemoveFirstKeepsDigits(s, WhatsAppSuffix);
    RemoveFirstKeepsDigits(once, ContactSuffix);
    RemoveFirst(once, ContactSuffix)
  }

  /** The phone candidates, in the order the handler tries them
      (index.js:150-158). The body parser always yields an object or an
      array, so reading a property of the payload itself never fails. */
  function PhoneAttempts(data: Value): (r: seq<Value>)
    ensures |r| == 7
  {
    [ Get(Get(data, "key"), "remoteJid"),
      Get(Get(Get(data, "data"), "key"), "remoteJid"),
      Get(Get(First(Get(Get(data, "data"), "messages")), "key"), "remoteJid"),
      Get(Get(data, "instance"), "remoteJid"),
      Get(data, "phone"),
      Get(data, "from"),
      Get(data, "number") ]
  }

  /** `attempt && typeof attempt === 'string' && attempt.includes('@')` */
  predicate IsPhoneCandidate(v: Value) {
    Truthy(v) && v.Str? && Includes(v.s, "@")
  }

  /** The first candidate that qualifies decides the phone. */
  predicate FirstPhoneAt(attempts: seq<Value>, i: int) {
    && 0 <= i < |attempts|
    && IsPhoneCandidate(attempts[i])
    && forall j :: 0 <= j < i ==> !IsPhoneCandidate(attempts[j])
  }

  /** The specification of the phone search: the first qualifying candidate
      with its suffixes removed, `null` (None) when no candidate qualifies. */
  function FirstPhone(attempts: seq<Value>): Option<string> {
    if attempts == [] then None
    else if IsPhoneCandidate(attempts[0]) then Some(StripSuffixes(attempts[0].s))
    else FirstPhone(attempts[1..])
  }

  /** The search returns the first qualifying candidate, stripped. */
  lemma {:induction false} FirstPhoneFound(attempts: seq<Value>, i: int)
    requires FirstPhoneAt(attempts, i)
    ensures FirstPhone(attempts) == Some(StripSuffixes(attempts[i].s))
  {
    if i > 0 {
      assert !IsPhoneCandidate(attempts[0]);
      FirstPhoneFound(attempts[1..], i - 1);
    }
  }

  /** The search finds nothing exactly when no candidate qualifies. */
  lemma {:induction false} FirstPhoneNone(attempts: seq<Value>)
    ensures FirstPhone(attempts).None? <==> forall i :: 0 <= i < |attempts| ==> !IsPhoneCandidate(attempts[i])
  {
    if attempts != [] && !IsPhoneCandidate(attempts[0]) {
      FirstPhoneNone(attempts[1..]);
      assert forall i :: 1 <= i < |attempts| ==> attempts[i] == attempts[1..][i - 1];
    }
  }

  /** Once a candidate qualifies, the candidates after it are never
      consulted. */
  lemma {:induction false} FirstPhoneIgnoresLater(attempts: seq<Value>, later: seq<Value>)
    requires FirstPhone(attempts).Some?
    ensures FirstPhone(attempts + later) == FirstPhone(attempts)
  {
    assert (attempts + later)[0] == attempts[0];
    if !IsPhoneCandidate(attempts[0]) {
      assert (attempts + later)[1..] == attempts[1..] + later;
      FirstPhoneIgnoresLater(attempts[1..], later);
    }
  }

  /** The handler's `for ... of` loop over the phone candidates, which breaks
      at the first match (index.js:160-167). */
  method FindPhone(attempts: seq<Value>) returns (phone: Option<string>)
    ensures phone == FirstPhone(attempts)
  {
    var i := 0;
    while i < |attempts|
      invariant 0 <= i <= |attempts|
      invariant FirstPhone(attempts[i..]) == FirstPhone(attempts)
    {
      var attempt := attempts[i];
      if Truthy(attempt) && attempt.Str? && Includes(attempt.s, "@") {
        return Some(StripSuffixes(attempt.s));
      }
      assert attempts[i..][1..] == attempts[i + 1..];
      i := i + 1;
    }
    return None;
  }

  /** The message candidates, in the order the handler tries them
      (index.js:170-178). */
  function MessageAttempts(data: Value): (r: seq<Value>)
    ensures |r| == 7
  {
    var first := First(Get(Get(data, "data"), "messages"));
    [ Get(Get(data, "message"), "conversation"),
      Get(Get(Get(data, "data"), "message"), "conversation"),
      Get(Get(first, "message"), "conversation"),
      Get(Get(Get(first, "message"), "extendedTextMessage"), "text"),
      Get(data, "text"),
      Get(data, "body"),
      Get(data, "content") ]
  }

  /** `attempt && typeof attempt === 'string' && attempt.trim()` */
  predicate IsMessageCandidate(v: Value) {
    Truthy(v) && v.Str? && Trim(v.s) != ""
  }

  predicate FirstMessageAt(attempts: seq<Value>, i: int) {
    && 0 <= i < |attempts|
    && IsMessageCandidate(attempts[i])
    && forall j :: 0 <= j < i ==> !IsMessageCandidate(attempts[j])
  }

  /** The specification of the message search: the first string candidate
      that is not blank, trimmed; `null` (None) when there is none. */
  function FirstMessage(attempts: seq<Value>): Option<string> {
    if attempts == [] then None
    else if IsMessageCandidate(attempts[0]) then Some(Trim(attempts[0].s))
    else FirstMessage(attempts[1..])
  }

  /** The search returns the first candidate that is not blank, trimmed. */
  lemma {:induction false} FirstMessageFound(attempts: seq<Value>, i: int)
    requires FirstMessageAt(attempts, i)
    ensures FirstMessage(attempts) == Some(Trim(attempts[i].s))
  {
    if i > 0 {
      assert !IsMessageCandidate(attempts[0]);
      FirstMessageFound(attempts[1..], i - 1);
    }
  }

  /** The search finds nothing exactly when every candidate is missing,
      not a string, or blank. */
  lemma {:induction false} FirstMessageNone(attempts: seq<Value>)
    ensures FirstMessage(attempts).None? <==> forall i :: 0 <= i < |attempts| ==> !IsMessageCandidate(attempts[i])
  {
    if attempts != [] && !IsMessageCandidate(attempts[0]) {
      FirstMessageNone(attempts[1..]);
      assert forall i :: 1 <= i < |attempts| ==> attempts[i] == attempts[1..][i - 1];
    }
  }

  /** A found message is never empty and neither starts nor ends with white
      space. */
  lemma {:induction false} FirstMessageTrimmed(attempts: seq<Value>)
    requires FirstMessage(attempts).Some?
    ensures var m := FirstMessage(attempts).value;
      m != "" && !IsWhite(m[0]) && !IsWhite(m[|m| - 1])
  {
    if IsMessageCandidate(attempts[0]) {
      TrimSpec(attempts[0].s);
    } else {
      FirstMessageTrimmed(attempts[1..]);
    }
  }

  /** The handler's `for ... of` loop over the message candidates, which
      breaks at the first match (index.js:180-187). */
  method FindMessage(attempts: seq<Value>) returns (message: Option<string>)
    ensures message == FirstMessage(attempts)
  {
    var i := 0;
    while i < |attempts|
      invariant 0 <= i <= |attempts|
      invariant FirstMessage(attempts[i..]) == FirstMessage(attempts)
    {
      var attempt := attempts[i];
      if Truthy(attempt) && attempt.Str? && Trim(attempt.s) != "" {
        return Some(Trim(attempt.s));
      }
      assert attempts[i..][1..] == attempts[i + 1..];
      i := i + 1;
    }
    return None;
  }

  /** A lead's reply: the normalised phone it came from and its text. */
  datatype Reply = Reply(phone: string, message: string)

  /** The decision `if (phone && message)` (index.js:196-197): a reply is
      processed only when both a non-empty phone and a message were found,
      and it is keyed by the normalised phone and carries the message. */
  function ReplyOf(data: Value): (r: Option<Reply>)
    ensures r.Some? <==>
      FirstPhone(PhoneAttempts(data)).Some? && FirstPhone(PhoneAttempts(data)).value != ""
      && FirstMessage(MessageAttempts(data)).Some?
    ensures r.Some? ==> AllDigits(r.value.phone) && r.value.message != ""
    ensures r.Some? ==> r.value.phone == NormalizePhone(Str(FirstPhone(PhoneAttempts(data)).value))
    ensures r.Some? ==> r.value.message == FirstMessage(MessageAttempts(data)).value
  {
    var phone := FirstPhone(PhoneAttempts(data));
    var message := FirstMessage(MessageAttempts(data));
    if phone.Some? && phone.value != "" && message.Some? && message.value != "" then
      Some(Reply(NormalizePhone(Str(phone.value)), message.value))
    else
      (if message.Some? then FirstMessageTrimmed(MessageAttempts(data)); None else None)
  }

  /** The extraction part of the WhatsApp handler (index.js:146-197): both
      loops run over their candidate lists, then the reply is formed. */
  method ExtractReply(data: Value) returns (phone: Option<string>, message: Option<string>, reply: Option<Reply>)
    ensures phone == FirstPhone(PhoneAttempts(data))
    ensures message == FirstMessage(MessageAttempts(data))
    ensures reply == ReplyOf(data)
  {
    phone := FindPhone(PhoneAttempts(data));
    message := FindMessage(MessageAttempts(data));
    if phone.Some? && phone.value != "" && message.Some? && message.value != "" {
      reply := Some(Reply(NormalizePhone(Str(phone.value)), message.value));
    } else {
      reply := None;
    }
  }

  /** Removing the suffixes never changes the key: the normalised phone of
      the stripped field equals that of the raw field. */
  lemma SuffixesDoNotMatter(s: string)
    ensures NormalizePhone(Str(StripSuffixes(s))) == NormalizePhone(Str(s))
  {
    SameDigitsSameKey(StripSuffixes(s), s);
  }

  /** Once both searches have found something, the reply is decided by the
      phone alone: an empty phone (an address that was only a suffix) gives
      no reply, any other phone a reply keyed by its normalised digits. */
  lemma ReplyOfFound(data: Value, phone: string, message: string)
    requires FirstPhone(PhoneAttempts(data)) == Some(phone)
    requires FirstMessage(MessageAttempts(data)) == Some(message)
    ensures ReplyOf(data) == (if phone == "" then None else Some(Reply(NormalizePhone(Str(phone)), message)))
  {
    FirstMessageTrimmed(MessageAttempts(data));
  }

  /** A payload whose `key.remoteJid` is a WhatsApp address and whose
      `message.conversation` holds text yields a reply keyed by the address's
      normalised phone, with the trimmed text. */
  lemma JidAndConversation(data: Value, jid: string, text: string)
    requires Get(Get(data, "key"), "remoteJid") == Str(jid)
    requires Get(Get(data, "message"), "conversation") == Str(text)
    requires Includes(jid, "@") && Trim(text) != ""
    ensures ReplyOf(data) == (if StripSuffixes(jid) == "" then None
        else Some(Reply(NormalizePhone(Str(jid)), Trim(text))))
  {
    var phones, messages := PhoneAttempts(data), MessageAttempts(data);
    assert phones[0] == Str(jid);
    assert messages[0] == Str(text);
    FirstPhoneFound(phones, 0);
    FirstMessageFound(messages, 0);
    ReplyOfFound(data, StripSuffixes(jid), Trim(text));
    SuffixesDoNotMatter(jid);
  }
}
