/**
 * From the headers of a received message to the reply that is sent
 * (backend/src/job_apply_pro/domain/mail_threading.py and the printed headers of
 * backend/src/job_apply_pro/integrations/provider_clients.py).
 */
module ReplyContext {
  import opened Prelude
  import opened ReplyReferences

  datatype Provider = Gmail | Outlook

  /** An address in its one accepted spelling, or None where the source refuses it. */
  type Mailbox = string -> Option<string>

  datatype Headers = Headers(
    format: Provider,
    fromAddress: string,
    sender: string,
    replyTo: seq<string>,
    messageId: Option<string>,
    references: seq<string>,
    inReplyTo: seq<string>)

  /** What a reply records of its source besides the headers, and of the account it is sent from. */
  datatype Facts = Facts(
    recordId: string,
    messageId: string,
    threadId: string,
    subject: string,
    accountKey: string,
    connectionFingerprint: string)

  datatype Message = Message(provider: Provider, headers: Option<Headers>, facts: Facts)

  datatype Context = Context(
    facts: Facts,
    provider: Provider,
    format: Provider,
    accountLabel: string,
    recipient: string,
    messageId: Option<string>,
    references: seq<string>,
    mimeReplySupported: bool)

  function Lookup(critical: map<string, string>, name: string): Option<string> {
    if name in critical then Some(critical[name]) else None
  }

  /** A header that may be missing; when present it must parse. */
  function OptionalReferences(value: Option<string>, maximum: nat, beyond: Charset): Option<seq<string>> {
    if value == None then Some([]) else References(value.value, maximum, beyond)
  }

  function OptionalAddress(value: Option<string>, address: Mailbox): Option<seq<string>> {
    if value == None then Some([])
    else if address(value.value) == None then None
    else Some([address(value.value).value])
  }

  predicate SubjectOk(value: Option<string>, beyond: Charset) {
    value == None || value.value == "" || SafeText(value.value, 1000, beyond)
  }

  /** The reply headers of a Gmail message, from its critical headers by name; `address` parses an address header. */
  function ParseGmail(critical: map<string, string>, address: Mailbox, beyond: Charset): Option<Headers> {
    var from := OptionalAddress(Lookup(critical, "from"), address);
    var sender := OptionalAddress(Lookup(critical, "sender"), address);
    var replyTo := OptionalAddress(Lookup(critical, "reply-to"), address);
    var references := OptionalReferences(Lookup(critical, "references"), MAX_REFERENCES, beyond);
    var inReplyTo := OptionalReferences(Lookup(critical, "in-reply-to"), 1, beyond);
    if || "from" !in critical || from == None || !SubjectOk(Lookup(critical, "subject"), beyond)
       || sender == None || replyTo == None || references == None || inReplyTo == None
       || "message-id" !in critical || MessageId(critical["message-id"], beyond) == None then None
    else
      var sentBy := if sender.value == [] then from.value[0] else sender.value[0];
      Some(Headers(Gmail, from.value[0], sentBy, replyTo.value,
                   MessageId(critical["message-id"], beyond), references.value, inReplyTo.value))
  }

  /** The chain a reply refers to: what the source referred to, then the source itself. */
  function Chain(headers: Headers): seq<string> {
    (if headers.references != [] then headers.references else headers.inReplyTo)
    + if headers.messageId.Some? then [headers.messageId.value] else []
  }

  predicate Accepted(ids: seq<string>, beyond: Charset) {
    forall i :: 0 <= i < |ids| ==> MessageId(ids[i], beyond).Some?
  }

  /** Text without white space; `blank` says what is white space beyond ASCII. */
  predicate Identifier(s: string, limit: nat, beyond: Charset, blank: Charset) {
    SafeText(s, limit, beyond) && forall i :: 0 <= i < |s| ==> s[i] != ' ' && (s[i] as int < 127 || !blank(s[i]))
  }

  predicate Digest(s: string) {
    |s| == 64 && forall i :: 0 <= i < |s| ==> '0' <= s[i] <= '9' || 'a' <= s[i] <= 'f'
  }

  predicate ValidFacts(f: Facts, beyond: Charset, blank: Charset) {
    && Identifier(f.recordId, 100, beyond, blank)
    && Identifier(f.messageId, 500, beyond, blank) && Identifier(f.threadId, 500, beyond, blank)
    && SubjectOk(Some(f.subject), beyond)
    && Digest(f.accountKey) && Digest(f.connectionFingerprint)
  }

  predicate ValidContext(c: Context, mailbox: Mailbox, beyond: Charset, blank: Charset) {
    && ValidFacts(c.facts, beyond, blank)
    && mailbox(c.accountLabel) == Some(c.accountLabel) && mailbox(c.recipient) == Some(c.recipient)
    && c.format == c.provider
    && |c.references| <= MAX_REFERENCES && |Joined(c.references)| <= MAX_HEADER_CHARACTERS
    && (c.messageId.Some? ==> MessageId(c.messageId.value, beyond).Some?)
    && Accepted(c.references, beyond)
    && (c.provider == Gmail ==>
          && c.messageId.Some? && c.references != [] && c.references[|c.references| - 1] == c.messageId.value
          && c.mimeReplySupported)
  }

  /** The context of a reply to `message`, or None where a reply is not supported. */
  function Build(message: Message, accountLabel: string, mailbox: Mailbox, beyond: Charset, blank: Charset): Option<Context> {
    if message.headers == None then None
    else
      var h := message.headers.value;
      var from, sender, ownLabel := mailbox(h.fromAddress), mailbox(h.sender), mailbox(accountLabel);
      if from == None || sender == None || ownLabel == None || |h.replyTo| > 1 then None
      else
        var recipient := if h.replyTo == [] then from else mailbox(h.replyTo[0]);
        if recipient == None then None
        else
          var mime := message.provider == Gmail || (sender == from && from == recipient);
          var c := Context(message.facts, message.provider, h.format, ownLabel.value, recipient.value, h.messageId, Chain(h), mime);
          if ValidContext(c, mailbox, beyond, blank) then Some(c) else None
  }

  // ---------------------------------------------------------------- what a built reply promises

  /** A mailbox has an accepted spelling, and that spelling is its own. */
  predicate Canonical(value: string, mailbox: Mailbox) {
    mailbox(value).Some? && mailbox(mailbox(value).value) == mailbox(value)
  }

  /** Everything but the length of the chain is in order for a reply to this Gmail message. */
  predicate Answerable(h: Headers, facts: Facts, ownLabel: string, mailbox: Mailbox, beyond: Charset, blank: Charset) {
    var recipient := if h.replyTo == [] then h.fromAddress else h.replyTo[0];
    && ValidFacts(facts, beyond, blank) && |h.replyTo| <= 1
    && Canonical(ownLabel, mailbox) && Canonical(recipient, mailbox)
    && mailbox(h.fromAddress).Some? && mailbox(h.sender).Some?
  }

  /** Between 1 and `limit` characters, printable or admitted beyond ASCII. */
  predicate Readable(s: string, limit: nat, beyond: Charset) {
    1 <= |s| <= limit && forall i :: 0 <= i < |s| ==> 32 <= s[i] as int < 127 || (127 <= s[i] as int && beyond(s[i]))
  }

  /** Readable text without a space or other white space. */
  predicate Unspaced(s: string, limit: nat, beyond: Charset, blank: Charset) {
    Readable(s, limit, beyond) && forall i :: 0 <= i < |s| ==> s[i] != ' ' && (127 <= s[i] as int ==> !blank(s[i]))
  }

  predicate Sha256Hex(s: string) { |s| == 64 && forall i :: 0 <= i < |s| ==> s[i] in "0123456789abcdef" }

  /** What a reply may record of its source and account. */
  predicate Recordable(f: Facts, beyond: Charset, blank: Charset) {
    && Unspaced(f.recordId, 100, beyond, blank)
    && Unspaced(f.messageId, 500, beyond, blank) && Unspaced(f.threadId, 500, beyond, blank)
    && (f.subject == "" || Readable(f.subject, 1000, beyond))
    && Sha256Hex(f.accountKey) && Sha256Hex(f.connectionFingerprint)
  }

  lemma RecordableExactly(f: Facts, beyond: Charset, blank: Charset)
    ensures ValidFacts(f, beyond, blank) <==> Recordable(f, beyond, blank)
  {
    IdentifierExactly(f.recordId, 100, beyond, blank);
    IdentifierExactly(f.messageId, 500, beyond, blank);
    IdentifierExactly(f.threadId, 500, beyond, blank);
    ReadableExactly(f.subject, 1000, beyond);
    DigestExactly(f.accountKey);
    DigestExactly(f.connectionFingerprint);
    hide Identifier, Unspaced, Digest, Sha256Hex, SafeText, Readable;
  }

  lemma ReadableExactly(s: string, limit: nat, beyond: Charset)
    ensures SafeText(s, limit, beyond) <==> Readable(s, limit, beyond)
  {
  }

  lemma IdentifierExactly(s: string, limit: nat, beyond: Charset, blank: Charset)
    ensures Identifier(s, limit, beyond, blank) <==> Unspaced(s, limit, beyond, blank)
  {
    ReadableExactly(s, limit, beyond);
    hide SafeText, Readable;
  }

  lemma DigestExactly(s: string)
    ensures Digest(s) <==> Sha256Hex(s)
  {
  }

  /** Whom a reply goes to, whom it comes from, and what it carries over from its source. */
  ghost predicate RepliesTo(c: Context, message: Message, h: Headers, ownLabel: string, mailbox: Mailbox) {
    && mailbox(ownLabel) == Some(c.accountLabel)
    && |h.replyTo| <= 1 && mailbox(if h.replyTo == [] then h.fromAddress else h.replyTo[0]) == Some(c.recipient)
    && mailbox(h.fromAddress).Some? && mailbox(h.sender).Some?
    && c.facts == message.facts && c.provider == message.provider && c.format == h.format && c.messageId == h.messageId
    && c.references ==
       (if h.references == [] then h.inReplyTo else h.references) + (if h.messageId == None then [] else [h.messageId.value])
    && (c.mimeReplySupported <==>
          message.provider == Gmail || mailbox(h.sender) == mailbox(h.fromAddress) == Some(c.recipient))
  }

  /** What holds of every reply that may be sent, with the limits in figures. */
  ghost predicate Sendable(c: Context, mailbox: Mailbox, beyond: Charset, blank: Charset) {
    && Recordable(c.facts, beyond, blank) && c.format == c.provider
    && mailbox(c.accountLabel) == Some(c.accountLabel) && mailbox(c.recipient) == Some(c.recipient)
    && |c.references| <= 50 && |Joined(c.references)| <= 8192
    && (c.messageId.Some? ==> MessageId(c.messageId.value, beyond).Some?)
    && (forall i :: 0 <= i < |c.references| ==> MessageId(c.references[i], beyond).Some?)
    && (c.provider == Gmail ==>
          && c.messageId.Some? && c.references != [] && c.references[|c.references| - 1] == c.messageId.value
          && c.mimeReplySupported)
  }

  /**
   * For both providers: `c` is the context of a reply to `message` exactly when it answers the
   * Reply-To address, or else the From address, from the own account, carries the chain, the
   * identifiers and the facts of its source, and may be sent.
   */
  lemma ReplyExactly(
    message: Message, ownLabel: string, mailbox: Mailbox, beyond: Charset, blank: Charset, c: Context)
    ensures
      Build(message, ownLabel, mailbox, beyond, blank) == Some(c)
      <==>
        && message.headers.Some? && RepliesTo(c, message, message.headers.value, ownLabel, mailbox)
        && Sendable(c, mailbox, beyond, blank)
  {
    hide MessageId, Joined, ValidFacts, Recordable;
    RecordableExactly(c.facts, beyond, blank);
  }

  /** The source's headers are read from the critical headers of the same name, and from nowhere else. */
  lemma GmailHeadersExactly(critical: map<string, string>, address: Mailbox, beyond: Charset, h: Headers)
    ensures
      ParseGmail(critical, address, beyond) == Some(h)
      <==>
        && h.format == Gmail
        && "from" in critical && address(critical["from"]) == Some(h.fromAddress)
        && (if "sender" in critical then address(critical["sender"]) == Some(h.sender) else h.sender == h.fromAddress)
        && (if "reply-to" in critical
            then |h.replyTo| == 1 && address(critical["reply-to"]) == Some(h.replyTo[0])
            else h.replyTo == [])
        && "message-id" in critical && h.messageId.Some? && MessageId(critical["message-id"], beyond) == h.messageId
        && (if "references" in critical
            then References(critical["references"], 50, beyond) == Some(h.references)
            else h.references == [])
        && (if "in-reply-to" in critical
            then References(critical["in-reply-to"], 1, beyond) == Some(h.inReplyTo)
            else h.inReplyTo == [])
        && ("subject" in critical && critical["subject"] != "" ==> Readable(critical["subject"], 1000, beyond))
  {
    hide MessageId, References, SafeText, Readable;
    assert |h.replyTo| == 1 ==> h.replyTo == [h.replyTo[0]];
    if "subject" in critical { ReadableExactly(critical["subject"], 1000, beyond); }
  }

  lemma {:induction false} ValidIsAccepted(ids: seq<string>, beyond: Charset)
    requires AllValid(ids)
    ensures Accepted(ids, beyond)
  {
    forall i | 0 <= i < |ids| ensures MessageId(ids[i], beyond).Some? { MessageIdOfId(ids[i], beyond); }
  }

  /** What is parsed from a Gmail message is valid, and its own identifier is always there. */
  lemma ParsedIsValid(critical: map<string, string>, address: Mailbox, beyond: Charset)
    requires ParseGmail(critical, address, beyond).Some?
    ensures
      var h := ParseGmail(critical, address, beyond).value;
      h.format == Gmail && h.messageId.Some? && AllValid(Chain(h)) && 1 <= |Chain(h)| <= MAX_REFERENCES + 1
  {
  }

  /** A reply to a parsed Gmail message is built exactly when all else is in order and its chain stays within both limits. */
  lemma GmailReplyExactly(
    critical: map<string, string>, address: Mailbox, facts: Facts, ownLabel: string, mailbox: Mailbox, beyond: Charset,
    blank: Charset)
    requires ParseGmail(critical, address, beyond).Some?
    ensures
      var h := ParseGmail(critical, address, beyond).value;
      Build(Message(Gmail, Some(h), facts), ownLabel, mailbox, beyond, blank).Some?
      <==>
        && Answerable(h, facts, ownLabel, mailbox, beyond, blank)
        && |Chain(h)| <= 50 && |Joined(Chain(h))| <= 8192
  {
    hide ParseGmail, References, MessageId, IsMessageId, Joined, ValidFacts;
    ParsedIsValid(critical, address, beyond);
    var h := ParseGmail(critical, address, beyond).value;
    ValidIsAccepted(Chain(h), beyond);
    assert Chain(h)[|Chain(h)| - 1] == h.messageId.value;
  }

  /** A built Gmail reply answers its source and extends the chain of its source by the source itself. */
  lemma GmailReplyEndsWithSource(message: Message, ownLabel: string, mailbox: Mailbox, beyond: Charset, blank: Charset)
    requires message.provider == Gmail && Build(message, ownLabel, mailbox, beyond, blank).Some?
    ensures
      var c, h := Build(message, ownLabel, mailbox, beyond, blank).value, message.headers.value;
      && message.headers == Some(h) && RepliesTo(c, message, h, ownLabel, mailbox) && Sendable(c, mailbox, beyond, blank)
      && h.messageId.Some? && c.references != [] && c.references[|c.references| - 1] == h.messageId.value
      && c.references[..|c.references| - 1] == if h.references != [] then h.references else h.inReplyTo
  {
    ReplyExactly(message, ownLabel, mailbox, beyond, blank, Build(message, ownLabel, mailbox, beyond, blank).value);
    hide Accepted, Joined, Recordable, Build;
  }

  /**
   * The References header printed for a built reply parses back to the chain of the reply,
   * exactly when each entry is an identifier without white space around it.
   */
  lemma PrintedChainParsesBack(message: Message, ownLabel: string, mailbox: Mailbox, beyond: Charset, blank: Charset)
    requires Build(message, ownLabel, mailbox, beyond, blank).Some?
    requires Build(message, ownLabel, mailbox, beyond, blank).value.references != []
    ensures
      var c := Build(message, ownLabel, mailbox, beyond, blank).value;
      References(Joined(c.references), MAX_REFERENCES, beyond) == Some(c.references) <==> AllValid(c.references)
  {
    hide References, MessageId, IsMessageId, Joined, Accepted, Chain, ValidFacts;
    var c := Build(message, ownLabel, mailbox, beyond, blank).value;
    if AllValid(c.references) { ReferencesOfJoined(c.references, MAX_REFERENCES, beyond); }
    ReferencesAreValid(Joined(c.references), MAX_REFERENCES, beyond);
  }

  lemma ReferencesAreValid(value: string, maximum: nat, beyond: Charset)
    ensures References(value, maximum, beyond).Some? ==> AllValid(References(value, maximum, beyond).value)
  {
  }

  /** From a received Gmail message to the header of the reply and back: nothing in the chain changes. */
  lemma GmailReplyRoundTrip(
    critical: map<string, string>, address: Mailbox, facts: Facts, ownLabel: string, mailbox: Mailbox, beyond: Charset,
    blank: Charset)
    requires ParseGmail(critical, address, beyond).Some?
    requires Build(Message(Gmail, ParseGmail(critical, address, beyond), facts), ownLabel, mailbox, beyond, blank).Some?
    ensures
      var c := Build(Message(Gmail, ParseGmail(critical, address, beyond), facts), ownLabel, mailbox, beyond, blank).value;
      && References(Joined(c.references), MAX_REFERENCES, beyond) == Some(c.references)
      && c.references[|c.references| - 1] == MessageId(critical["message-id"], beyond).value
  {
    hide References, IsMessageId, Joined, Accepted, ValidFacts;
    var h := ParseGmail(critical, address, beyond);
    ParsedIsValid(critical, address, beyond);
    GmailReplyEndsWithSource(Message(Gmail, h, facts), ownLabel, mailbox, beyond, blank);
    PrintedChainParsesBack(Message(Gmail, h, facts), ownLabel, mailbox, beyond, blank);
  }
}
