/** Signed automatic-reply chains of `mailflow/autoreplychain`. */
module ReplyChain {
  import opened Options
  import opened Text

  const COUNT_LIMIT := 1_000_000
  const VALIDITY := 24 * 3600
  const CLOCK_SKEW := 300
  const MAX_INT64 := 0x7FFF_FFFF_FFFF_FFFF

  type Tag = string

  /** A deployment's chain: the MAC under its key, and the encoding of signatures. */
  datatype Chain = Chain(mac: (string, int, string, string, int) -> Tag, encode: Tag -> string, decode: string -> Option<Tag>, maxCount: nat)

  /** What New checks and the base64 encoding guarantees. */
  ghost predicate Lawful(c: Chain) {
    0 < c.maxCount <= COUNT_LIMIT && forall t :: c.decode(c.encode(t)) == Some(t)
  }

  /** The headers of a message that matter here; None for one that is absent, empty or
      repeated. */
  datatype Header = Header(
    traceId: Option<string>, count: Option<string>, recipient: Option<string>, expires: Option<string>,
    signature: Option<string>, messageId: string, automated: bool)

  datatype Verification = Missing | Valid | Invalid
  datatype Context = Context(verification: Verification, traceId: string, count: nat, automated: bool)
  datatype Metadata = Metadata(traceId: string, count: nat, recipient: string, expiresAt: nat, signature: string)
  datatype Reply = Reply(metadata: Metadata) | ExternalAutomatedReply | LimitReached | BadMessageId | BadRecipient

  function Lower(c: char): char {
    if 'A' <= c <= 'Z' then (c as int + 32) as char else c
  }

  function ToLower(s: string): string {
    seq(|s|, i requires 0 <= i < |s| => Lower(s[i]))
  }

  predicate ContainsAny(s: string, chars: string) {
    exists i :: 0 <= i < |s| && s[i] in chars
  }

  function CanonicalRecipient(s: string): string {
    var v := ToLower(TrimSpace(s));
    if v == "" || |v| > 320 || '@' !in v || ContainsAny(v, "\r\n\t ,") then "" else v
  }

  function CanonicalMessageId(s: string): string {
    var v := TrimSpace(s);
    if |v| < 3 || v[0] != '<' || v[|v| - 1] != '>' || ContainsAny(v, "\r\n\t ") then "" else v
  }

  predicate ValidTraceId(s: string) {
    0 < |s| <= 64 && forall i :: 0 <= i < |s| ==> 'a' <= s[i] <= 'z' || 'A' <= s[i] <= 'Z' || IsDigit(s[i]) || s[i] == '-' || s[i] == '_'
  }

  function Mac(c: Chain, traceId: string, count: int, messageId: string, recipient: string, expiresAt: int): Tag {
    c.mac(traceId, count, CanonicalMessageId(messageId), CanonicalRecipient(recipient), expiresAt)
  }

  predicate Complete(h: Header) {
    h.traceId.Some? && h.count.Some? && h.recipient.Some? && h.expires.Some? && h.signature.Some?
  }

  predicate Absent(h: Header) {
    h.traceId.None? && h.count.None? && h.recipient.None? && h.expires.None? && h.signature.None?
  }

  predicate Genuine(c: Chain, h: Header, expectedRecipient: string, now: nat) {
    && Complete(h)
    && ValidTraceId(h.traceId.value)
    && CanonicalRecipient(h.recipient.value) != "" && CanonicalRecipient(h.recipient.value) == CanonicalRecipient(expectedRecipient)
    && ParseInt(h.count.value, MAX_INT64).Some? && 0 < ParseInt(h.count.value, MAX_INT64).value <= COUNT_LIMIT
    && ParseInt(h.expires.value, MAX_INT64).Some?
    && now < ParseInt(h.expires.value, MAX_INT64).value <= now + VALIDITY + CLOCK_SKEW
    && CanonicalMessageId(h.messageId) != ""
    && c.decode(h.signature.value) == Some(Mac(c, h.traceId.value, ParseInt(h.count.value, MAX_INT64).value,
         CanonicalMessageId(h.messageId), CanonicalRecipient(h.recipient.value), ParseInt(h.expires.value, MAX_INT64).value))
  }

  function Verify(c: Chain, h: Header, expectedRecipient: string, now: nat): Context {
    if Absent(h) then Context(Missing, "", 0, h.automated)
    else if Genuine(c, h, expectedRecipient, now) then Context(Valid, h.traceId.value, ParseInt(h.count.value, MAX_INT64).value, h.automated)
    else Context(Invalid, "", 0, h.automated)
  }

  predicate BlocksAutomaticReply(ctx: Context) {
    ctx.automated && ctx.verification != Valid
  }

  /** The circumstances of one reply; `forward` when the caller has verified the source as a
      trusted rule forward, and so asks with NextFromTrustedForward. */
  datatype Occasion = Occasion(messageId: string, from: string, to: string, now: nat, freshId: string, forward: bool)

  function Next(c: Chain, source: Header, o: Occasion): Reply {
    var ctx := Verify(c, source, o.from, o.now);
    if BlocksAutomaticReply(ctx) && !o.forward then ExternalAutomatedReply
    else if ctx.verification == Valid && ctx.count >= c.maxCount then LimitReached
    else
      var traceId := if ctx.traceId == "" then o.freshId else ctx.traceId;
      var count := if ctx.verification == Valid then ctx.count + 1 else 1;
      var messageId, recipient := CanonicalMessageId(o.messageId), CanonicalRecipient(o.to);
      if messageId == "" then BadMessageId
      else if recipient == "" then BadRecipient
      else
        var expiresAt := o.now + VALIDITY;
        Reply(Metadata(traceId, count, recipient, expiresAt, c.encode(Mac(c, traceId, count, messageId, recipient, expiresAt))))
  }

  /** The headers of the reply, as the next reader finds them. */
  function Headers(m: Metadata, messageId: string): Header {
    Header(Some(m.traceId), Some(Format(m.count)), Some(m.recipient), Some(Format(m.expiresAt)), Some(m.signature), messageId, true)
  }

  // ---------------------------------------------------------------------------
  // Canonical forms
  // ---------------------------------------------------------------------------

  predicate Tight(s: string) {
    s != "" ==> !IsSpace(s[0]) && !IsSpace(s[|s| - 1])
  }

  lemma {:induction false} TrimLeftTight(s: string)
    ensures TrimLeft(s) != "" ==> !IsSpace(TrimLeft(s)[0])
  {
    if s != "" && IsSpace(s[0]) {
      TrimLeftTight(s[1..]);
    }
  }

  lemma {:induction false} TrimRightTight(s: string)
    requires s != "" ==> !IsSpace(s[0])
    ensures Tight(TrimRight(s))
  {
    if s != "" && IsSpace(s[|s| - 1]) {
      TrimRightTight(s[..|s| - 1]);
    }
  }

  lemma TrimTight(s: string)
    ensures Tight(TrimSpace(s)) && (Tight(s) ==> TrimSpace(s) == s)
  {
    TrimLeftTight(s);
    TrimRightTight(TrimLeft(s));
  }

  /** Canonical forms are their own canonical forms, so what is signed is what is read. */
  lemma CanonicalAgain(s: string)
    ensures CanonicalRecipient(CanonicalRecipient(s)) == CanonicalRecipient(s)
    ensures CanonicalMessageId(CanonicalMessageId(s)) == CanonicalMessageId(s)
  {
    TrimTight(s);
    var r := CanonicalRecipient(s);
    assert ToLower(r) == r;
    TrimTight(r);
    TrimTight(CanonicalMessageId(s));
  }

  // ---------------------------------------------------------------------------
  // Main results
  // ---------------------------------------------------------------------------

  /** A reply made by Next verifies, with its trace and count, for the recipient it was
      made for, exactly in the time window that its expiry allows. */
  lemma VerifyInvertsNext(c: Chain, source: Header, o: Occasion, reader: string, now: nat)
    requires Lawful(c) && ValidTraceId(o.freshId) && o.now + VALIDITY <= MAX_INT64
    requires Next(c, source, o).Reply? && CanonicalRecipient(reader) == Next(c, source, o).metadata.recipient
    ensures var m := Next(c, source, o).metadata;
      Verify(c, Headers(m, o.messageId), reader, now) == (
        if now < o.now + VALIDITY <= now + VALIDITY + CLOCK_SKEW then Context(Valid, m.traceId, m.count, true)
        else Context(Invalid, "", 0, true))
  {
    var m := Next(c, source, o).metadata;
    NextCounts(c, source, o);
    NextWellSigned(c, source, o);
    HeadersGenuine(c, m, o.messageId, reader, now);
    VerifyHeaders(c, m, o.messageId, reader, now);
  }

  lemma NextWellSigned(c: Chain, source: Header, o: Occasion)
    requires Next(c, source, o).Reply?
    ensures WellSigned(c, Next(c, source, o).metadata, o.messageId) && Next(c, source, o).metadata.expiresAt == o.now + VALIDITY
  {
    CanonicalAgain(o.to);
  }

  /** A reply's headers verify as the reply's trace and count, or not at all. */
  lemma VerifyHeaders(c: Chain, m: Metadata, messageId: string, reader: string, now: nat)
    requires 1 <= m.count <= COUNT_LIMIT
    ensures var h := Headers(m, messageId);
      Verify(c, h, reader, now) == if Genuine(c, h, reader, now) then Context(Valid, m.traceId, m.count, true) else Context(Invalid, "", 0, true)
  {
    ParseIsValue(Format(m.count), MAX_INT64);
  }

  predicate WellSigned(c: Chain, m: Metadata, messageId: string) {
    && m.recipient != "" && CanonicalRecipient(m.recipient) == m.recipient && CanonicalMessageId(messageId) != ""
    && m.signature == c.encode(Mac(c, m.traceId, m.count, CanonicalMessageId(messageId), m.recipient, m.expiresAt))
  }

  lemma HeadersGenuine(c: Chain, m: Metadata, messageId: string, reader: string, now: nat)
    requires Lawful(c) && WellSigned(c, m, messageId) && ValidTraceId(m.traceId) && 1 <= m.count <= COUNT_LIMIT && m.expiresAt <= MAX_INT64
    requires CanonicalRecipient(reader) == m.recipient
    ensures Genuine(c, Headers(m, messageId), reader, now) <==> now < m.expiresAt <= now + VALIDITY + CLOCK_SKEW
  {
    ParseIsValue(Format(m.count), MAX_INT64);
    ParseIsValue(Format(m.expiresAt), MAX_INT64);
  }

  /** The count of a reply: one more than that of a genuine source, 1 otherwise, and never
      over the limit. */
  lemma NextCounts(c: Chain, source: Header, o: Occasion)
    requires Lawful(c) && ValidTraceId(o.freshId) && Next(c, source, o).Reply?
    ensures var m, ctx := Next(c, source, o).metadata, Verify(c, source, o.from, o.now);
      && ValidTraceId(m.traceId) && 1 <= m.count <= c.maxCount
      && m.count == (if ctx.verification == Valid then ctx.count + 1 else 1)
      && (ctx.verification == Valid ==> m.traceId == ctx.traceId)
  {
  }

  /** Each message answers the one before it.  Only the first can answer a rule forward: a
      reply carries no rule signature. */
  ghost predicate IsChain(c: Chain, replies: seq<Metadata>, occasions: seq<Occasion>, first: Header) {
    && |replies| == |occasions|
    && (forall i :: 0 <= i < |occasions| ==> ValidTraceId(occasions[i].freshId) && (i > 0 ==> !occasions[i].forward))
    && (forall i :: 0 <= i < |replies| ==> Next(c, Source(replies, occasions, first, i), occasions[i]) == Reply(replies[i]))
  }

  function Source(replies: seq<Metadata>, occasions: seq<Occasion>, first: Header, i: nat): Header
    requires i < |replies| == |occasions|
  {
    if i == 0 then first else Headers(replies[i - 1], occasions[i - 1].messageId)
  }

  /** Whatever the times and recipients, replies to replies count up by one within one
      trace. */
  lemma {:induction false} CountsUp(c: Chain, replies: seq<Metadata>, occasions: seq<Occasion>, first: Header, i: nat)
    requires Lawful(c) && IsChain(c, replies, occasions, first) && i < |replies|
    ensures replies[i].count == replies[0].count + i && replies[i].traceId == replies[0].traceId
    ensures 1 <= replies[i].count <= c.maxCount
  {
    NextCounts(c, Source(replies, occasions, first, i), occasions[i]);
    if i > 0 {
      CountsUp(c, replies, occasions, first, i - 1);
      AnswersReply(c, replies[i - 1], occasions[i - 1].messageId, occasions[i]);
    }
  }

  /** An answer to a reply goes on with its count and trace, or is not made. */
  lemma AnswersReply(c: Chain, m: Metadata, messageId: string, o: Occasion)
    requires Lawful(c) && 1 <= m.count <= c.maxCount && ValidTraceId(o.freshId) && !o.forward && Next(c, Headers(m, messageId), o).Reply?
    ensures var r := Next(c, Headers(m, messageId), o).metadata;
      r.count == m.count + 1 && r.traceId == m.traceId
  {
    VerifyHeaders(c, m, messageId, o.from, o.now);
    NextCounts(c, Headers(m, messageId), o);
  }

  /** So a chain of automatic replies has at most maxCount members. */
  lemma ChainIsBounded(c: Chain, replies: seq<Metadata>, occasions: seq<Occasion>, first: Header)
    requires Lawful(c) && IsChain(c, replies, occasions, first)
    ensures |replies| <= c.maxCount
  {
    if replies != [] {
      CountsUp(c, replies, occasions, first, 0);
      CountsUp(c, replies, occasions, first, |replies| - 1);
    }
  }
}
