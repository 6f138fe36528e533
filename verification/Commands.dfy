/** The messages of the Private Control Link that concern revocations, and their validity rules. */
module Commands {
  import opened Text

  type U8 = x: int | 0 <= x < 0x100
  type U32 = x: int | 0 <= x < 0x1_0000_0000
  type I64 = x: int | -0x8000_0000_0000_0000 <= x < 0x8000_0000_0000_0000

  const SCHEMA := "private-control-link-v1"
  const REVOKE := "revoke_service_admission"

  /** Nanoseconds in a second; every clock of the model counts nanoseconds. */
  const SECOND: nat := 1_000_000_000

  function Unix(t: nat): nat { t / 1_000_000_000 }

  datatype Revocation = Revocation(
    schemaVersion: string,
    messageType: string,
    messageId: string,
    channelId: U32,
    serviceId: string,
    grantIdHash: string,
    reason: string,
    denyUntil: I64)

  datatype Outcome = Applied | AlreadyExpired

  /** What a Relay may answer: an `ack` or an `error` that names a message. */
  datatype Reply =
    | Ack(inReplyTo: string, denyUntil: I64, outcome: Outcome, affected: U32, released: U32)
    | Refusal(inReplyTo: string, code: string)

  predicate IsAlphanumeric(c: char) {
    'A' <= c <= 'Z' || 'a' <= c <= 'z' || '0' <= c <= '9'
  }

  predicate IsBase64Url(c: char) {
    IsAlphanumeric(c) || c == '-' || c == '_'
  }

  predicate IsServiceChar(c: char) {
    IsAlphanumeric(c) || c == '.' || c == '_' || c == '-'
  }

  predicate IsLastOf16(c: char) {
    c == 'A' || c == 'Q' || c == 'g' || c == 'w'
  }

  predicate IsLastOf32(c: char) {
    || IsLastOf16(c) || c == 'E' || c == 'I' || c == 'M' || c == 'U' || c == 'Y' || c == 'c' || c == 'k' || c == 'o'
    || c == 's' || c == '0' || c == '4' || c == '8'
  }

  /** Canonical raw base64url of 16 bytes: the last character carries two data bits. */
  predicate ValidMessageId(s: string) {
    |s| == 22 && (forall i :: 0 <= i < 22 ==> IsBase64Url(s[i])) && IsLastOf16(s[21])
  }

  /** Canonical raw base64url of 32 bytes: the last character carries four data bits. */
  predicate ValidGrantIdHash(s: string) {
    |s| == 43 && (forall i :: 0 <= i < 43 ==> IsBase64Url(s[i])) && IsLastOf32(s[42])
  }

  predicate ValidServiceId(s: string) {
    && 1 <= |s| <= 128
    && IsAlphanumeric(s[0])
    && forall i :: 0 <= i < |s| ==> IsServiceChar(s[i])
  }

  predicate ValidReason(s: string) {
    s == "acl_removed" || s == "service_disabled" || s == "grant_revoked"
  }

  predicate ValidRevocation(m: Revocation) {
    && m.schemaVersion == SCHEMA && m.messageType == REVOKE
    && ValidMessageId(m.messageId) && m.denyUntil >= 1
    && (m.serviceId == "" || ValidServiceId(m.serviceId))
    && (m.grantIdHash == "" || ValidGrantIdHash(m.grantIdHash))
    && (m.serviceId != "" || m.grantIdHash != "")
    && ValidReason(m.reason)
  }

  predicate ValidAck(a: Reply)
    requires a.Ack?
  {
    && ValidMessageId(a.inReplyTo) && a.denyUntil >= 1
    && (a.outcome.Applied? || (a.affected == 0 && a.released == 0))
  }

  // JSON text of one command. The strings of a valid command need no escaping.

  function Member(name: string, value: string): string {
    "\"" + name + "\":" + value
  }

  function Quoted(s: string): string {
    "\"" + s + "\""
  }

  function OptionalMember(name: string, value: string): string {
    if value == "" then "" else Member(name, Quoted(value)) + ","
  }

  function Integer(n: int): string {
    if n < 0 then "-" + Decimal(-n) else Decimal(n)
  }

  function EncodeRevocation(m: Revocation): string {
    "{" + (Member("schema_version", Quoted(m.schemaVersion))
    + ("," + (Member("type", Quoted(m.messageType))
    + ("," + (Member("message_id", Quoted(m.messageId))
    + ("," + (Member("channel_id", Decimal(m.channelId)) + ("," + EncodeScope(m)))))))))
  }

  function EncodeScope(m: Revocation): string {
    OptionalMember("service_id", m.serviceId) + (OptionalMember("grant_id_hash", m.grantIdHash) + EncodeRest(m))
  }

  function EncodeRest(m: Revocation): string {
    Member("reason", Quoted(m.reason)) + ("," + (Member("deny_until", Integer(m.denyUntil)) + "}"))
  }

  lemma PowersOfTen()
    ensures Power10(10) == 1_00000_00000 && Power10(19) == 1_0000_00000_00000_00000
  {
    assert Power10(5) == 1_00000;
    assert Power10(10) == 1_00000_00000;
    assert Power10(15) == 1_00000_00000_00000;
  }

  const MAX_ENCODED_REVOCATION := 407

  lemma RestBound(m: Revocation)
    requires ValidReason(m.reason) && m.denyUntil >= 1
    ensures 2 <= |EncodeRest(m)| <= 61
  {
    PowersOfTen();
    DecimalLength(m.denyUntil, 19);
    hide Power10, Decimal;
  }

  lemma ScopeBound(m: Revocation)
    requires ValidReason(m.reason) && m.denyUntil >= 1 && |m.serviceId| <= 128 && |m.grantIdHash| <= 43
    ensures |EncodeScope(m)| <= 267
  {
    RestBound(m);
    hide EncodeRest, ValidReason;
  }

  /** A valid command always fits its bound, so it fits one frame and 64 of them fit the store file. */
  lemma EncodedRevocationBound(m: Revocation)
    requires ValidRevocation(m)
    ensures 2 <= |EncodeRevocation(m)| <= MAX_ENCODED_REVOCATION
  {
    PowersOfTen();
    DecimalLength(m.channelId, 10);
    ScopeBound(m);
    hide Power10, Decimal, EncodeScope;
    assert m.schemaVersion == SCHEMA && m.messageType == REVOKE && |m.messageId| == 22;
    hide ValidRevocation;
  }
}
