/** What the checks on single fields accept, character by character. */
module Fields {
  import opened Commands
  import opened Base64Url
  import Authorizers

  ghost predicate LetterOrDigit(c: char) {
    'A' <= c <= 'Z' || 'a' <= c <= 'z' || '0' <= c <= '9'
  }

  /** `^[A-Za-z0-9][A-Za-z0-9._-]{0,127}$` */
  ghost predicate IsServiceId(s: string) {
    && 1 <= |s| <= 128 && LetterOrDigit(s[0])
    && forall c :: c in s ==> LetterOrDigit(c) || c == '.' || c == '_' || c == '-'
  }

  /** `^[0-9a-f]{64}$` */
  ghost predicate IsFingerprint(s: string) {
    |s| == 64 && forall c :: c in s ==> '0' <= c <= '9' || 'a' <= c <= 'f'
  }

  ghost predicate ListedReason(s: string) {
    s == "acl_removed" || s == "service_disabled" || s == "grant_revoked"
  }

  /** The text of n bytes in raw base64url. */
  ghost predicate EncodesBytes(s: string, n: nat) {
    exists b: seq<Byte> :: |b| == n && Encode(b) == s
  }

  lemma ServiceIdIff(s: string)
    ensures ValidServiceId(s) <==> IsServiceId(s)
  {
    assert forall i :: 0 <= i < |s| ==> s[i] in s;
  }

  lemma FingerprintIff(s: string)
    ensures Authorizers.ValidFingerprint(s) <==> IsFingerprint(s)
  {
    assert forall i :: 0 <= i < |s| ==> s[i] in s;
  }

  lemma HashIff(s: string)
    ensures ValidGrantIdHash(s) <==> EncodesBytes(s, 32)
  {
    GrantIdHashIff(s);
    hide ValidGrantIdHash, Encode;
  }

  /** A command in its own fields. */
  ghost predicate WellFormedCommand(m: Revocation) {
    && m.schemaVersion == "private-control-link-v1" && m.messageType == "revoke_service_admission"
    && EncodesBytes(m.messageId, 16) && m.denyUntil >= 1
    && (m.serviceId != "" || m.grantIdHash != "")
    && (m.serviceId != "" ==> IsServiceId(m.serviceId))
    && (m.grantIdHash != "" ==> EncodesBytes(m.grantIdHash, 32))
    && ListedReason(m.reason)
  }

  lemma CommandIff(m: Revocation)
    ensures ValidRevocation(m) <==> WellFormedCommand(m)
  {
    MessageIdIff(m.messageId);
    GrantIdHashIff(m.grantIdHash);
    ServiceIdIff(m.serviceId);
    hide ValidMessageId, ValidGrantIdHash, ValidServiceId, IsServiceId, Encode;
  }

  /** What is queued repeats the request: scope, reason and deadline, field by field. */
  ghost predicate Repeats(c: Revocation, id: string, channelId: U32, serviceId: string, grantIdHash: string,
                          reason: string, denyUntil: int) {
    && c.schemaVersion == "private-control-link-v1" && c.messageType == "revoke_service_admission"
    && c.messageId == id && c.channelId == channelId && c.serviceId == serviceId && c.grantIdHash == grantIdHash
    && c.reason == reason && c.denyUntil == denyUntil
  }
}
