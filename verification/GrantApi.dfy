/** The grant endpoint over loaded tables: who gets a grant, and what the grant and its index entry say. */
module GrantApi {
  import opened Wrappers
  import opened Commands
  import opened Base64Url
  import opened Fields
  import opened Authorizers
  import opened AuthorizerLaws
  import opened TableLaws
  import opened Grants

  /** The ACL row that lets this service have what it asks for. */
  ghost predicate RowAllows(row: AclRow, id: string, q: GrantRequest) {
    && row.serviceId == id && row.channelId == Some(q.channelId) && row.senderId == Some(q.senderId)
    && row.enabled == Some(true) && row.role == q.role && row.allowListen == Some(true)
    && (q.requestTalk ==> row.allowTalk == Some(true))
    && (q.requestInterrupt ==> q.requestTalk && row.allowInterrupt == Some(true))
  }

  ghost predicate AllowedBy(t: Tables, id: string, q: GrantRequest) {
    exists row :: row in t.acl && RowAllows(row, id, q)
  }

  lemma RowOfEntry(t: Tables, id: string, k: AdmissionKey) returns (row: AclRow)
    requires Load(t).Ok? && id in Load(t).value.byService && k in Load(t).value.byService[id].admissions
    ensures row in t.acl && row.serviceId == id && row.channelId == Some(k.channelId) && row.senderId == Some(k.senderId)
    ensures var e := Load(t).value.byService[id].admissions[k];
      && row.role == e.role && row.enabled == Some(true) && row.allowListen == Some(e.allowListen)
      && row.allowTalk == Some(e.allowTalk) && row.allowInterrupt == Some(e.allowInterrupt)
      && row.priority.Some? && row.priority.value == e.interruptPriority
  {
    var e := Load(t).value.byService[id].admissions[k];
    LoadedRowsAreWellOrdered(t, id, k);
    EntriesAreTheEnabledRows(t, id, k.channelId, k.senderId, e.role, e.allowListen, e.allowTalk, e.allowInterrupt,
                             e.interruptPriority);
    row := AclRow(id, Some(k.channelId), Some(k.senderId), e.role, Some(e.allowListen), Some(e.allowTalk),
                  Some(e.allowInterrupt), Some(e.interruptPriority), Some(true));
  }

  lemma EntryOfRow(t: Tables, row: AclRow)
    requires Load(t).Ok? && row in t.acl && row.enabled == Some(true)
    ensures GoodAclRow(row)
    ensures var m := Load(t).value.byService; var k := AdmissionKey(row.channelId.value, row.senderId.value);
      && row.serviceId in m && k in m[row.serviceId].admissions
      && var e := m[row.serviceId].admissions[k];
      && e.enabled && e.role == row.role && row.allowListen == Some(e.allowListen) && row.allowTalk == Some(e.allowTalk)
      && row.allowInterrupt == Some(e.allowInterrupt) && row.priority.value == e.interruptPriority
  {
    LoadAcceptsIff(t);
    hide Load;
    EntriesAreTheEnabledRows(t, row.serviceId, row.channelId.value, row.senderId.value, row.role, row.allowListen.value,
                             row.allowTalk.value, row.allowInterrupt.value, row.priority.value);
    assert row == AclRow(row.serviceId, Some(row.channelId.value), Some(row.senderId.value), row.role,
                         Some(row.allowListen.value), Some(row.allowTalk.value), Some(row.allowInterrupt.value),
                         Some(row.priority.value), Some(true));
  }

  /** A request of a loaded service passes every check exactly when an enabled row of its own allows it
      and its public key is the text of 32 bytes. */
  lemma AuthorizedIff(t: Tables, id: string, q: GrantRequest)
    requires Load(t).Ok? && id in Load(t).value.byService
    ensures var acl := AdmissionFor(Load(t).value.byService[id], q.channelId, q.senderId);
      (acl.Some? && Authorize(id, acl.value, q).None?) <==> AllowedBy(t, id, q) && EncodesBytes(q.servicePublicKey, 32)
  {
    LoadIsCanonical(t);
    GrantIdHashIff(q.servicePublicKey);
    var s, k := Load(t).value.byService[id], AdmissionKey(q.channelId, q.senderId);
    hide ValidServiceId, ValidGrantIdHash, Encode;
    if AllowedBy(t, id, q) {
      var row :| row in t.acl && RowAllows(row, id, q);
      EntryOfRow(t, row);
    }
    if k in s.admissions {
      LoadedRowsAreWellOrdered(t, id, k);
      var row := RowOfEntry(t, id, k);
      assert RowAllows(row, id, q) ==> AllowedBy(t, id, q);
    }
    hide Load;
  }

  /** An enabled row of the service for this channel and sender, whatever it allows. */
  ghost predicate HasRow(t: Tables, id: string, q: GrantRequest) {
    exists row :: row in t.acl && row.serviceId == id && row.enabled == Some(true)
                  && row.channelId == Some(q.channelId) && row.senderId == Some(q.senderId)
  }

  lemma AdmissionIff(t: Tables, id: string, q: GrantRequest)
    requires Load(t).Ok? && id in Load(t).value.byService
    ensures AdmissionFor(Load(t).value.byService[id], q.channelId, q.senderId).Some? <==> HasRow(t, id, q)
  {
    if HasRow(t, id, q) {
      var row :| row in t.acl && row.serviceId == id && row.enabled == Some(true)
        && row.channelId == Some(q.channelId) && row.senderId == Some(q.senderId);
      EntryOfRow(t, row);
    }
    if AdmissionFor(Load(t).value.byService[id], q.channelId, q.senderId).Some? {
      var row := RowOfEntry(t, id, AdmissionKey(q.channelId, q.senderId));
    }
    hide Load, GoodAclRow;
  }

  datatype Answer = Forbidden | Refused(error: IssueError) | Unavailable | Created(claims: Claims)

  /** `handleServiceAdmissionGrant`, from the authenticated service and the decoded body. */
  method HandleGrant(issuer: GrantIssuer?, service: Service, q: GrantRequest, now: nat, grantId: Option<string>,
                     digests: Digests, signed: bool, ghost t: Tables)
    returns (r: Answer)
    requires issuer != null ==> issuer.Valid()
    requires Load(t).Ok? && service.serviceId in Load(t).value.byService
    requires service == Load(t).value.byService[service.serviceId]
    modifies if issuer == null then {} else {issuer}
    ensures issuer != null ==> issuer.Valid()
    ensures r.Created? <==>
      && issuer != null && (service.apiRole == "recorder" || service.apiRole == "operator")
      && AllowedBy(t, service.serviceId, q) && EncodesBytes(q.servicePublicKey, 32) && grantId.Some? && signed
      && |Unexpired(old(issuer.issued), now)| < 4096
    ensures r.Created? ==>
      && var c := r.claims; var identity := Identity(issuer.issuer, issuer.audience, grantId.value, digests.ofKey(q.servicePublicKey));
      && ClaimsRepeat(c, identity, service.serviceId, q, now, issuer.lifetime)
      && exists row :: (row in t.acl && RowAllows(row, c.serviceId, q) && row.role == c.role
                        && row.priority.Some? && BitsAsRequested(c, q, row.priority.value))
    ensures r.Created? ==> r.claims.issuedAt + 60 <= r.claims.expiresAt <= r.claims.issuedAt + 3600
    ensures r.Forbidden? <==>
      issuer != null && !((service.apiRole == "recorder" || service.apiRole == "operator") && HasRow(t, service.serviceId, q))
    ensures r.Unavailable? ==> issuer == null || |Unexpired(old(issuer.issued), now)| >= 4096
    ensures !r.Created? && issuer != null ==> forall e :: e in issuer.log && e !in old(issuer.log) ==> e.Swept?
    ensures r.Created? ==>
      && |issuer.log| == |old(issuer.log)| + 1 && issuer.log[..|old(issuer.log)|] == old(issuer.log)
      && var entry := issuer.log[|old(issuer.log)|]; var c := r.claims;
      && entry.Recorded? && entry.hash == digests.ofText(c.identity.grantId) && entry.at == now
      && entry.grant.serviceId == c.serviceId && entry.grant.channelId == c.channelId
      && entry.grant.expiresAt == c.expiresAt * SECOND
  {
    hide Load, Authorize, GoodAclRow;
    if issuer == null { return Unavailable; }
    if service.apiRole != "recorder" && service.apiRole != "operator" { return Forbidden; }
    var acl := AdmissionFor(service, q.channelId, q.senderId);
    AuthorizedIff(t, service.serviceId, q);
    AdmissionIff(t, service.serviceId, q);
    if acl.None? { return Forbidden; }
    ghost var row := RowOfEntry(t, service.serviceId, AdmissionKey(q.channelId, q.senderId));
    ghost var identity := if grantId.Some?
      then Identity(issuer.issuer, issuer.audience, grantId.value, digests.ofKey(q.servicePublicKey)) else Identity("", "", "", "");
    ClaimsRepeatRequest(identity, service.serviceId, acl.value, q, now, issuer.lifetime);
    ChecksDoNotTrack(service.serviceId, acl.value, q);
    var issued := issuer.Issue(service.serviceId, acl.value, q, now, grantId, digests, signed);
    match issued {
      case Err(TrackingFull) => r := Unavailable;
      case Err(e) => r := Refused(e);
      case Ok(claims) =>
        AuthorizeMeansAllowed(service.serviceId, acl.value, q, row);
        r := Created(claims);
    }
  }

  lemma ChecksDoNotTrack(id: string, acl: AdmissionAcl, q: GrantRequest)
    ensures Authorize(id, acl, q) != Some(TrackingFull)
  {
    hide ValidServiceId, ValidPublicKey;
  }

  lemma AuthorizeMeansAllowed(id: string, acl: AdmissionAcl, q: GrantRequest, row: AclRow)
    requires Authorize(id, acl, q).None?
    requires row.serviceId == id && row.channelId == Some(q.channelId) && row.senderId == Some(q.senderId)
    requires row.role == acl.role && row.enabled == Some(true) && row.allowListen == Some(acl.allowListen)
    requires row.allowTalk == Some(acl.allowTalk) && row.allowInterrupt == Some(acl.allowInterrupt)
    ensures RowAllows(row, id, q) && row.role == q.role && EncodesBytes(q.servicePublicKey, 32)
  {
    HashIff(q.servicePublicKey);
    hide ValidServiceId, ValidGrantIdHash, EncodesBytes;
  }
}
