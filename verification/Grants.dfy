/** Issuing Service Admission grants, and the index of issued grants. */
module Grants {
  import opened Wrappers
  import opened Commands
  import opened Authorizers
  import opened AuthorizerLaws
  import opened Collections

  const MINIMUM_LIFETIME: nat := 60
  const MAXIMUM_LIFETIME: nat := 3600
  const MAXIMUM_TRACKED: nat := 4096

  datatype GrantRequest = GrantRequest(
    channelId: U32, senderId: U32, role: string, requestTalk: bool, requestInterrupt: bool, servicePublicKey: string)

  /** What a grant carries besides its scope: who issued it for whom, its ID, and the digest of the holder's public key. */
  datatype Identity = Identity(issuer: string, audience: string, grantId: string, thumbprint: string)

  datatype Claims = Claims(
    identity: Identity, serviceId: string, issuedAt: nat, expiresAt: nat, channelId: U32, senderId: U32,
    role: string, permissions: bv8, priority: Option<U8>)

  datatype IssueError = NotAuthorized | TalkDenied | InterruptDenied | BadPublicKey | NoGrantId | NotSigned | TrackingFull

  /** An index entry; `expiresAt` is in nanoseconds and a whole second. */
  datatype IssuedGrant = IssuedGrant(serviceId: string, channelId: U32, expiresAt: nat)

  /** The whole second a clock reading lies in. */
  function Truncate(now: nat): nat { Unix(now) * SECOND }

  /** Canonical raw base64url of 32 bytes, as for a grant ID hash. */
  predicate ValidPublicKey(s: string) { ValidGrantIdHash(s) }

  function Authorize(serviceId: string, acl: AdmissionAcl, q: GrantRequest): Option<IssueError> {
    if !ValidServiceId(serviceId) || !acl.enabled || acl.role != q.role || !acl.allowListen then Some(NotAuthorized)
    else if q.requestTalk && !acl.allowTalk then Some(TalkDenied)
    else if q.requestInterrupt && (!q.requestTalk || !acl.allowInterrupt || acl.interruptPriority == 0)
    then Some(InterruptDenied)
    else if !ValidPublicKey(q.servicePublicKey) then Some(BadPublicKey)
    else None
  }

  function PermissionBits(q: GrantRequest): bv8 {
    1 | (if q.requestTalk then 2 else 0) | (if q.requestInterrupt then 4 else 0)
  }

  /** When a grant signed now expires, in Unix seconds. */
  function Expiry(now: nat, lifetime: nat): nat { Unix(now) + lifetime }

  function ClaimsFor(identity: Identity, serviceId: string, acl: AdmissionAcl, q: GrantRequest,
                     now: nat, lifetime: nat): Claims {
    Claims(identity, serviceId, Unix(now), Expiry(now, lifetime), q.channelId, q.senderId, q.role, PermissionBits(q),
           if q.requestInterrupt then Some(acl.interruptPriority) else None)
  }

  /** The claims repeat the request and the issuer, field by field; the times are whole seconds of the clock. */
  ghost predicate ClaimsRepeat(c: Claims, identity: Identity, serviceId: string, q: GrantRequest, now: nat, lifetime: nat) {
    && c.identity == identity && c.serviceId == serviceId
    && c.channelId == q.channelId && c.senderId == q.senderId && c.role == q.role
    && c.issuedAt * SECOND <= now < (c.issuedAt + 1) * SECOND && c.expiresAt == c.issuedAt + lifetime
  }

  /** The bits are 1 for listen, 2 for talk and 4 for interrupt, each as requested; a priority comes with interrupt only. */
  ghost predicate BitsAsRequested(c: Claims, q: GrantRequest, priority: int) {
    && c.permissions == (if q.requestInterrupt && q.requestTalk then 7 else if q.requestInterrupt then 5
                         else if q.requestTalk then 3 else 1)
    && (if q.requestInterrupt then c.priority.Some? && c.priority.value == priority else c.priority.None?)
  }

  lemma ClaimsRepeatRequest(identity: Identity, serviceId: string, acl: AdmissionAcl, q: GrantRequest, now: nat, lifetime: nat)
    ensures var c := ClaimsFor(identity, serviceId, acl, q, now, lifetime);
      ClaimsRepeat(c, identity, serviceId, q, now, lifetime) && BitsAsRequested(c, q, acl.interruptPriority)
  {
    assert now == (now / 1_000_000_000) * SECOND + now % SECOND;
  }

  /** Every grant issued from a loaded table keeps the permission order: interrupt implies talk implies listen,
      each within the row, a priority exactly with interrupt and then non-zero; receive-only roles only listen. */
  lemma IssuedPermissionsAreOrdered(t: Tables, identity: Identity, id: string, q: GrantRequest, now: nat, lifetime: nat)
    requires Load(t).Ok? && id in Load(t).value.byService
    requires AdmissionFor(Load(t).value.byService[id], q.channelId, q.senderId).Some?
    requires Authorize(id, AdmissionFor(Load(t).value.byService[id], q.channelId, q.senderId).value, q).None?
    ensures var acl := AdmissionFor(Load(t).value.byService[id], q.channelId, q.senderId).value;
      var c := ClaimsFor(identity, id, acl, q, now, lifetime); var p := c.permissions;
      && p & 1 == 1 && (p & 4 != 0 ==> p & 2 != 0) && p & 0xF8 == 0
      && (p & 2 != 0 <==> q.requestTalk) && (p & 4 != 0 <==> q.requestInterrupt)
      && (p & 2 != 0 ==> acl.allowTalk) && (p & 4 != 0 ==> acl.allowInterrupt)
      && (c.priority.Some? <==> p & 4 != 0) && (c.priority.Some? ==> c.priority.value == acl.interruptPriority != 0)
      && (ReceiveOnly(q.role) ==> p == 1)
  {
    LoadedRowsAreWellOrdered(t, id, AdmissionKey(q.channelId, q.senderId));
    hide Load, ValidServiceId, ValidGrantIdHash;
  }

  /** SHA-256 in base64url: of a text's bytes, and of the public key a text encodes. */
  datatype Digests = Digests(ofText: string -> string, ofKey: string -> string)

  // The index, as a function of what happened to it.

  /** A sweep happens on every issue that gets as far as tracking, and on every lookup. */
  datatype IndexEvent =
    | Recorded(hash: string, grant: IssuedGrant, at: nat)
    | Swept(at: nat)

  function Unexpired(issued: map<string, IssuedGrant>, now: nat): map<string, IssuedGrant> {
    map h | h in issued && issued[h].expiresAt > now :: issued[h]
  }

  function Index(log: seq<IndexEvent>): map<string, IssuedGrant> {
    if log == [] then map[]
    else
      var rest := Unexpired(Index(log[..|log| - 1]), log[|log| - 1].at);
      match log[|log| - 1]
      case Recorded(hash, grant, _) => rest[hash := grant]
      case Swept(_) => rest
  }

  /** Grant IDs are random and hashes do not collide. */
  ghost predicate FreshHashes(log: seq<IndexEvent>) {
    forall i, j :: 0 <= i < j < |log| && log[i].Recorded? && log[j].Recorded? ==> log[i].hash != log[j].hash
  }

  ghost predicate RecordedAt(log: seq<IndexEvent>, i: int, h: string) {
    0 <= i < |log| && log[i].Recorded? && log[i].hash == h
  }

  ghost predicate OutlivesFrom(log: seq<IndexEvent>, i: int, expiry: nat) {
    forall j :: 0 <= j < |log| && i < j ==> expiry > log[j].at
  }

  /** Entry i put the hash into the index and has outlived every reading of the clock since. */
  ghost predicate StillRecorded(log: seq<IndexEvent>, i: int, h: string) {
    RecordedAt(log, i, h) && OutlivesFrom(log, i, log[i].grant.expiresAt)
  }

  lemma OneEventLater(log: seq<IndexEvent>, h: string, i: int)
    requires log != [] && i < |log| - 1
    ensures RecordedAt(log, i, h) <==> RecordedAt(log[..|log| - 1], i, h)
    ensures RecordedAt(log, i, h) ==>
      (StillRecorded(log, i, h) <==>
        StillRecorded(log[..|log| - 1], i, h) && log[i].grant.expiresAt > log[|log| - 1].at)
  {
    var init := log[..|log| - 1];
    assert forall j :: 0 <= j < |init| ==> init[j] == log[j];
  }

  /** With no assumption on the clock: an entry is present iff it was recorded and its expiry is after every
      reading of the clock taken since. */
  lemma {:induction false} IndexMeaning(log: seq<IndexEvent>, h: string)
    requires FreshHashes(log)
    ensures h in Index(log) <==> exists i :: StillRecorded(log, i, h)
    ensures forall i :: RecordedAt(log, i, h) && h in Index(log) ==> Index(log)[h] == log[i].grant
  {
    if log != [] {
      var n := |log| - 1;
      var init, last := log[..n], log[n];
      IndexMeaning(init, h);
      forall i | i < n
        ensures RecordedAt(log, i, h) <==> RecordedAt(init, i, h)
        ensures RecordedAt(log, i, h) ==>
          (StillRecorded(log, i, h) <==> StillRecorded(init, i, h) && log[i].grant.expiresAt > last.at)
      {
        OneEventLater(log, h, i);
      }
      if last.Recorded? && last.hash == h {
        assert StillRecorded(log, n, h);
        NoEarlierRecord(log, h);
      } else {
        assert !RecordedAt(log, n, h);
        StepOfIndex(log, h);
        if h in Index(log) {
          var i :| StillRecorded(init, i, h);
          assert StillRecorded(log, i, h);
        }
        if i :| StillRecorded(log, i, h) {
          assert StillRecorded(init, i, h);
        }
      }
    }
  }

  lemma NoEarlierRecord(log: seq<IndexEvent>, h: string)
    requires FreshHashes(log) && log != [] && log[|log| - 1].Recorded? && log[|log| - 1].hash == h
    ensures h in Index(log) && Index(log)[h] == log[|log| - 1].grant
    ensures forall i :: RecordedAt(log, i, h) ==> i == |log| - 1
  {
    hide Unexpired;
  }

  lemma StepOfIndex(log: seq<IndexEvent>, h: string)
    requires log != [] && !(log[|log| - 1].Recorded? && log[|log| - 1].hash == h)
    ensures var before := Index(log[..|log| - 1]);
      && (h in Index(log) <==> h in before && before[h].expiresAt > log[|log| - 1].at)
      && (h in Index(log) ==> Index(log)[h] == before[h])
  {}

  ghost predicate Nondecreasing(log: seq<IndexEvent>) {
    forall i, j :: 0 <= i < j < |log| ==> log[i].at <= log[j].at
  }

  /** Under a clock that does not go back, a lookup at `now` finds exactly the recorded grants that expire after now. */
  lemma LookupFindsUnexpired(log: seq<IndexEvent>, h: string, now: nat)
    requires FreshHashes(log) && Nondecreasing(log + [Swept(now)])
    ensures h in Index(log + [Swept(now)]) <==> exists i :: RecordedAt(log, i, h) && log[i].grant.expiresAt > now
  {
    var all := log + [Swept(now)];
    IndexMeaning(all, h);
    assert forall i :: RecordedAt(all, i, h) <==> RecordedAt(log, i, h);
    forall i | RecordedAt(log, i, h) ensures StillRecorded(all, i, h) <==> log[i].grant.expiresAt > now {
      assert all[|log|].at == now;
    }
    hide Index;
    if i :| RecordedAt(log, i, h) && log[i].grant.expiresAt > now {
      assert StillRecorded(all, i, h);
    }
  }

  ghost predicate WholeSeconds(m: map<string, IssuedGrant>) {
    forall h :: h in m ==> m[h].expiresAt % SECOND == 0
  }

  /** Expiries are whole seconds, so sweeping by the truncated clock is sweeping by the clock. */
  lemma TruncationIsHarmless(expiry: nat, now: nat)
    requires expiry % SECOND == 0
    ensures expiry > Truncate(now) <==> expiry > now
  {
    assert expiry == (expiry / SECOND) * SECOND;
    assert now == (now / 1_000_000_000) * SECOND + now % SECOND;
  }

  class GrantIssuer {
    const issuer: string
    const audience: string
    /** Seconds. */
    const lifetime: nat
    var issued: map<string, IssuedGrant>
    ghost var log: seq<IndexEvent>

    ghost predicate Valid()
      reads this
    {
      && MINIMUM_LIFETIME <= lifetime <= MAXIMUM_LIFETIME
      && issued == Index(log) && WholeSeconds(issued) && |issued| <= MAXIMUM_TRACKED
    }

    constructor (issuer: string, audience: string, lifetime: nat)
      requires MINIMUM_LIFETIME <= lifetime <= MAXIMUM_LIFETIME
      ensures Valid() && log == []
      ensures this.issuer == issuer && this.audience == audience && this.lifetime == lifetime
    {
      this.issuer, this.audience, this.lifetime := issuer, audience, lifetime;
      issued, log := map[], [];
    }

    method CleanupIssued(now: nat)
      modifies this`issued
      ensures issued == Unexpired(old(issued), now)
    {
      var left := issued.Keys;
      while left != {}
        invariant left <= old(issued).Keys
        invariant issued.Keys <= old(issued).Keys
        invariant forall h :: h in issued ==> issued[h] == old(issued)[h]
        invariant forall h :: h in old(issued) ==> (h in issued <==> h in left || old(issued)[h].expiresAt > now)
      {
        var h :| h in left;
        if issued[h].expiresAt <= now { issued := issued - {h}; }
        left := left - {h};
      }
    }

    /** Issues a grant from an ACL row, under a fresh ID if one could be made. The index is full only when 4096 issued
        grants have not expired. */
    method Issue(serviceId: string, acl: AdmissionAcl, request: GrantRequest, now: nat, grantId: Option<string>,
                 digests: Digests, signed: bool)
      returns (r: Result<Claims, IssueError>)
      requires Valid()
      modifies this
      ensures Valid()
      ensures var refusal := Authorize(serviceId, acl, request);
        if refusal.Some? then r == Err(refusal.value) && log == old(log)
        else if grantId.None? then r == Err(NoGrantId) && log == old(log)
        else if !signed then r == Err(NotSigned) && log == old(log)
        else if |Unexpired(old(issued), now)| >= 4096 then r == Err(TrackingFull) && log == old(log) + [Swept(now)]
        else
          && var identity := Identity(issuer, audience, grantId.value, digests.ofKey(request.servicePublicKey));
          && r == Ok(ClaimsFor(identity, serviceId, acl, request, now, lifetime))
          && log == old(log) + [Recorded(digests.ofText(grantId.value),
                                         IssuedGrant(serviceId, request.channelId, r.value.expiresAt * SECOND), now)]
    {
      var refusal := Authorize(serviceId, acl, request);
      hide Authorize;
      if refusal.Some? { return Err(refusal.value); }
      if grantId.None? { return Err(NoGrantId); }
      var identity := Identity(issuer, audience, grantId.value, digests.ofKey(request.servicePublicKey));
      var claims := ClaimsFor(identity, serviceId, acl, request, now, lifetime);
      if !signed { return Err(NotSigned); }
      SweepByTruncated(issued, now);
      SweepShrinks(issued, now);
      CleanupIssued(Truncate(now));
      if |issued| >= MAXIMUM_TRACKED {
        log := log + [Swept(now)];
        return Err(TrackingFull);
      }
      var grant := IssuedGrant(serviceId, request.channelId, claims.expiresAt * SECOND);
      var hash := digests.ofText(grantId.value);
      issued := issued[hash := grant];
      log := log + [Recorded(hash, grant, now)];
      assert log[..|log| - 1] == old(log);
      r := Ok(claims);
    }

    method IssuedGrantFor(hash: string, now: nat) returns (grant: Option<IssuedGrant>)
      requires Valid()
      modifies this
      ensures Valid() && log == old(log) + [Swept(now)]
      ensures grant == if hash in Index(log) then Some(Index(log)[hash]) else None
    {
      SweepShrinks(issued, now);
      CleanupIssued(now);
      log := log + [Swept(now)];
      assert log[..|log| - 1] == old(log);
      grant := if hash in issued then Some(issued[hash]) else None;
    }
  }

  lemma SweepByTruncated(m: map<string, IssuedGrant>, now: nat)
    requires WholeSeconds(m)
    ensures Unexpired(m, Truncate(now)) == Unexpired(m, now)
  {
    forall h | h in m ensures m[h].expiresAt > Truncate(now) <==> m[h].expiresAt > now {
      TruncationIsHarmless(m[h].expiresAt, now);
    }
  }

  lemma SweepShrinks(m: map<string, IssuedGrant>, now: nat)
    requires WholeSeconds(m)
    ensures |Unexpired(m, now)| <= |m| && WholeSeconds(Unexpired(m, now))
  {
    var u := Unexpired(m, now);
    SubsetSize(u.Keys, m.Keys);
    assert |u| == |u.Keys| && |m| == |m.Keys|;
  }
}
