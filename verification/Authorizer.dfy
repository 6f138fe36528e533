/** The Management API authorizer: three tables, loaded as one, and the scopes a service holds. */
module Authorizers {
  import opened Wrappers
  import opened Text
  import opened Commands

  datatype AdmissionKey = AdmissionKey(channelId: U32, senderId: U32)

  datatype AdmissionAcl = AdmissionAcl(
    role: string, allowListen: bool, allowTalk: bool, allowInterrupt: bool, interruptPriority: U8, enabled: bool)

  datatype Service = Service(
    serviceId: string,
    apiRole: string,
    enabled: bool,
    channels: set<U32>,
    admissions: map<AdmissionKey, AdmissionAcl>,
    globalPermissions: set<string>)

  /** A fingerprint resolves to a service ID, and a service ID to its record. */
  datatype Authorizer = Authorizer(byFingerprint: map<string, string>, byService: map<string, Service>)

  /** Parsed CSV rows; a field that does not parse is None. */
  datatype ServiceRow = ServiceRow(serviceId: string, fingerprint: string, apiRole: string, enabled: Option<bool>)

  datatype AclRow = AclRow(
    serviceId: string, channelId: Option<U32>, senderId: Option<U32>, role: string,
    allowListen: Option<bool>, allowTalk: Option<bool>, allowInterrupt: Option<bool>,
    priority: Option<U32>, enabled: Option<bool>)

  datatype PermissionRow = PermissionRow(serviceId: string, permission: string, enabled: Option<bool>)

  datatype Tables = Tables(services: seq<ServiceRow>, acl: seq<AclRow>, permissions: seq<PermissionRow>)

  /** Which row of which table was refused. */
  datatype LoadError = BadService(row: nat) | BadAcl(row: nat) | BadPermission(row: nat)

  const HEALTH := "health.read"
  const REVOCATION := "service_admission.revoke"

  predicate ValidFingerprint(s: string) {
    |s| == 64 && forall i :: 0 <= i < 64 ==> '0' <= s[i] <= '9' || 'a' <= s[i] <= 'f'
  }

  predicate ValidApiRole(r: string) {
    r == "viewer" || r == "recorder" || r == "operator" || r == "auditor" || r == "admin"
  }

  predicate ValidServiceRow(r: ServiceRow) {
    r.enabled.Some? && ValidServiceId(r.serviceId) && ValidFingerprint(r.fingerprint) && ValidApiRole(r.apiRole)
  }

  predicate ReceiveOnly(role: string) { role == "recorder" || role == "observer" }

  /** A row on its own: parsed, and the permissions it grants are consistent. */
  predicate ValidAclRow(r: AclRow) {
    && r.channelId.Some? && r.senderId.Some? && r.senderId.value != 0
    && (ReceiveOnly(r.role) || r.role == "automation")
    && r.allowListen.Some? && r.allowTalk.Some? && r.allowInterrupt.Some?
    && r.priority.Some? && r.priority.value <= 255 && r.enabled.Some?
    && (ReceiveOnly(r.role) ==> r.allowListen.value && !r.allowTalk.value && !r.allowInterrupt.value && r.priority.value == 0)
    && (r.allowInterrupt.value ==> r.allowTalk.value && r.priority.value != 0)
    && (!r.allowInterrupt.value ==> r.priority.value == 0)
  }

  predicate ValidPermissionRow(r: PermissionRow) {
    (r.permission == HEALTH || r.permission == REVOCATION) && r.enabled.Some?
  }

  predicate EnabledService(services: map<string, Service>, id: string) {
    id in services && services[id].enabled
  }

  function KeyOf(r: AclRow): AdmissionKey
    requires ValidAclRow(r)
  {
    AdmissionKey(r.channelId.value, r.senderId.value)
  }

  function AclOf(r: AclRow): AdmissionAcl
    requires ValidAclRow(r)
  {
    AdmissionAcl(r.role, r.allowListen.value, r.allowTalk.value, r.allowInterrupt.value, r.priority.value, true)
  }

  // The text keys that detect duplicates.

  function AclText(r: AclRow): string
    requires ValidAclRow(r)
  {
    SlashKey(SlashKey(r.serviceId, r.channelId.value), r.senderId.value)
  }

  lemma AclTextIsInjective(r: AclRow, q: AclRow)
    requires ValidAclRow(r) && ValidAclRow(q)
    ensures AclText(r) == AclText(q) <==> r.serviceId == q.serviceId && KeyOf(r) == KeyOf(q)
  {
    if AclText(r) == AclText(q) {
      SlashKeyIsInjective(SlashKey(r.serviceId, r.channelId.value), r.senderId.value,
                          SlashKey(q.serviceId, q.channelId.value), q.senderId.value);
      SlashKeyIsInjective(r.serviceId, r.channelId.value, q.serviceId, q.channelId.value);
    }
  }

  function PermissionText(r: PermissionRow): string {
    r.serviceId + "\0" + r.permission
  }

  lemma PermissionTextIsInjective(r: PermissionRow, q: PermissionRow)
    requires ValidPermissionRow(r) && ValidPermissionRow(q)
    ensures PermissionText(r) == PermissionText(q) <==> r.serviceId == q.serviceId && r.permission == q.permission
  {
    if PermissionText(r) == PermissionText(q) {
      var k, m, n := PermissionText(r), |r.permission|, |q.permission|;
      assert k[|k| - m - 1] == '\0' && k[|k| - m..] == r.permission && k[..|k| - m - 1] == r.serviceId;
      assert k[|k| - n - 1] == '\0' && k[|k| - n..] == q.permission && k[..|k| - n - 1] == q.serviceId;
      assert |HEALTH| == 11 && |REVOCATION| == 24 && REVOCATION[12] == 's';
      assert m == 24 ==> k[|k| - 12] == r.permission[12] == REVOCATION[12];
      assert n == 24 ==> k[|k| - 12] == q.permission[12] == REVOCATION[12];
      assert m == n;
    }
  }

  // Loading, row by row.

  function AddService(a: Authorizer, r: ServiceRow): Authorizer
    requires ValidServiceRow(r)
  {
    Authorizer(a.byFingerprint[r.fingerprint := r.serviceId],
               a.byService[r.serviceId := Service(r.serviceId, r.apiRole, r.enabled.value, {}, map[], {})])
  }

  function LoadServices(rows: seq<ServiceRow>): Result<Authorizer, LoadError> {
    if rows == [] then Ok(Authorizer(map[], map[]))
    else
      var init, r := rows[..|rows| - 1], rows[|rows| - 1];
      match LoadServices(init)
      case Err(e) => Err(e)
      case Ok(a) =>
        if !ValidServiceRow(r) || r.serviceId in a.byService || r.fingerprint in a.byFingerprint
        then Err(BadService(|init|)) else Ok(AddService(a, r))
  }

  function Admit(s: Service, r: AclRow): Service
    requires ValidAclRow(r)
  {
    if !r.enabled.value then s
    else s.(channels := s.channels + {r.channelId.value}, admissions := s.admissions[KeyOf(r) := AclOf(r)])
  }

  predicate AclDuplicate(rows: seq<AclRow>, r: AclRow)
    requires ValidAclRow(r)
  {
    exists q :: q in rows && ValidAclRow(q) && q.serviceId == r.serviceId && KeyOf(q) == KeyOf(r)
  }

  function LoadAcl(services: map<string, Service>, rows: seq<AclRow>): Result<map<string, Service>, LoadError> {
    if rows == [] then Ok(services)
    else
      var init, r := rows[..|rows| - 1], rows[|rows| - 1];
      match LoadAcl(services, init)
      case Err(e) => Err(e)
      case Ok(m) =>
        if !EnabledService(m, r.serviceId) || !ValidAclRow(r) || AclDuplicate(init, r)
        then Err(BadAcl(|init|)) else Ok(m[r.serviceId := Admit(m[r.serviceId], r)])
  }

  function Permit(s: Service, r: PermissionRow): Service
    requires ValidPermissionRow(r)
  {
    if !r.enabled.value then s else s.(globalPermissions := s.globalPermissions + {r.permission})
  }

  predicate PermissionDuplicate(rows: seq<PermissionRow>, r: PermissionRow) {
    exists q :: q in rows && q.serviceId == r.serviceId && q.permission == r.permission
  }

  function LoadPermissions(services: map<string, Service>, rows: seq<PermissionRow>): Result<map<string, Service>, LoadError> {
    if rows == [] then Ok(services)
    else
      var init, r := rows[..|rows| - 1], rows[|rows| - 1];
      match LoadPermissions(services, init)
      case Err(e) => Err(e)
      case Ok(m) =>
        if !EnabledService(m, r.serviceId) || !ValidPermissionRow(r) || PermissionDuplicate(init, r)
        then Err(BadPermission(|init|)) else Ok(m[r.serviceId := Permit(m[r.serviceId], r)])
  }

  function Load(t: Tables): Result<Authorizer, LoadError> {
    match LoadServices(t.services)
    case Err(e) => Err(e)
    case Ok(a) =>
      match LoadAcl(a.byService, t.acl)
      case Err(e) => Err(e)
      case Ok(m) =>
        match LoadPermissions(m, t.permissions)
        case Err(e) => Err(e)
        case Ok(n) => Ok(Authorizer(a.byFingerprint, n))
  }

  /** The loader, as it runs: one pass per table over text-keyed duplicate sets. */
  method LoadManagementApiAuthorizer(t: Tables) returns (r: Result<Authorizer, LoadError>)
    ensures r == Load(t)
  {
    hide ValidServiceRow, ValidAclRow, ValidPermissionRow;
    var a := Authorizer(map[], map[]);
    for i := 0 to |t.services|
      invariant LoadServices(t.services[..i]) == Ok(a)
    {
      var row := t.services[i];
      assert t.services[..i + 1][..i] == t.services[..i];
      if !ValidServiceRow(row) || row.serviceId in a.byService || row.fingerprint in a.byFingerprint {
        ServiceErrorStands(t.services, i + 1);
        return Err(BadService(i));
      }
      a := AddService(a, row);
    }
    assert t.services[..|t.services|] == t.services;
    var acl := LoadAclRows(a.byService, t.acl);
    if acl.Err? { return Err(acl.error); }
    var permissions := LoadPermissionRows(acl.value, t.permissions);
    if permissions.Err? { return Err(permissions.error); }
    r := Ok(Authorizer(a.byFingerprint, permissions.value));
  }

  method LoadAclRows(services: map<string, Service>, rows: seq<AclRow>)
    returns (r: Result<map<string, Service>, LoadError>)
    ensures r == LoadAcl(services, rows)
  {
    hide ValidAclRow;
    var m := services;
    var seen: set<string> := {};
    for i := 0 to |rows|
      invariant LoadAcl(services, rows[..i]) == Ok(m)
      invariant forall q :: q in rows[..i] ==> ValidAclRow(q) && AclText(q) in seen
      invariant forall k :: k in seen ==> exists q :: q in rows[..i] && ValidAclRow(q) && AclText(q) == k
    {
      var row := rows[i];
      assert rows[..i + 1][..i] == rows[..i];
      if !EnabledService(m, row.serviceId) || !ValidAclRow(row) {
        AclErrorStands(services, rows, i + 1);
        return Err(BadAcl(i));
      }
      forall q | q in rows[..i]
        ensures AclText(q) == AclText(row) <==> q.serviceId == row.serviceId && KeyOf(q) == KeyOf(row)
      {
        AclTextIsInjective(q, row);
      }
      if AclText(row) in seen {
        assert AclDuplicate(rows[..i], row);
        AclErrorStands(services, rows, i + 1);
        return Err(BadAcl(i));
      }
      seen := seen + {AclText(row)};
      m := m[row.serviceId := Admit(m[row.serviceId], row)];
      assert rows[..i + 1] == rows[..i] + [row];
    }
    assert rows[..|rows|] == rows;
    r := Ok(m);
  }

  method LoadPermissionRows(services: map<string, Service>, rows: seq<PermissionRow>)
    returns (r: Result<map<string, Service>, LoadError>)
    ensures r == LoadPermissions(services, rows)
  {
    hide ValidPermissionRow;
    var m := services;
    var seen: set<string> := {};
    for i := 0 to |rows|
      invariant LoadPermissions(services, rows[..i]) == Ok(m)
      invariant forall q :: q in rows[..i] ==> ValidPermissionRow(q) && PermissionText(q) in seen
      invariant forall k :: k in seen ==> exists q :: q in rows[..i] && PermissionText(q) == k
    {
      var row := rows[i];
      assert rows[..i + 1][..i] == rows[..i];
      if !EnabledService(m, row.serviceId) || !ValidPermissionRow(row) {
        PermissionErrorStands(services, rows, i + 1);
        return Err(BadPermission(i));
      }
      forall q | q in rows[..i]
        ensures PermissionText(q) == PermissionText(row) <==> q.serviceId == row.serviceId && q.permission == row.permission
      {
        PermissionTextIsInjective(q, row);
      }
      if PermissionText(row) in seen {
        assert PermissionDuplicate(rows[..i], row);
        PermissionErrorStands(services, rows, i + 1);
        return Err(BadPermission(i));
      }
      seen := seen + {PermissionText(row)};
      m := m[row.serviceId := Permit(m[row.serviceId], row)];
      assert rows[..i + 1] == rows[..i] + [row];
    }
    assert rows[..|rows|] == rows;
    r := Ok(m);
  }

  lemma {:induction false} ServiceErrorStands(rows: seq<ServiceRow>, n: nat)
    requires n <= |rows| && LoadServices(rows[..n]).Err?
    ensures LoadServices(rows) == LoadServices(rows[..n])
    decreases |rows|
  {
    hide ValidServiceRow;
    if n < |rows| {
      assert rows[..|rows| - 1][..n] == rows[..n];
      ServiceErrorStands(rows[..|rows| - 1], n);
    } else {
      assert rows[..n] == rows;
    }
  }

  lemma {:induction false} AclErrorStands(services: map<string, Service>, rows: seq<AclRow>, n: nat)
    requires n <= |rows| && LoadAcl(services, rows[..n]).Err?
    ensures LoadAcl(services, rows) == LoadAcl(services, rows[..n])
    decreases |rows|
  {
    hide ValidAclRow, AclDuplicate;
    if n < |rows| {
      assert rows[..|rows| - 1][..n] == rows[..n];
      AclErrorStands(services, rows[..|rows| - 1], n);
    } else {
      assert rows[..n] == rows;
    }
  }

  lemma {:induction false} PermissionErrorStands(services: map<string, Service>, rows: seq<PermissionRow>, n: nat)
    requires n <= |rows| && LoadPermissions(services, rows[..n]).Err?
    ensures LoadPermissions(services, rows) == LoadPermissions(services, rows[..n])
    decreases |rows|
  {
    hide ValidPermissionRow, PermissionDuplicate;
    if n < |rows| {
      assert rows[..|rows| - 1][..n] == rows[..n];
      PermissionErrorStands(services, rows[..|rows| - 1], n);
    } else {
      assert rows[..n] == rows;
    }
  }

  // Scopes of a loaded service.

  function AdmissionFor(s: Service, channelId: U32, senderId: U32): Option<AdmissionAcl> {
    var k := AdmissionKey(channelId, senderId);
    if k in s.admissions && s.admissions[k].enabled then Some(s.admissions[k]) else None
  }

  predicate ReadsEvents(s: Service) {
    s.apiRole == "viewer" || s.apiRole == "recorder" || s.apiRole == "operator" || s.apiRole == "auditor"
  }

  predicate CanOpenEventStream(s: Service) {
    HEALTH in s.globalPermissions || (ReadsEvents(s) && s.channels != {})
  }

  /** Whether a service may see an event of this channel (None: a Relay-wide event) and type. */
  predicate CanReceiveEvent(s: Service, channelId: Option<U32>, eventType: string) {
    match channelId
    case Some(c) => ReadsEvents(s) && c in s.channels
    case None => eventType == "relay_health_changed" && HEALTH in s.globalPermissions
  }
}
