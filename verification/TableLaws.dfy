/** The loader in the tables' own fields: which rows it accepts, and what each accepted row leaves in the authorizer. */
module TableLaws {
  import opened Wrappers
  import opened Commands
  import opened Authorizers
  import opened AuthorizerLaws
  import opened Fields

  /** A service row that is accepted on its own. */
  ghost predicate GoodServiceRow(r: ServiceRow) {
    && r.enabled.Some? && IsServiceId(r.serviceId) && IsFingerprint(r.fingerprint)
    && (r.apiRole == "viewer" || r.apiRole == "recorder" || r.apiRole == "operator" || r.apiRole == "auditor" || r.apiRole == "admin")
  }

  /** An ACL row that is accepted on its own: every field parsed, a sender other than 0, a priority of at most 255, and
      receive-only roles with listen and nothing else; interrupt exactly with a priority, and only with talk. */
  ghost predicate GoodAclRow(r: AclRow) {
    && r.channelId.Some? && r.senderId.Some? && r.senderId != Some(0)
    && r.allowListen.Some? && r.allowTalk.Some? && r.allowInterrupt.Some? && r.enabled.Some?
    && r.priority.Some? && r.priority.value <= 255
    && (r.role == "automation"
        || ((r.role == "recorder" || r.role == "observer")
            && r.allowListen == Some(true) && r.allowTalk == Some(false) && r.allowInterrupt == Some(false)))
    && (r.allowInterrupt == Some(true) ==> r.allowTalk == Some(true))
    && (r.allowInterrupt == Some(true) <==> r.priority.value > 0)
  }

  ghost predicate GoodPermissionRow(r: PermissionRow) {
    (r.permission == "health.read" || r.permission == "service_admission.revoke") && r.enabled.Some?
  }

  ghost predicate EnabledRow(t: Tables, id: string) {
    exists r :: r in t.services && r.serviceId == id && r.enabled == Some(true)
  }

  ghost predicate NoServiceTwice(rows: seq<ServiceRow>) {
    forall i, j :: 0 <= i < j < |rows| ==> rows[i].serviceId != rows[j].serviceId && rows[i].fingerprint != rows[j].fingerprint
  }

  ghost predicate NoAdmissionTwice(rows: seq<AclRow>) {
    forall i, j :: 0 <= i < j < |rows| ==>
      rows[i].serviceId != rows[j].serviceId || rows[i].channelId != rows[j].channelId || rows[i].senderId != rows[j].senderId
  }

  ghost predicate NoPermissionTwice(rows: seq<PermissionRow>) {
    forall i, j :: 0 <= i < j < |rows| ==>
      rows[i].serviceId != rows[j].serviceId || rows[i].permission != rows[j].permission
  }

  /** The tables as a whole: good rows, scopes for enabled services only, and no service ID, no fingerprint,
      no (service, channel, sender) and no (service, permission) twice. */
  ghost predicate GoodTables(t: Tables) {
    && (forall r :: r in t.services ==> GoodServiceRow(r)) && NoServiceTwice(t.services)
    && (forall r :: r in t.acl ==> GoodAclRow(r) && EnabledRow(t, r.serviceId)) && NoAdmissionTwice(t.acl)
    && (forall r :: r in t.permissions ==> GoodPermissionRow(r) && EnabledRow(t, r.serviceId))
    && NoPermissionTwice(t.permissions)
  }

  lemma ServiceRowIff(r: ServiceRow)
    ensures ValidServiceRow(r) <==> GoodServiceRow(r)
  {
    ServiceIdIff(r.serviceId);
    FingerprintIff(r.fingerprint);
    hide ValidServiceId, ValidFingerprint, IsServiceId, IsFingerprint;
  }

  lemma AclRowIff(r: AclRow)
    ensures ValidAclRow(r) <==> GoodAclRow(r)
  {}

  lemma DistinctRows(t: Tables)
    ensures Distinct(ServiceIdOf, t.services) && Distinct(FingerprintOf, t.services) <==> NoServiceTwice(t.services)
    ensures Distinct(AdmissionOf, t.acl) <==> NoAdmissionTwice(t.acl)
    ensures Distinct(PermissionOf, t.permissions) <==> NoPermissionTwice(t.permissions)
  {}

  /** The loader accepts exactly the good tables. */
  lemma LoadAcceptsIff(t: Tables)
    ensures Load(t).Ok? <==> GoodTables(t)
  {
    LoadMeaning(t);
    DistinctRows(t);
    hide Load, Describes, Distinct, NoServiceTwice, NoAdmissionTwice, NoPermissionTwice;
    forall r: ServiceRow ensures ValidServiceRow(r) <==> GoodServiceRow(r) { ServiceRowIff(r); }
    forall r: AclRow ensures ValidAclRow(r) <==> GoodAclRow(r) { AclRowIff(r); }
    assert forall id :: EnabledIn(t.services, id) <==> EnabledRow(t, id);
    hide ValidServiceRow, ValidAclRow, GoodServiceRow, GoodAclRow, EnabledIn, EnabledRow;
  }

  /** The services of an accepted table are its rows: ID, role, switch and fingerprint. */
  lemma ServicesAreTheRows(t: Tables, id: string, fingerprint: string, role: string, enabled: bool)
    requires Load(t).Ok?
    ensures var a := Load(t).value;
      ServiceRow(id, fingerprint, role, Some(enabled)) in t.services <==>
        && fingerprint in a.byFingerprint && a.byFingerprint[fingerprint] == id
        && id in a.byService && a.byService[id].serviceId == id
        && a.byService[id].apiRole == role && a.byService[id].enabled == enabled
  {
    LoadMeaning(t);
    var a := Load(t).value;
    hide Load, DescribesAcl, DescribesPermissions, Acceptable;
    if ServiceRow(id, fingerprint, role, Some(enabled)) in t.services {
      assert RowKept(ServiceRow(id, fingerprint, role, Some(enabled)), a);
    }
    if fingerprint in a.byFingerprint {
      assert HasFingerprint(t.services, fingerprint);
      var r :| r in t.services && r.fingerprint == fingerprint;
      assert RowKept(r, a);
      assert r == ServiceRow(r.serviceId, fingerprint, r.apiRole, Some(a.byService[r.serviceId].enabled));
    }
  }

  /** The entries of an accepted table are its enabled ACL rows, each under its own service, channel and sender, with the
      row's own role, listen, talk, interrupt and priority. */
  lemma EntriesAreTheEnabledRows(t: Tables, id: string, c: U32, s: U32, role: string, listen: bool, talk: bool,
                                 interrupt: bool, priority: U32)
    requires Load(t).Ok?
    ensures var m := Load(t).value.byService; var k := AdmissionKey(c, s);
      AclRow(id, Some(c), Some(s), role, Some(listen), Some(talk), Some(interrupt), Some(priority), Some(true)) in t.acl <==>
        && id in m && k in m[id].admissions && priority <= 255
        && m[id].admissions[k].role == role && m[id].admissions[k].enabled
        && m[id].admissions[k].allowListen == listen && m[id].admissions[k].allowTalk == talk
        && m[id].admissions[k].allowInterrupt == interrupt && m[id].admissions[k].interruptPriority == priority
  {
    LoadMeaning(t);
    var a := Load(t).value;
    var m, k := a.byService, AdmissionKey(c, s);
    var row := AclRow(id, Some(c), Some(s), role, Some(listen), Some(talk), Some(interrupt), Some(priority), Some(true));
    hide Load, DescribesServices, DescribesPermissions, Distinct;
    if row in t.acl {
      RowHasEntry(t, a, row, k);
    }
    if id in m && k in m[id].admissions {
      var r := EntryHasRow(t, a, id, k);
      assert r == AclRow(id, Some(c), Some(s), r.role, r.allowListen, r.allowTalk, r.allowInterrupt, r.priority, Some(true));
    }
  }

  lemma RowHasEntry(t: Tables, a: Authorizer, r: AclRow, k: AdmissionKey)
    requires Acceptable(t) && Describes(t, a) && r in t.acl
    requires r.channelId == Some(k.channelId) && r.senderId == Some(k.senderId) && r.enabled == Some(true)
    ensures ValidAclRow(r) && r.serviceId in a.byService && k in a.byService[r.serviceId].admissions
    ensures a.byService[r.serviceId].admissions[k] == AclOf(r)
  {
    hide DescribesServices, DescribesPermissions, Distinct, ValidServiceRow, ValidPermissionRow;
    EnabledMeaning(t.services, a);
    assert ValidAclRow(r) && EnabledIn(t.services, r.serviceId);
    hide Acceptable, EnabledIn;
    assert Confers(r, r.serviceId, k);
  }

  lemma EntryHasRow(t: Tables, a: Authorizer, id: string, k: AdmissionKey) returns (r: AclRow)
    requires Acceptable(t) && Describes(t, a) && id in a.byService && k in a.byService[id].admissions
    ensures r in t.acl && ValidAclRow(r) && r.serviceId == id && r.enabled == Some(true)
    ensures r.channelId == Some(k.channelId) && r.senderId == Some(k.senderId) && a.byService[id].admissions[k] == AclOf(r)
  {
    hide DescribesServices, DescribesPermissions, Acceptable;
    r :| r in t.acl && Confers(r, id, k);
  }

  /** The permissions of an accepted table are its enabled permission rows. */
  lemma PermissionsAreTheEnabledRows(t: Tables, id: string, permission: string)
    requires Load(t).Ok?
    ensures var m := Load(t).value.byService;
      PermissionRow(id, permission, Some(true)) in t.permissions <==> id in m && permission in m[id].globalPermissions
  {
    LoadMeaning(t);
    var a := Load(t).value;
    hide Load, DescribesServices, DescribesAcl, Distinct, ValidServiceRow, ValidAclRow;
    if PermissionRow(id, permission, Some(true)) in t.permissions {
      assert id in a.byService by { EnabledMeaning(t.services, a); }
      assert Permits(PermissionRow(id, permission, Some(true)), id, permission);
    }
    if id in a.byService && permission in a.byService[id].globalPermissions {
      var r :| r in t.permissions && Permits(r, id, permission);
      assert r == PermissionRow(id, permission, Some(true));
    }
  }

  // Which row is refused.

  ghost predicate ServicesStop(rows: seq<ServiceRow>, n: nat) {
    && n < |rows| && LoadServices(rows) == Err(BadService(n))
    && LoadServices(rows[..n]).Ok? && LoadServices(rows[..n + 1]).Err?
  }

  ghost predicate AclStops(services: map<string, Service>, rows: seq<AclRow>, n: nat) {
    && n < |rows| && LoadAcl(services, rows) == Err(BadAcl(n))
    && LoadAcl(services, rows[..n]).Ok? && LoadAcl(services, rows[..n + 1]).Err?
  }

  ghost predicate PermissionsStop(services: map<string, Service>, rows: seq<PermissionRow>, n: nat) {
    && n < |rows| && LoadPermissions(services, rows) == Err(BadPermission(n))
    && LoadPermissions(services, rows[..n]).Ok? && LoadPermissions(services, rows[..n + 1]).Err?
  }

  lemma {:induction false} ServicesStopAtFirst(rows: seq<ServiceRow>) returns (n: nat)
    requires LoadServices(rows).Err?
    ensures ServicesStop(rows, n)
  {
    hide ValidServiceRow;
    var init := rows[..|rows| - 1];
    if LoadServices(init).Err? {
      n := ServicesStopAtFirst(init);
      assert init[..n] == rows[..n] && init[..n + 1] == rows[..n + 1];
    } else {
      n := |init|;
      assert rows[..|init| + 1] == rows;
    }
  }

  lemma {:induction false} AclStopsAtFirst(services: map<string, Service>, rows: seq<AclRow>) returns (n: nat)
    requires LoadAcl(services, rows).Err?
    ensures AclStops(services, rows, n)
  {
    hide ValidAclRow, AclDuplicate;
    var init := rows[..|rows| - 1];
    if LoadAcl(services, init).Err? {
      n := AclStopsAtFirst(services, init);
      assert init[..n] == rows[..n] && init[..n + 1] == rows[..n + 1];
    } else {
      n := |init|;
      assert rows[..|init| + 1] == rows;
    }
  }

  lemma {:induction false} PermissionsStopAtFirst(services: map<string, Service>, rows: seq<PermissionRow>) returns (n: nat)
    requires LoadPermissions(services, rows).Err?
    ensures PermissionsStop(services, rows, n)
  {
    hide ValidPermissionRow, PermissionDuplicate;
    var init := rows[..|rows| - 1];
    if LoadPermissions(services, init).Err? {
      n := PermissionsStopAtFirst(services, init);
      assert init[..n] == rows[..n] && init[..n + 1] == rows[..n + 1];
    } else {
      n := |init|;
      assert rows[..|init| + 1] == rows;
    }
  }

  /** The refused row is the first one, in the order of the tables, with which the rows so far are no longer good. */
  ghost predicate FirstBadRow(t: Tables, e: LoadError) {
    match e
    case BadService(n) =>
      n < |t.services| && GoodTables(Tables(t.services[..n], [], [])) && !GoodTables(Tables(t.services[..n + 1], [], []))
    case BadAcl(n) =>
      && n < |t.acl| && GoodTables(Tables(t.services, t.acl[..n], []))
      && !GoodTables(Tables(t.services, t.acl[..n + 1], []))
    case BadPermission(n) =>
      && n < |t.permissions| && GoodTables(Tables(t.services, t.acl, t.permissions[..n]))
      && !GoodTables(Tables(t.services, t.acl, t.permissions[..n + 1]))
  }

  lemma RefusesFirstBadRow(t: Tables)
    requires Load(t).Err?
    ensures FirstBadRow(t, Load(t).error)
  {
    hide LoadServices, LoadAcl, LoadPermissions, GoodTables;
    NothingToLoad();
    if LoadServices(t.services).Err? {
      var n := ServicesStopAtFirst(t.services);
      LoadAcceptsIff(Tables(t.services[..n], [], []));
      LoadAcceptsIff(Tables(t.services[..n + 1], [], []));
    } else {
      var m := LoadServices(t.services).value.byService;
      if LoadAcl(m, t.acl).Err? {
        var n := AclStopsAtFirst(m, t.acl);
        LoadAcceptsIff(Tables(t.services, t.acl[..n], []));
        LoadAcceptsIff(Tables(t.services, t.acl[..n + 1], []));
      } else {
        var n := PermissionsStopAtFirst(LoadAcl(m, t.acl).value, t.permissions);
        LoadAcceptsIff(Tables(t.services, t.acl, t.permissions[..n]));
        LoadAcceptsIff(Tables(t.services, t.acl, t.permissions[..n + 1]));
      }
    }
  }

  lemma NothingToLoad()
    ensures forall m :: LoadAcl(m, []) == Ok(m) && LoadPermissions(m, []) == Ok(m)
  {}
}
