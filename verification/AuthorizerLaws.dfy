/** What loading the tables means, without an order of rows: acceptance is a property of the sets of rows,
    and the authorizer is determined by them. */
module AuthorizerLaws {
  import opened Wrappers
  import opened Commands
  import opened Authorizers

  ghost predicate Distinct<T(!new), K(!new)>(key: T -> K, rows: seq<T>) {
    forall i, j :: 0 <= i < j < |rows| ==> key(rows[i]) != key(rows[j])
  }

  function ServiceIdOf(r: ServiceRow): string { r.serviceId }
  function FingerprintOf(r: ServiceRow): string { r.fingerprint }
  function AdmissionOf(r: AclRow): (string, Option<U32>, Option<U32>) { (r.serviceId, r.channelId, r.senderId) }
  function PermissionOf(r: PermissionRow): (string, string) { (r.serviceId, r.permission) }

  ghost predicate EnabledIn(services: seq<ServiceRow>, id: string) {
    exists r :: r in services && r.serviceId == id && r.enabled == Some(true)
  }

  /** The tables the loader accepts: valid rows, no duplicates, and scopes for known enabled services only. */
  ghost predicate Acceptable(t: Tables) {
    && (forall r :: r in t.services ==> ValidServiceRow(r))
    && Distinct(ServiceIdOf, t.services) && Distinct(FingerprintOf, t.services)
    && (forall r :: r in t.acl ==> ValidAclRow(r) && EnabledIn(t.services, r.serviceId))
    && Distinct(AdmissionOf, t.acl)
    && (forall r :: r in t.permissions ==> ValidPermissionRow(r) && EnabledIn(t.services, r.serviceId))
    && Distinct(PermissionOf, t.permissions)
  }

  ghost predicate RowKept(r: ServiceRow, a: Authorizer) {
    && r.serviceId in a.byService
    && a.byService[r.serviceId].serviceId == r.serviceId
    && a.byService[r.serviceId].apiRole == r.apiRole
    && r.enabled == Some(a.byService[r.serviceId].enabled)
    && r.fingerprint in a.byFingerprint && a.byFingerprint[r.fingerprint] == r.serviceId
  }

  ghost predicate HasId(rows: seq<ServiceRow>, id: string) {
    exists r :: r in rows && r.serviceId == id
  }

  ghost predicate HasFingerprint(rows: seq<ServiceRow>, f: string) {
    exists r :: r in rows && r.fingerprint == f
  }

  ghost predicate DescribesServices(rows: seq<ServiceRow>, a: Authorizer) {
    && (forall r :: r in rows ==> RowKept(r, a))
    && (forall id :: id in a.byService <==> HasId(rows, id))
    && (forall f :: f in a.byFingerprint <==> HasFingerprint(rows, f))
  }

  ghost predicate Confers(r: AclRow, id: string, k: AdmissionKey) {
    r.serviceId == id && ValidAclRow(r) && r.enabled.value && KeyOf(r) == k
  }

  ghost predicate DescribesAcl(rows: seq<AclRow>, m: map<string, Service>) {
    && (forall id, k, r :: id in m && r in rows && Confers(r, id, k) ==>
          k in m[id].admissions && m[id].admissions[k] == AclOf(r))
    && (forall id, k :: id in m && k in m[id].admissions ==> exists r :: r in rows && Confers(r, id, k))
    && (forall id, c :: id in m ==> (c in m[id].channels <==> exists k :: k in m[id].admissions && k.channelId == c))
  }

  ghost predicate Permits(r: PermissionRow, id: string, p: string) {
    r.serviceId == id && r.permission == p && r.enabled == Some(true)
  }

  ghost predicate DescribesPermissions(rows: seq<PermissionRow>, m: map<string, Service>) {
    forall id, p :: id in m ==> (p in m[id].globalPermissions <==> exists r :: r in rows && Permits(r, id, p))
  }

  /** The authorizer that the tables describe. */
  ghost predicate Describes(t: Tables, a: Authorizer) {
    DescribesServices(t.services, a) && DescribesAcl(t.acl, a.byService) && DescribesPermissions(t.permissions, a.byService)
  }

  // The loader meets its meaning, table by table.

  ghost predicate Bare(a: Authorizer) {
    forall id :: id in a.byService ==>
      a.byService[id].channels == {} && a.byService[id].admissions == map[] && a.byService[id].globalPermissions == {}
  }

  lemma {:induction false} ServicesMeaning(rows: seq<ServiceRow>)
    ensures LoadServices(rows).Ok? <==>
      (forall r :: r in rows ==> ValidServiceRow(r)) && Distinct(ServiceIdOf, rows) && Distinct(FingerprintOf, rows)
    ensures LoadServices(rows).Ok? ==> DescribesServices(rows, LoadServices(rows).value) && Bare(LoadServices(rows).value)
  {
    if rows != [] {
      var init, r := rows[..|rows| - 1], rows[|rows| - 1];
      assert rows == init + [r];
      ServicesMeaning(init);
      NewId(init, r);
      if LoadServices(rows).Ok? {
        AddServiceMeaning(init, LoadServices(init).value, r);
      }
      hide ValidServiceRow, HasId, HasFingerprint, RowKept, Bare;
      DistinctInit(ServiceIdOf, rows);
      DistinctInit(FingerprintOf, rows);
      hide Distinct;
    } else {
      assert !HasId([], "");
      hide ValidServiceRow;
    }
  }

  lemma DistinctInit<T(!new), K(!new)>(key: T -> K, rows: seq<T>)
    requires rows != []
    ensures var init, r := rows[..|rows| - 1], rows[|rows| - 1];
      Distinct(key, rows) <==> Distinct(key, init) && forall q :: q in init ==> key(q) != key(r)
  {
    var init, r := rows[..|rows| - 1], rows[|rows| - 1];
    if Distinct(key, init) && forall q :: q in init ==> key(q) != key(r) {
      forall i, j | 0 <= i < j < |rows| ensures key(rows[i]) != key(rows[j]) {
        assert init[i] == rows[i] && init[i] in init;
        if j < |init| { assert init[j] == rows[j]; }
      }
    }
    if Distinct(key, rows) {
      forall q | q in init ensures key(q) != key(r) {
        var i :| 0 <= i < |init| && init[i] == q;
        assert rows[i] == q;
      }
    }
  }

  lemma NewId(init: seq<ServiceRow>, r: ServiceRow)
    ensures !HasId(init, r.serviceId) <==> forall q :: q in init ==> ServiceIdOf(q) != ServiceIdOf(r)
    ensures !HasFingerprint(init, r.fingerprint) <==> forall q :: q in init ==> FingerprintOf(q) != FingerprintOf(r)
  {}

  lemma AddServiceMeaning(init: seq<ServiceRow>, a: Authorizer, r: ServiceRow)
    requires DescribesServices(init, a) && Bare(a) && ValidServiceRow(r)
    requires r.serviceId !in a.byService && r.fingerprint !in a.byFingerprint
    ensures DescribesServices(init + [r], AddService(a, r)) && Bare(AddService(a, r))
  {
    hide AddService, Bare, RowKept, ValidServiceRow, HasId, HasFingerprint;
    var rows, b := init + [r], AddService(a, r);
    AddServiceStaysBare(a, r);
    AddServiceAdds(a, r);
    IdsGrow(init, r);
    forall q | q in rows ensures RowKept(q, b) {
      if q != r { AddServiceKeeps(a, r, q); }
    }
  }

  lemma AddServiceAdds(a: Authorizer, r: ServiceRow)
    requires ValidServiceRow(r)
    ensures RowKept(r, AddService(a, r))
    ensures forall id :: id in AddService(a, r).byService <==> id in a.byService || id == r.serviceId
    ensures forall f :: f in AddService(a, r).byFingerprint <==> f in a.byFingerprint || f == r.fingerprint
  {
    hide ValidServiceId, ValidFingerprint, ValidApiRole;
  }

  lemma AddServiceStaysBare(a: Authorizer, r: ServiceRow)
    requires Bare(a) && ValidServiceRow(r)
    ensures Bare(AddService(a, r))
  {
    hide ValidServiceRow;
  }

  lemma AddServiceKeeps(a: Authorizer, r: ServiceRow, q: ServiceRow)
    requires ValidServiceRow(r) && r.serviceId !in a.byService && r.fingerprint !in a.byFingerprint && RowKept(q, a)
    ensures RowKept(q, AddService(a, r))
  {
    hide ValidServiceId, ValidFingerprint, ValidApiRole;
  }

  lemma IdsGrow(init: seq<ServiceRow>, r: ServiceRow)
    ensures forall id :: HasId(init + [r], id) <==> HasId(init, id) || id == r.serviceId
    ensures forall f :: HasFingerprint(init + [r], f) <==> HasFingerprint(init, f) || f == r.fingerprint
  {
    var rows := init + [r];
    assert rows[|init|] == r;
    forall id | HasId(init, id) ensures HasId(rows, id) {
      var q :| q in init && q.serviceId == id;
      assert q in rows;
    }
    forall f | HasFingerprint(init, f) ensures HasFingerprint(rows, f) {
      var q :| q in init && q.fingerprint == f;
      assert q in rows;
    }
  }

  /** Same services, nothing else than the scopes may differ. */
  ghost predicate SameServices(m: map<string, Service>, n: map<string, Service>) {
    n.Keys == m.Keys && forall id :: id in m ==>
      n[id].serviceId == m[id].serviceId && n[id].apiRole == m[id].apiRole && n[id].enabled == m[id].enabled
  }

  ghost predicate SamePermissions(m: map<string, Service>, n: map<string, Service>) {
    n.Keys == m.Keys && forall id :: id in m ==> n[id].globalPermissions == m[id].globalPermissions
  }

  ghost predicate SameAdmissions(m: map<string, Service>, n: map<string, Service>) {
    n.Keys == m.Keys && forall id :: id in m ==> n[id].admissions == m[id].admissions && n[id].channels == m[id].channels
  }

  lemma {:induction false} AclMeaning(services: map<string, Service>, rows: seq<AclRow>)
    requires DescribesAcl([], services)
    ensures LoadAcl(services, rows).Ok? <==>
      (forall r :: r in rows ==> ValidAclRow(r) && EnabledService(services, r.serviceId)) && Distinct(AdmissionOf, rows)
    ensures LoadAcl(services, rows).Ok? ==>
      var m := LoadAcl(services, rows).value;
      DescribesAcl(rows, m) && SameServices(services, m) && SamePermissions(services, m)
  {
    if rows != [] {
      var init, r := rows[..|rows| - 1], rows[|rows| - 1];
      assert rows == init + [r];
      AclMeaning(services, init);
      DistinctInit(AdmissionOf, rows);
      if LoadAcl(services, init).Ok? {
        var m := LoadAcl(services, init).value;
        EnabledSame(services, m, r.serviceId);
        if ValidAclRow(r) {
          DuplicateMeaning(init, r);
          if LoadAcl(services, rows).Ok? {
            AdmitMeaning(init, m, r);
            AdmitKeeps(services, m, r);
          }
        }
      }
      hide ValidAclRow, AclDuplicate, DescribesAcl, SamePermissions, SameServices, Distinct, EnabledService, Admit;
    } else {
      hide DescribesAcl;
    }
  }

  lemma EnabledSame(m: map<string, Service>, n: map<string, Service>, id: string)
    requires SameServices(m, n)
    ensures EnabledService(m, id) <==> EnabledService(n, id)
  {}

  lemma AdmitKeeps(services: map<string, Service>, m: map<string, Service>, r: AclRow)
    requires ValidAclRow(r) && r.serviceId in m && SameServices(services, m) && SamePermissions(services, m)
    ensures var n := m[r.serviceId := Admit(m[r.serviceId], r)]; SameServices(services, n) && SamePermissions(services, n)
  {
    hide ValidAclRow;
  }

  lemma DuplicateMeaning(init: seq<AclRow>, r: AclRow)
    requires ValidAclRow(r) && forall q :: q in init ==> ValidAclRow(q)
    ensures !AclDuplicate(init, r) <==> forall q :: q in init ==> AdmissionOf(q) != AdmissionOf(r)
  {}

  lemma AdmitMeaning(init: seq<AclRow>, m: map<string, Service>, r: AclRow)
    requires DescribesAcl(init, m) && r.serviceId in m && ValidAclRow(r)
    requires !AclDuplicate(init, r)
    ensures DescribesAcl(init + [r], m[r.serviceId := Admit(m[r.serviceId], r)])
  {
    var rows, n := init + [r], m[r.serviceId := Admit(m[r.serviceId], r)];
    assert r in rows;
    forall id, k, q | id in n && q in rows && Confers(q, id, k)
      ensures k in n[id].admissions && n[id].admissions[k] == AclOf(q)
    {
      if q in init {
        assert k in m[id].admissions && m[id].admissions[k] == AclOf(q);
      }
    }
    forall id, k | id in n && k in n[id].admissions ensures exists q :: q in rows && Confers(q, id, k) {
      if k in m[id].admissions {
        var q :| q in init && Confers(q, id, k);
        assert q in rows;
      } else {
        assert Confers(r, id, k);
      }
    }
    forall id, c | id in n ensures c in n[id].channels <==> exists k :: k in n[id].admissions && k.channelId == c {
      if id == r.serviceId && r.enabled.value {
        assert n[id].admissions.Keys == m[id].admissions.Keys + {KeyOf(r)};
      }
    }
  }

  lemma {:induction false} PermissionsMeaning(services: map<string, Service>, rows: seq<PermissionRow>)
    requires DescribesPermissions([], services)
    ensures LoadPermissions(services, rows).Ok? <==>
      (forall r :: r in rows ==> ValidPermissionRow(r) && EnabledService(services, r.serviceId)) && Distinct(PermissionOf, rows)
    ensures LoadPermissions(services, rows).Ok? ==>
      var m := LoadPermissions(services, rows).value;
      DescribesPermissions(rows, m) && SameServices(services, m) && SameAdmissions(services, m)
  {
    if rows != [] {
      var init, r := rows[..|rows| - 1], rows[|rows| - 1];
      assert rows == init + [r];
      PermissionsMeaning(services, init);
      DistinctInit(PermissionOf, rows);
      if LoadPermissions(services, init).Ok? {
        var m := LoadPermissions(services, init).value;
        EnabledSame(services, m, r.serviceId);
        assert !PermissionDuplicate(init, r) <==> forall q :: q in init ==> PermissionOf(q) != PermissionOf(r);
        if LoadPermissions(services, rows).Ok? {
          PermitMeaning(init, m, r);
          PermitKeeps(services, m, r);
        }
      }
      hide ValidPermissionRow, PermissionDuplicate, DescribesPermissions, SameAdmissions, SameServices;
      hide Distinct, EnabledService, Permit;
    } else {
      hide DescribesPermissions;
    }
  }

  lemma PermitKeeps(services: map<string, Service>, m: map<string, Service>, r: PermissionRow)
    requires ValidPermissionRow(r) && r.serviceId in m && SameServices(services, m) && SameAdmissions(services, m)
    ensures var n := m[r.serviceId := Permit(m[r.serviceId], r)]; SameServices(services, n) && SameAdmissions(services, n)
  {
    hide ValidPermissionRow;
  }

  lemma PermitMeaning(init: seq<PermissionRow>, m: map<string, Service>, r: PermissionRow)
    requires DescribesPermissions(init, m) && r.serviceId in m && ValidPermissionRow(r)
    ensures DescribesPermissions(init + [r], m[r.serviceId := Permit(m[r.serviceId], r)])
  {
    var rows, n := init + [r], m[r.serviceId := Permit(m[r.serviceId], r)];
    assert r in rows;
    forall id, p | id in n ensures p in n[id].globalPermissions <==> exists q :: q in rows && Permits(q, id, p) {
      assert (exists q :: q in rows && Permits(q, id, p)) <==>
        (exists q :: q in init && Permits(q, id, p)) || Permits(r, id, p);
    }
  }

  lemma DescribesAclSame(rows: seq<AclRow>, m: map<string, Service>, n: map<string, Service>)
    requires DescribesAcl(rows, m) && SameAdmissions(m, n)
    ensures DescribesAcl(rows, n)
  {
    hide Confers;
    forall id, k | id in n && k in n[id].admissions ensures exists r :: r in rows && Confers(r, id, k) {
      assert id in m && k in m[id].admissions;
    }
  }

  /** The loader accepts exactly the acceptable tables, and returns the authorizer they describe. */
  lemma LoadMeaning(t: Tables)
    ensures Load(t).Ok? <==> Acceptable(t)
    ensures Load(t).Ok? ==> Describes(t, Load(t).value)
  {
    hide ValidServiceRow, ValidAclRow, ValidPermissionRow, Distinct, DescribesAcl, DescribesPermissions;
    hide LoadServices, LoadAcl, LoadPermissions;
    ServicesMeaning(t.services);
    if LoadServices(t.services).Ok? {
      var a := LoadServices(t.services).value;
      BareMeaning(a);
      hide Bare;
      EnabledMeaning(t.services, a);
      AclMeaning(a.byService, t.acl);
      if LoadAcl(a.byService, t.acl).Ok? {
        var m := LoadAcl(a.byService, t.acl).value;
        PermissionsSame(a.byService, m);
        SameEnabled(a.byService, m);
        PermissionsMeaning(m, t.permissions);
        if LoadPermissions(m, t.permissions).Ok? {
          var n := LoadPermissions(m, t.permissions).value;
          DescribesAclSame(t.acl, m, n);
          DescribesServicesSame(t.services, a, m);
          DescribesServicesSame(t.services, a.(byService := m), n);
        }
      }
    }
    hide DescribesServices, EnabledIn, EnabledService, SameServices;
  }

  lemma PermissionsSame(m: map<string, Service>, n: map<string, Service>)
    requires DescribesPermissions([], m) && SamePermissions(m, n)
    ensures DescribesPermissions([], n)
  {}

  lemma SameEnabled(m: map<string, Service>, n: map<string, Service>)
    requires SameServices(m, n)
    ensures forall id :: EnabledService(m, id) <==> EnabledService(n, id)
  {}

  lemma DescribesServicesSame(rows: seq<ServiceRow>, a: Authorizer, n: map<string, Service>)
    requires DescribesServices(rows, a) && SameServices(a.byService, n)
    ensures DescribesServices(rows, a.(byService := n))
  {
    hide HasId, HasFingerprint;
    assert forall r :: r in rows ==> RowKept(r, a);
  }

  lemma BareMeaning(a: Authorizer)
    requires Bare(a)
    ensures DescribesAcl([], a.byService) && DescribesPermissions([], a.byService)
  {}

  lemma EnabledMeaning(rows: seq<ServiceRow>, a: Authorizer)
    requires DescribesServices(rows, a)
    ensures forall id :: EnabledService(a.byService, id) <==> EnabledIn(rows, id)
  {
    forall id | EnabledService(a.byService, id) ensures EnabledIn(rows, id) {
      assert HasId(rows, id);
      var r :| r in rows && r.serviceId == id;
      assert RowKept(r, a);
    }
    forall id | EnabledIn(rows, id) ensures EnabledService(a.byService, id) {
      var r :| r in rows && r.serviceId == id && r.enabled == Some(true);
      assert RowKept(r, a);
    }
  }

  // Order of rows.

  ghost predicate Permuted(t: Tables, u: Tables) {
    && multiset(t.services) == multiset(u.services)
    && multiset(t.acl) == multiset(u.acl)
    && multiset(t.permissions) == multiset(u.permissions)
  }

  lemma {:induction false} OccursTwice<T>(xs: seq<T>, i: nat, j: nat)
    requires i < j < |xs| && xs[i] == xs[j]
    ensures multiset(xs)[xs[i]] >= 2
  {
    assert xs == xs[..j] + xs[j..];
    assert xs[i] in xs[..j] && xs[j] in xs[j..];
    assert multiset(xs) == multiset(xs[..j]) + multiset(xs[j..]);
  }

  lemma {:induction false} FindTwice<T>(xs: seq<T>, x: T) returns (i: nat, j: nat)
    requires multiset(xs)[x] >= 2
    ensures i < j < |xs| && xs[i] == x == xs[j]
  {
    j := |xs| - 1;
    assert xs == xs[..j] + [xs[j]];
    if xs[j] == x {
      assert x in multiset(xs[..j]);
      i :| 0 <= i < j && xs[i] == x;
    } else {
      i, j := FindTwice(xs[..j], x);
    }
  }

  lemma DistinctPermutes<T(!new), K(!new)>(key: T -> K, xs: seq<T>, ys: seq<T>)
    requires multiset(xs) == multiset(ys) && Distinct(key, xs)
    ensures Distinct(key, ys)
  {
    forall i, j | 0 <= i < j < |ys| ensures key(ys[i]) != key(ys[j]) {
      if ys[i] == ys[j] {
        OccursTwice(ys, i, j);
        var a, b := FindTwice(xs, ys[i]);
        assert false;
      } else {
        assert ys[i] in multiset(xs) && ys[j] in multiset(xs);
        var a :| 0 <= a < |xs| && xs[a] == ys[i];
        var b :| 0 <= b < |xs| && xs[b] == ys[j];
      }
    }
  }

  lemma SameMembers<T>(xs: seq<T>, ys: seq<T>)
    requires multiset(xs) == multiset(ys)
    ensures forall x :: x in xs <==> x in ys
  {
    assert forall x :: x in xs <==> x in multiset(xs);
    assert forall x :: x in ys <==> x in multiset(ys);
  }

  lemma AcceptancePermutes(t: Tables, u: Tables)
    requires Permuted(t, u) && Acceptable(t)
    ensures Acceptable(u)
  {
    hide ValidServiceRow, ValidAclRow, ValidPermissionRow;
    DistinctPermutes(ServiceIdOf, t.services, u.services);
    DistinctPermutes(FingerprintOf, t.services, u.services);
    DistinctPermutes(AdmissionOf, t.acl, u.acl);
    DistinctPermutes(PermissionOf, t.permissions, u.permissions);
    SameMembers(t.services, u.services);
    SameMembers(t.acl, u.acl);
    SameMembers(t.permissions, u.permissions);
    hide Distinct;
    assert forall id :: EnabledIn(t.services, id) ==> EnabledIn(u.services, id);
  }

  ghost predicate SameRows(t: Tables, u: Tables) {
    && (forall r :: r in t.services <==> r in u.services)
    && (forall r :: r in t.acl <==> r in u.acl)
    && (forall r :: r in t.permissions <==> r in u.permissions)
  }

  lemma ServicesDetermined(t: Tables, u: Tables, a: Authorizer, b: Authorizer)
    requires SameRows(t, u) && DescribesServices(t.services, a) && DescribesServices(u.services, b)
    ensures a.byFingerprint == b.byFingerprint && SameServices(a.byService, b.byService)
  {
    assert forall id :: HasId(t.services, id) <==> HasId(u.services, id);
    assert forall f :: HasFingerprint(t.services, f) <==> HasFingerprint(u.services, f);
    forall f | f in a.byFingerprint ensures a.byFingerprint[f] == b.byFingerprint[f] {
      assert HasFingerprint(t.services, f);
      var r :| r in t.services && r.fingerprint == f;
      assert RowKept(r, a) && RowKept(r, b);
    }
    forall id | id in a.byService
      ensures a.byService[id].serviceId == b.byService[id].serviceId && a.byService[id].apiRole == b.byService[id].apiRole
        && a.byService[id].enabled == b.byService[id].enabled
    {
      assert HasId(t.services, id);
      var r :| r in t.services && r.serviceId == id;
      assert RowKept(r, a) && RowKept(r, b);
    }
  }

  lemma AdmissionsDetermined(t: Tables, u: Tables, m: map<string, Service>, n: map<string, Service>)
    requires SameRows(t, u) && m.Keys == n.Keys && DescribesAcl(t.acl, m) && DescribesAcl(u.acl, n)
    ensures SameAdmissions(m, n)
  {
    hide Confers;
    forall id | id in m ensures m[id].admissions == n[id].admissions && m[id].channels == n[id].channels {
      forall k ensures k in m[id].admissions <==> k in n[id].admissions
      {
        if k in m[id].admissions { var r :| r in t.acl && Confers(r, id, k); assert r in u.acl; }
        if k in n[id].admissions { var r :| r in u.acl && Confers(r, id, k); assert r in t.acl; }
      }
      forall k | k in m[id].admissions ensures m[id].admissions[k] == n[id].admissions[k] {
        var r :| r in t.acl && Confers(r, id, k);
        assert r in u.acl;
      }
      assert m[id].admissions == n[id].admissions;
    }
  }

  lemma PermissionsDetermined(t: Tables, u: Tables, m: map<string, Service>, n: map<string, Service>)
    requires SameRows(t, u) && m.Keys == n.Keys
    requires DescribesPermissions(t.permissions, m) && DescribesPermissions(u.permissions, n)
    ensures SamePermissions(m, n)
  {
    hide Permits;
    forall id | id in m ensures m[id].globalPermissions == n[id].globalPermissions {
      assert forall p :: p in m[id].globalPermissions <==> p in n[id].globalPermissions;
    }
  }

  /** Tables with the same rows describe at most one authorizer. */
  lemma DescriptionIsUnique(t: Tables, u: Tables, a: Authorizer, b: Authorizer)
    requires SameRows(t, u) && Describes(t, a) && Describes(u, b)
    ensures a == b
  {
    ServicesDetermined(t, u, a, b);
    AdmissionsDetermined(t, u, a.byService, b.byService);
    PermissionsDetermined(t, u, a.byService, b.byService);
    hide DescribesServices, DescribesAcl, DescribesPermissions;
    assert a.byService == b.byService;
  }

  /** Permuting the rows of any table changes neither acceptance nor the authorizer. */
  lemma LoadIsOrderIndependent(t: Tables, u: Tables)
    requires Permuted(t, u)
    ensures Load(t).Ok? <==> Load(u).Ok?
    ensures Load(t).Ok? ==> Load(t) == Load(u)
  {
    LoadMeaning(t);
    LoadMeaning(u);
    if Acceptable(t) { AcceptancePermutes(t, u); }
    if Acceptable(u) { AcceptancePermutes(u, t); }
    SameMembers(t.services, u.services);
    SameMembers(t.acl, u.acl);
    SameMembers(t.permissions, u.permissions);
    hide Acceptable, Load, Describes;
    if Load(t).Ok? {
      DescriptionIsUnique(t, u, Load(t).value, Load(u).value);
    }
  }

  /** The loaded authorizer is canonical: fingerprints and services correspond one to one, a disabled service
      holds nothing, and the channel set is the projection of the admissions. */
  lemma LoadIsCanonical(t: Tables)
    requires Load(t).Ok?
    ensures var a := Load(t).value;
      && (forall f :: f in a.byFingerprint ==> a.byFingerprint[f] in a.byService)
      && (forall f, g :: f in a.byFingerprint && g in a.byFingerprint && a.byFingerprint[f] == a.byFingerprint[g] ==> f == g)
      && (forall id :: id in a.byService ==>
            && a.byService[id].serviceId == id && ValidServiceId(id)
            && (exists f :: f in a.byFingerprint && a.byFingerprint[f] == id)
            && (!a.byService[id].enabled ==> a.byService[id].admissions == map[] && a.byService[id].globalPermissions == {})
            && (forall c :: c in a.byService[id].channels <==> exists k :: k in a.byService[id].admissions && k.channelId == c))
  {
    LoadMeaning(t);
    var a := Load(t).value;
    FingerprintsAreOneToOne(t, a);
    forall id | id in a.byService
      ensures !a.byService[id].enabled ==> a.byService[id].admissions == map[] && a.byService[id].globalPermissions == {}
    {
      DisabledHoldsNothing(t, a, id);
    }
    assert DescribesAcl(t.acl, a.byService);
    hide Load, Acceptable, DescribesServices, ValidServiceId, Confers, DescribesPermissions;
  }

  lemma FingerprintsAreOneToOne(t: Tables, a: Authorizer)
    requires Acceptable(t) && DescribesServices(t.services, a)
    ensures forall f :: f in a.byFingerprint ==> a.byFingerprint[f] in a.byService
    ensures forall f, g :: f in a.byFingerprint && g in a.byFingerprint && a.byFingerprint[f] == a.byFingerprint[g] ==> f == g
    ensures forall id :: id in a.byService ==>
      a.byService[id].serviceId == id && ValidServiceId(id) && exists f :: f in a.byFingerprint && a.byFingerprint[f] == id
  {
    hide Acceptable, DescribesServices, ValidServiceId;
    forall f | f in a.byFingerprint ensures a.byFingerprint[f] in a.byService {
      var i := RowOfFingerprint(t, a, f);
    }
    forall f, g | f in a.byFingerprint && g in a.byFingerprint && a.byFingerprint[f] == a.byFingerprint[g] ensures f == g {
      SameServiceSameFingerprint(t, a, f, g);
    }
    forall id | id in a.byService
      ensures a.byService[id].serviceId == id && ValidServiceId(id)
      ensures exists f :: f in a.byFingerprint && a.byFingerprint[f] == id
    {
      var r := RowOfService(t, a, id);
      assert a.byFingerprint[r.fingerprint] == id;
    }
  }

  lemma RowOfFingerprint(t: Tables, a: Authorizer, f: string) returns (i: nat)
    requires DescribesServices(t.services, a) && f in a.byFingerprint
    ensures i < |t.services| && t.services[i].fingerprint == f && RowKept(t.services[i], a)
  {
    assert HasFingerprint(t.services, f);
    var r :| r in t.services && r.fingerprint == f;
    i :| 0 <= i < |t.services| && t.services[i] == r;
  }

  lemma RowOfService(t: Tables, a: Authorizer, id: string) returns (r: ServiceRow)
    requires Acceptable(t) && DescribesServices(t.services, a) && id in a.byService
    ensures r.serviceId == id && RowKept(r, a) && ValidServiceId(id)
  {
    hide ValidAclRow, ValidPermissionRow, ValidServiceId, ValidFingerprint, EnabledIn, Distinct;
    assert HasId(t.services, id);
    r :| r in t.services && r.serviceId == id;
  }

  lemma SameServiceSameFingerprint(t: Tables, a: Authorizer, f: string, g: string)
    requires Acceptable(t) && DescribesServices(t.services, a)
    requires f in a.byFingerprint && g in a.byFingerprint && a.byFingerprint[f] == a.byFingerprint[g]
    ensures f == g
  {
    var i := RowOfFingerprint(t, a, f);
    var j := RowOfFingerprint(t, a, g);
    assert Distinct(ServiceIdOf, t.services);
    hide Acceptable, DescribesServices;
    assert ServiceIdOf(t.services[i]) == ServiceIdOf(t.services[j]);
  }

  lemma DisabledHoldsNothing(t: Tables, a: Authorizer, id: string)
    requires Acceptable(t) && Describes(t, a) && id in a.byService
    ensures !a.byService[id].enabled ==> a.byService[id].admissions == map[] && a.byService[id].globalPermissions == {}
  {
    hide ValidServiceRow, ValidPermissionRow, Distinct;
    EnabledMeaning(t.services, a);
    assert forall k :: k in a.byService[id].admissions ==> EnabledIn(t.services, id);
    assert forall p :: p in a.byService[id].globalPermissions ==> EnabledIn(t.services, id);
    hide DescribesServices, DescribesAcl, DescribesPermissions, EnabledIn, Acceptable;
  }

  /** What an admission row may grant: interrupt only with talk and a priority, and receive-only roles only listen. */
  ghost predicate WellOrdered(acl: AdmissionAcl) {
    && acl.enabled
    && (acl.allowInterrupt ==> acl.allowTalk) && (acl.allowInterrupt <==> acl.interruptPriority != 0)
    && (ReceiveOnly(acl.role) ==> acl.allowListen && !acl.allowTalk && !acl.allowInterrupt)
  }

  lemma LoadedRowsAreWellOrdered(t: Tables, id: string, k: AdmissionKey)
    requires Load(t).Ok? && id in Load(t).value.byService && k in Load(t).value.byService[id].admissions
    ensures WellOrdered(Load(t).value.byService[id].admissions[k]) && k.senderId != 0 && Load(t).value.byService[id].enabled
  {
    LoadMeaning(t);
    DisabledHoldsNothing(t, Load(t).value, id);
    var r :| r in t.acl && Confers(r, id, k);
  }
}
