/** A reload that takes away more (service, channel) pairs than the queue holds, and tables for which that happens. */
module ReloadLimit {
  import opened Wrappers
  import opened Sorting
  import opened Commands
  import opened CommandStores
  import opened Outbox
  import Authorizers
  import opened AclReload
  import opened LateRun

  /** Whatever is pending, whatever the IDs and however the write ends: the batch is refused and the queue untouched. */
  lemma TooManyNeverReload(b: Box, targets: seq<Target>, denyUntil: I64, ids: nat -> string, io: Persist)
    requires |targets| > MAX_PENDING
    ensures Queue(b, CommandsFor(targets, denyUntil, ids), io).0 == b
    ensures Queue(b, CommandsFor(targets, denyUntil, ids), io).1.Some?
  {
    hide ValidRevocation, BatchFault;
  }

  // The service of `LateRun` with a row on each of n channels.

  const CHANNELS: nat := 65

  function KeyAt(c: nat): AdmissionKey
    requires c < CHANNELS
  {
    Authorizers.AdmissionKey(c, 1)
  }

  function RowAt(c: nat): Authorizers.AclRow
    requires c < CHANNELS
  {
    ACL_ROW.(channelId := Some(c))
  }

  function Rows(n: nat): (rows: seq<Authorizers.AclRow>)
    requires n <= CHANNELS
    ensures |rows| == n
  {
    if n == 0 then [] else Rows(n - 1) + [RowAt(n - 1)]
  }

  function ServiceWith(n: nat): Service
    requires n <= CHANNELS
  {
    if n == 0 then WITHOUT_ROW else Authorizers.Admit(ServiceWith(n - 1), RowAt(n - 1))
  }

  function Wide(): Authorizers.Tables { Authorizers.Tables(ServiceRows(), Rows(CHANNELS), []) }

  lemma RowIsValid(c: nat)
    requires c < CHANNELS
    ensures Authorizers.ValidAclRow(RowAt(c)) && Authorizers.KeyOf(RowAt(c)) == KeyAt(c) && Authorizers.AclOf(RowAt(c)) == ROW
    ensures RowAt(c).serviceId == SERVICE_ID && RowAt(c).enabled == Some(true)
  {}

  lemma {:induction false} RowsAreTheFirst(n: nat, r: Authorizers.AclRow)
    requires n <= CHANNELS && r in Rows(n)
    ensures exists c: nat :: c < n && r == RowAt(c)
  {
    if r != RowAt(n - 1) {
      RowsAreTheFirst(n - 1, r);
    }
  }

  lemma {:induction false} ServiceHas(n: nat)
    requires n <= CHANNELS
    ensures var s := ServiceWith(n);
      && s.enabled && s.serviceId == SERVICE_ID
      && (forall c: nat :: c < n ==> KeyAt(c) in s.admissions)
      && (forall k :: k in s.admissions ==> k.channelId < n && k == KeyAt(k.channelId) && s.admissions[k] == ROW)
  {
    if n > 0 {
      ServiceHas(n - 1);
      RowIsValid(n - 1);
    }
  }

  lemma NextRowIsNew(n: nat)
    requires n < CHANNELS
    ensures Authorizers.ValidAclRow(RowAt(n)) && !Authorizers.AclDuplicate(Rows(n), RowAt(n))
  {
    RowIsValid(n);
    forall q | q in Rows(n) ensures Authorizers.ValidAclRow(q) && Authorizers.KeyOf(q) != KeyAt(n) {
      RowsAreTheFirst(n, q);
      var c: nat :| c < n && q == RowAt(c);
      RowIsValid(c);
    }
    hide Authorizers.ValidAclRow, Rows;
  }

  lemma OneMoreLoads(services: map<string, Service>, init: seq<Authorizers.AclRow>, r: Authorizers.AclRow,
                     m: map<string, Service>)
    requires Authorizers.LoadAcl(services, init) == Ok(m) && Authorizers.EnabledService(m, r.serviceId)
    requires Authorizers.ValidAclRow(r) && !Authorizers.AclDuplicate(init, r)
    ensures Authorizers.LoadAcl(services, init + [r]) == Ok(m[r.serviceId := Authorizers.Admit(m[r.serviceId], r)])
  {
    assert (init + [r])[..|init|] == init;
    hide Authorizers.ValidAclRow, Authorizers.AclDuplicate, Authorizers.Admit;
  }

  lemma {:induction false} AclLoads(services: map<string, Service>, n: nat)
    requires n <= CHANNELS && services == map[SERVICE_ID := WITHOUT_ROW]
    ensures Authorizers.LoadAcl(services, Rows(n)) == Ok(map[SERVICE_ID := ServiceWith(n)])
  {
    if n > 0 {
      AclLoads(services, n - 1);
      hide Authorizers.LoadAcl;
      NextServiceLoads(services, n);
    } else {
      hide Authorizers.Admit;
    }
  }

  lemma NextServiceLoads(services: map<string, Service>, n: nat)
    requires 0 < n <= CHANNELS && Authorizers.LoadAcl(services, Rows(n - 1)) == Ok(map[SERVICE_ID := ServiceWith(n - 1)])
    ensures Authorizers.LoadAcl(services, Rows(n)) == Ok(map[SERVICE_ID := ServiceWith(n)])
  {
    hide Authorizers.LoadAcl, Authorizers.ValidAclRow, Authorizers.AclDuplicate, Authorizers.Admit;
    hide RowAt, Rows, ServiceWith, KeyAt;
    Unfolds(n);
    ServiceHas(n - 1);
    RowIsValid(n - 1);
    NextRowIsNew(n - 1);
    var m := map[SERVICE_ID := ServiceWith(n - 1)];
    OneMoreLoads(services, Rows(n - 1), RowAt(n - 1), m);
    assert m[SERVICE_ID := ServiceWith(n)] == map[SERVICE_ID := ServiceWith(n)];
  }

  lemma Unfolds(n: nat)
    requires 0 < n <= CHANNELS
    ensures Authorizers.ValidAclRow(RowAt(n - 1)) && ServiceWith(n) == Authorizers.Admit(ServiceWith(n - 1), RowAt(n - 1))
    ensures Rows(n) == Rows(n - 1) + [RowAt(n - 1)]
  {
    hide Authorizers.Admit;
  }

  lemma WideLoads()
    ensures Authorizers.Load(Wide()) == Ok(AuthorizerWith(ServiceWith(CHANNELS)))
  {
    ServicesLoad();
    AclLoads(AuthorizerWith(WITHOUT_ROW).byService, CHANNELS);
    hide Authorizers.LoadServices, Authorizers.LoadAcl, ServiceWith, Rows;
  }

  function TargetAt(c: nat): Target
    requires c < CHANNELS
  {
    Target(c, SERVICE_ID, ACL_REMOVED)
  }

  function Targets(): seq<Target> { seq(CHANNELS, c requires 0 <= c < CHANNELS => TargetAt(c)) }

  lemma HasKey(c: nat)
    requires c < CHANNELS
    ensures var s := ServiceWith(CHANNELS); s.enabled && KeyAt(c) in s.admissions && s.admissions[KeyAt(c)] == ROW
  {
    ServiceHas(CHANNELS);
    hide ServiceWith;
  }

  lemma TargetAtIsTarget(before: Authorizer, after: Authorizer, c: nat)
    requires c < CHANNELS && before == AuthorizerWith(ServiceWith(CHANNELS)) && after == AuthorizerWith(WITHOUT_ROW)
    ensures IsTarget(before, after, TargetAt(c))
  {
    HasKey(c);
    hide ServiceWith, Fingerprint;
    var key := KeyAt(c);
    assert Lost(before, after, SERVICE_ID, key) && key.channelId == c;
    hide Lost;
    assert ReasonFor(after, SERVICE_ID) == ACL_REMOVED;
  }

  lemma NoOtherTarget(before: Authorizer, after: Authorizer, t: Target)
    requires before == AuthorizerWith(ServiceWith(CHANNELS)) && after == AuthorizerWith(WITHOUT_ROW)
    requires IsTarget(before, after, t)
    ensures t.channelId < CHANNELS && t == TargetAt(t.channelId)
  {
    ServiceHas(CHANNELS);
    hide ServiceWith;
    var key :| Lost(before, after, t.serviceId, key) && key.channelId == t.channelId;
    assert t.serviceId == SERVICE_ID;
  }

  lemma DiffIsAll(before: Authorizer, after: Authorizer)
    requires before == AuthorizerWith(ServiceWith(CHANNELS)) && after == AuthorizerWith(WITHOUT_ROW)
    ensures IsDiff(before, after, Targets())
  {
    forall c: nat | c < CHANNELS ensures IsTarget(before, after, TargetAt(c)) {
      TargetAtIsTarget(before, after, c);
    }
    forall t | IsTarget(before, after, t) ensures t in Targets() {
      NoOtherTarget(before, after, t);
      assert Targets()[t.channelId] == t;
    }
    hide IsTarget, ServiceWith, AuthorizerWith;
    assert StrictlySorted(TargetKey, Targets());
    hide TargetKey;
    assert forall t :: t in Targets() ==> exists c: nat :: c < CHANNELS && Targets()[c] == t;
  }

  /** 65 channels in one table, none in the next: both load, and the reload between them is refused in every state. */
  lemma SixtyFivePairsNeverReload(b: Box, denyUntil: I64, ids: nat -> string, io: Persist)
    ensures Authorizers.Load(Wide()).Ok? && Authorizers.Load(After()).Ok? && |Targets()| == 65
    ensures IsDiff(Authorizers.Load(Wide()).value, Authorizers.Load(After()).value, Targets())
    ensures Queue(b, CommandsFor(Targets(), denyUntil, ids), io).0 == b
    ensures Queue(b, CommandsFor(Targets(), denyUntil, ids), io).1.Some?
  {
    WideLoads();
    TablesLoad();
    DiffIsAll(AuthorizerWith(ServiceWith(CHANNELS)), AuthorizerWith(WITHOUT_ROW));
    TooManyNeverReload(b, Targets(), denyUntil, ids, io);
    hide Authorizers.Load, IsDiff, Queue, CommandsFor, ServiceWith;
  }
}
