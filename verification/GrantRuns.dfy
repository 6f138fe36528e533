/** Grants in the pipeline's runs: which requests get one, and the row behind every one of them. */
module GrantRuns {
  import opened Wrappers
  import opened Commands
  import opened Fields
  import opened Worlds
  import opened Outbox
  import Reload = AclReload
  import opened Authorizers
  import opened AuthorizerLaws
  import opened TableLaws
  import opened Grants
  import opened GrantApi
  import opened Pipeline

  ghost predicate IsLoaded(a: Authorizer) {
    exists t :: LoadsTo(t, a)
  }

  ghost predicate LoadsTo(t: Tables, a: Authorizer) {
    Load(t) == Ok(a)
  }

  /** The tables hold this service record under this ID. */
  ghost predicate Gives(t: Tables, h: Holder) {
    Load(t).Ok? && h.serviceId in Load(t).value.byService && Load(t).value.byService[h.serviceId] == h.service
  }

  ghost predicate IsGiven(h: Holder) {
    exists t :: Gives(t, h)
  }

  /** An enabled row of some accepted tables on the grant's own service, channel and sender, which allows to listen. */
  ghost predicate RowBehind(g: Grant, t: Tables, row: AclRow) {
    && GoodTables(t) && row in t.acl && row.serviceId == g.serviceId && row.channelId == Some(g.key.channelId)
    && row.senderId == Some(g.key.senderId) && row.enabled == Some(true) && row.allowListen == Some(true)
    && row.role == g.acl.role
  }

  ghost predicate HasRowBehind(g: Grant) {
    exists t, row :: RowBehind(g, t, row)
  }

  ghost predicate TableInv(p: State) {
    && IsLoaded(p.auth) && (!p.reload.Idle? ==> IsLoaded(p.reload.next))
    && (forall rid :: rid in p.requests ==> IsGiven(p.requests[rid]))
    && (forall g :: g in p.grants ==> HasRowBehind(g))
  }

  /** The step that issues a grant, for a request that was authenticated under accepted tables: it happens exactly when a row
      of its service allows what is asked for and the key is the text of 32 bytes; the grant says what was asked. */
  lemma GrantIsIssuedIff(p: State, rid: nat, q: GrantRequest, lifetime: nat, grantId: string, t: Tables)
    requires p.world.up && rid in p.requests && 60 <= lifetime <= 3600 && (forall g :: g in p.grants ==> g.id != grantId)
    requires Gives(t, p.requests[rid])
    ensures var h := p.requests[rid]; var p' := Act(p, IssueGrant(rid, q, lifetime, grantId));
      if AllowedBy(t, h.serviceId, q) && EncodesBytes(q.servicePublicKey, 32) then
        exists g :: p'.grants == p.grants + {g} && g.id == grantId && IsFor(g, h, q, p.world.now, lifetime) && HasRowBehind(g)
      else p' == p
  {
    var h := p.requests[rid];
    AuthorizedIff(t, h.serviceId, q);
    var acl := AdmissionFor(h.service, q.channelId, q.senderId);
    hide Load, AllowedBy, EncodesBytes, AdmissionFor, Authorize;
    if acl.Some? && Authorize(h.serviceId, acl.value, q).None? {
      var g := GrantFor(p, rid, q, lifetime, grantId);
      IssuedHasRow(h, q, g, t);
      Issues(p, rid, q, lifetime, grantId);
    } else {
      IssuesNothing(p, rid, q, lifetime, grantId);
    }
  }

  lemma Issues(p: State, rid: nat, q: GrantRequest, lifetime: nat, grantId: string)
    requires p.world.up && rid in p.requests && 60 <= lifetime <= 3600 && (forall g :: g in p.grants ==> g.id != grantId)
    requires var acl := AdmissionFor(p.requests[rid].service, q.channelId, q.senderId);
      acl.Some? && Authorize(p.requests[rid].serviceId, acl.value, q).None?
    ensures var g := GrantFor(p, rid, q, lifetime, grantId);
      && Act(p, IssueGrant(rid, q, lifetime, grantId)).grants == p.grants + {g}
      && g.id == grantId && IsFor(g, p.requests[rid], q, p.world.now, lifetime)
  {
    hide AdmissionFor, ValidServiceId, ValidPublicKey;
  }

  lemma IssuesNothing(p: State, rid: nat, q: GrantRequest, lifetime: nat, grantId: string)
    requires rid in p.requests
    requires var acl := AdmissionFor(p.requests[rid].service, q.channelId, q.senderId);
      !(acl.Some? && Authorize(p.requests[rid].serviceId, acl.value, q).None?)
    ensures Act(p, IssueGrant(rid, q, lifetime, grantId)) == p
  {
    hide AdmissionFor, Authorize;
  }

  /** The grant repeats its holder and the request; it is signed now and expires a lifetime after the whole second. */
  ghost predicate IsFor(g: Grant, h: Holder, q: GrantRequest, now: nat, lifetime: nat) {
    && g.serviceId == h.serviceId && g.since == h.since
    && g.key.channelId == q.channelId && g.key.senderId == q.senderId && g.acl.role == q.role
    && g.issued == now && g.expires == now / 1_000_000_000 + lifetime
  }

  lemma IssuedHasRow(h: Holder, q: GrantRequest, g: Grant, t: Tables)
    requires Gives(t, h) && AdmissionFor(h.service, q.channelId, q.senderId).Some?
    requires Authorize(h.serviceId, AdmissionFor(h.service, q.channelId, q.senderId).value, q).None?
    requires g.serviceId == h.serviceId && g.key == AdmissionKey(q.channelId, q.senderId)
    requires g.acl == AdmissionFor(h.service, q.channelId, q.senderId).value
    ensures HasRowBehind(g)
  {
    var row := RowOfEntry(t, h.serviceId, g.key);
    LoadAcceptsIff(t);
    hide Load, GoodTables;
    assert RowBehind(g, t, row);
  }

  lemma IssueKeeps(p: State, rid: nat, q: GrantRequest, lifetime: nat, grantId: string)
    requires TableInv(p) && Allowed(p, IssueGrant(rid, q, lifetime, grantId))
    ensures TableInv(Act(p, IssueGrant(rid, q, lifetime, grantId)))
  {
    assert IsGiven(p.requests[rid]);
    var t :| Gives(t, p.requests[rid]);
    hide Gives, IsLoaded, IsGiven, HasRowBehind, Authorize, AdmissionFor;
    IssuedHasRow(p.requests[rid], q, GrantFor(p, rid, q, lifetime, grantId), t);
  }

  lemma AuthenticateKeeps(p: State, rid: nat, f: string)
    requires TableInv(p) && Allowed(p, Authenticate(rid, f))
    ensures TableInv(Act(p, Authenticate(rid, f)))
  {
    var t :| LoadsTo(t, p.auth);
    var id := p.auth.byFingerprint[f];
    assert Gives(t, Holder(id, p.auth.byService[id], p.world.now));
    hide Gives, IsLoaded, HasRowBehind;
  }

  lemma ReloadKeeps(p: State, a: Action)
    requires TableInv(p) && (a.BeginReload? || a.SampleClock? || a.QueueBatch? || a.Swap? || a.AbandonReload?)
    ensures TableInv(Act(p, a))
  {
    hide IsGiven, HasRowBehind, Load, Reload.IsDiff, Fresh, Enqueue, BatchOf, Step;
    if a.BeginReload? && Allowed(p, a) { assert LoadsTo(a.tables, Load(a.tables).value); }
    hide IsLoaded;
  }

  lemma RestKeeps(p: State, a: Action)
    requires TableInv(p) && (a.Outside? || a.Finish? || a.Die? || a.Recover?)
    ensures TableInv(Act(p, a))
  {
    hide IsGiven, HasRowBehind, Load, Step, GrantSecure;
    if a.Recover? && Allowed(p, a) { assert LoadsTo(a.startup, Load(a.startup).value); }
    hide IsLoaded;
  }

  lemma ActKeeps(p: State, a: Action)
    requires TableInv(p)
    ensures TableInv(Act(p, a))
  {
    hide TableInv;
    if a.IssueGrant? && Allowed(p, a) {
      IssueKeeps(p, a.rid, a.request, a.lifetime, a.grantId);
    } else if a.Authenticate? && Allowed(p, a) {
      AuthenticateKeeps(p, a.rid, a.fingerprint);
    } else if Allowed(p, a) {
      hide Act, Allowed;
      if a.Outside? || a.Finish? || a.Die? || a.Recover? { RestKeeps(p, a); } else { ReloadKeeps(p, a); }
    }
  }

  lemma {:induction false} PlayKeeps(actions: seq<Action>)
    ensures TableInv(Play(actions))
  {
    if actions == [] {
      NothingLoaded();
    } else {
      PlayKeeps(actions[..|actions| - 1]);
      ActKeeps(Play(actions[..|actions| - 1]), actions[|actions| - 1]);
      hide TableInv, Act;
    }
  }

  lemma NothingLoaded()
    ensures IsLoaded(BEGIN.auth)
  {
    assert LoadsTo(Tables([], [], []), Authorizer(map[], map[]));
  }

  /** In every run, a grant has a row behind it: enabled, allowed to listen, of its role, on its own service, channel and
      sender, in tables that the loader accepts. */
  lemma EveryGrantHasARow(actions: seq<Action>, g: Grant)
    requires g in Play(actions).grants
    ensures exists t, row :: (GoodTables(t) && row in t.acl && row.serviceId == g.serviceId
      && row.channelId == Some(g.key.channelId) && row.senderId == Some(g.key.senderId)
      && row.enabled == Some(true) && row.allowListen == Some(true) && row.role == g.acl.role)
  {
    PlayKeeps(actions);
    hide Play;
    var t, row :| RowBehind(g, t, row);
    assert row in t.acl;
  }

  /** In every run, whoever is in flight can get a grant for exactly what a row of the tables they were authenticated
      under allows. */
  lemma EveryRequestIsGiven(actions: seq<Action>, rid: nat)
    requires rid in Play(actions).requests
    ensures exists t :: (Load(t).Ok? && Play(actions).requests[rid].serviceId in Load(t).value.byService
      && Load(t).value.byService[Play(actions).requests[rid].serviceId] == Play(actions).requests[rid].service)
  {
    PlayKeeps(actions);
    hide Play, Load;
    assert IsGiven(Play(actions).requests[rid]);
    var t :| Gives(t, Play(actions).requests[rid]);
  }
}
