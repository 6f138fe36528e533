/** The revocation pipeline as a whole: requests in flight, grants, ACL reload and the durable outbox, interleaved.
    A reload runs in the source's steps (load and diff, sample the clock, queue, swap) with anything between them. */
module Pipeline {
  import opened Commands
  import opened CommandStores
  import opened Outbox
  import opened Worlds
  import opened Guarantees
  import opened Authorizers
  import opened Grants
  import Reload = AclReload

  /** A request that has been authenticated and holds the service record of that moment. */
  datatype Holder = Holder(serviceId: string, service: Service, since: nat)

  /** A grant as issued: its own ID, under which row, held since when, signed when, expiring when (Unix seconds). */
  datatype Grant = Grant(
    id: string, serviceId: string, key: AdmissionKey, acl: AdmissionAcl, since: nat, issued: nat, expires: nat)

  datatype ReloadState =
    | Idle
    | Diffed(next: Authorizer, targets: seq<Reload.Target>)
    | Sampled(next: Authorizer, targets: seq<Reload.Target>, sample: nat)
    | Queued(next: Authorizer, targets: seq<Reload.Target>, sample: nat, ids: set<string>)

  /** A revocation that a reload queued durably: when the reload's clock was sampled, and when the swap happened
      or a crash came before it. */
  datatype Displacement = Displacement(sample: nat, swap: nat)

  /** `orphans` are grants of an earlier process that a restart found without their row in the tables and without a
      revocation that a reload had queued: startup has no previous authorizer to compare with. */
  datatype State = State(
    world: World, auth: Authorizer, requests: map<nat, Holder>, reload: ReloadState,
    grants: set<Grant>, orphans: set<Grant>, displaced: map<string, Displacement>)

  datatype Action =
    | Outside(event: Event)
    | Authenticate(rid: nat, fingerprint: string)
    | IssueGrant(rid: nat, request: GrantRequest, lifetime: nat, grantId: string)
    | Finish(rid: nat)
    | BeginReload(tables: Tables, targets: seq<Reload.Target>)
    | SampleClock
    | QueueBatch(messageIds: nat -> string, io: Persist)
    | Swap
    | AbandonReload
    | Die
    | Recover(io: Persist, startup: Tables)

  const BEGIN := State(START, Authorizer(map[], map[]), map[], Idle, {}, {}, map[])

  ghost predicate Allowed(p: State, a: Action) {
    match a
    case Outside(e) => !e.Crash? && !e.Restart?
    case Authenticate(rid, f) =>
      p.world.up && rid !in p.requests && f in p.auth.byFingerprint && EnabledService(p.auth.byService, p.auth.byFingerprint[f])
    case IssueGrant(rid, q, lifetime, grantId) =>
      && p.world.up && rid in p.requests && MINIMUM_LIFETIME <= lifetime <= MAXIMUM_LIFETIME
      && (forall g :: g in p.grants ==> g.id != grantId)
      && var h := p.requests[rid];
         var acl := AdmissionFor(h.service, q.channelId, q.senderId);
         acl.Some? && Authorize(h.serviceId, acl.value, q).None?
    case Finish(rid) => rid in p.requests
    case BeginReload(tables, targets) =>
      p.world.up && p.reload.Idle? && Load(tables).Ok? && Reload.IsDiff(p.auth, Load(tables).value, targets)
    case SampleClock => p.reload.Diffed? && Reload.InRange(p.world.now)
    case QueueBatch(ids, _) => p.reload.Sampled? && p.world.up && Fresh(p.world, BatchOf(p, ids))
    case Swap => p.reload.Queued?
    case AbandonReload => p.reload.Diffed? || p.reload.Sampled?
    case Die => p.world.up
    case Recover(_, tables) => !p.world.up && Load(tables).Ok?
  }

  function BatchOf(p: State, ids: nat -> string): seq<Revocation>
    requires p.reload.Sampled?
  {
    if Reload.InRange(p.reload.sample) then Reload.CommandsFor(p.reload.targets, Reload.DenyUntil(p.reload.sample), ids) else []
  }

  ghost function AfterQueue(p: State, ids: nat -> string, io: Persist): State
    requires p.reload.Sampled?
  {
    var batch := BatchOf(p, ids);
    if !Reload.AllValid(batch) then p.(reload := Idle)
    else
      var error := Enqueue(p.world.box, batch, io).1;
      p.(world := Step(p.world, Enqueued(batch, io)),
         reload := if error.None? then Queued(p.reload.next, p.reload.targets, p.reload.sample, Ids(batch)) else Idle)
  }

  ghost function AfterRecover(p: State, io: Persist, tables: Tables): State
    requires Load(tables).Ok?
  {
    var q := p.(world := Step(p.world, Restart(io)), auth := Load(tables).value, requests := map[], reload := Idle);
    q.(orphans := p.orphans + set g | g in p.grants && !GrantSecure(q, g))
  }

  /** What the swap, or a crash before it, adds to the displacements: the revocations the reload has queued. */
  ghost function TakingEffect(p: State): map<string, Displacement> {
    if p.reload.Queued? then map d | d in p.reload.ids :: Displacement(p.reload.sample, p.world.now) else map[]
  }

  ghost function AfterDie(p: State): State {
    p.(world := Step(p.world, Crash), requests := map[], reload := Idle, displaced := p.displaced + TakingEffect(p))
  }

  /** The grant that a request in flight is about to get. */
  function GrantFor(p: State, rid: nat, q: GrantRequest, lifetime: nat, grantId: string): Grant
    requires rid in p.requests && AdmissionFor(p.requests[rid].service, q.channelId, q.senderId).Some?
  {
    var h := p.requests[rid];
    var acl := AdmissionFor(h.service, q.channelId, q.senderId).value;
    Grant(grantId, h.serviceId, AdmissionKey(q.channelId, q.senderId), acl, h.since, p.world.now, Expiry(p.world.now, lifetime))
  }

  ghost function Act(p: State, a: Action): State {
    if !Allowed(p, a) then p
    else match a
      case Outside(e) => p.(world := Step(p.world, e))
      case Authenticate(rid, f) =>
        var id := p.auth.byFingerprint[f];
        p.(requests := p.requests[rid := Holder(id, p.auth.byService[id], p.world.now)])
      case IssueGrant(rid, q, lifetime, grantId) =>
        p.(grants := p.grants + {GrantFor(p, rid, q, lifetime, grantId)}, requests := p.requests - {rid})
      case Finish(rid) => p.(requests := p.requests - {rid})
      case BeginReload(tables, targets) => p.(reload := Diffed(Load(tables).value, targets))
      case SampleClock => p.(reload := Sampled(p.reload.next, p.reload.targets, p.world.now))
      case QueueBatch(ids, io) => AfterQueue(p, ids, io)
      case Swap =>
        p.(auth := p.reload.next, reload := Idle, displaced := p.displaced + TakingEffect(p))
      case AbandonReload => p.(reload := Idle)
      case Die => AfterDie(p)
      case Recover(io, tables) => AfterRecover(p, io, tables)
  }

  ghost function Play(actions: seq<Action>): State {
    if actions == [] then BEGIN else Act(Play(actions[..|actions| - 1]), actions[|actions| - 1])
  }

  // Invariants.

  ghost predicate Revokes(c: Revocation, serviceId: string, channelId: U32) {
    c.serviceId == serviceId && c.grantIdHash == "" && c.channelId == channelId
  }

  ghost predicate DisplacedBy(p: State, d: string, serviceId: string, channelId: U32, since: nat) {
    && d in p.displaced && d in p.world.hist.created
    && Revokes(p.world.hist.created[d], serviceId, channelId) && since <= p.displaced[d].swap
  }

  /** Whoever acts under this row, held since then, is either current or has been displaced by a queued revocation. */
  ghost predicate Secure(p: State, serviceId: string, key: AdmissionKey, acl: AdmissionAcl, since: nat) {
    || Reload.Admits(p.auth, serviceId, key, acl)
    || exists d :: DisplacedBy(p, d, serviceId, key.channelId, since)
  }

  ghost predicate GrantSecure(p: State, g: Grant) {
    Secure(p, g.serviceId, g.key, g.acl, g.since)
  }

  ghost predicate HolderSecure(p: State, h: Holder) {
    && h.since <= p.world.now
    && forall k :: k in h.service.admissions && h.service.admissions[k].enabled ==>
         Secure(p, h.serviceId, k, h.service.admissions[k], h.since)
  }

  ghost predicate DisplacedInv(p: State) {
    forall d :: d in p.displaced ==>
      && d in p.world.hist.accepted && d in p.world.hist.created
      && p.world.hist.created[d].denyUntil == Reload.DenyUntil(p.displaced[d].sample)
      && p.displaced[d].sample <= p.displaced[d].swap
  }

  ghost predicate BatchCovers(created: Pending, ids: set<string>, t: Reload.Target) {
    exists d :: d in ids && d in created && Revokes(created[d], t.serviceId, t.channelId)
  }

  ghost predicate ReloadInv(p: State) {
    match p.reload
    case Idle => true
    case Diffed(next, targets) => Reload.IsDiff(p.auth, next, targets)
    case Sampled(next, targets, sample) =>
      Reload.IsDiff(p.auth, next, targets) && sample <= p.world.now && Reload.InRange(sample)
    case Queued(next, targets, sample, ids) =>
      && Reload.IsDiff(p.auth, next, targets) && sample <= p.world.now
      && ids !! p.displaced.Keys
      && (forall d :: d in ids ==>
            && d in p.world.hist.accepted && d in p.world.hist.created
            && p.world.hist.created[d].denyUntil == Reload.DenyUntil(sample))
      && (forall t :: t in targets ==> BatchCovers(p.world.hist.created, ids, t))
  }

  ghost predicate GrantsInv(p: State) {
    && p.orphans <= p.grants
    && (forall rid :: rid in p.requests ==> HolderSecure(p, p.requests[rid]))
    && (forall g :: g in p.grants ==>
          g.since <= g.issued <= p.world.now && g.acl.enabled && (g in p.orphans || GrantSecure(p, g)))
    && (forall g :: g in p.grants ==> Unix(g.issued) + MINIMUM_LIFETIME <= g.expires <= Unix(g.issued) + MAXIMUM_LIFETIME)
  }

  ghost predicate PipelineInv(p: State) {
    Inv(p.world) && DisplacedInv(p) && ReloadInv(p) && GrantsInv(p)
  }

  // A step of the outbox keeps what was secure.

  ghost predicate OutboxMoves(p: State, q: State) {
    && q == p.(world := q.world, reload := q.reload)
    && Grows(p.world.hist, q.world.hist) && p.world.now <= q.world.now
  }

  ghost predicate Remembers(d: map<string, Displacement>, d': map<string, Displacement>) {
    forall id :: id in d ==> id in d' && d'[id] == d[id]
  }

  lemma SecureStays(p: State, q: State, serviceId: string, key: AdmissionKey, acl: AdmissionAcl, since: nat)
    requires q.auth == p.auth && Remembers(p.displaced, q.displaced) && Grows(p.world.hist, q.world.hist)
    requires Secure(p, serviceId, key, acl, since)
    ensures Secure(q, serviceId, key, acl, since)
  {
    hide Reload.Admits;
    if !Reload.Admits(p.auth, serviceId, key, acl) {
      var d :| DisplacedBy(p, d, serviceId, key.channelId, since);
      assert DisplacedBy(q, d, serviceId, key.channelId, since);
    }
  }

  lemma OutboxKeepsGrants(p: State, q: State)
    requires GrantsInv(p) && DisplacedInv(p) && OutboxMoves(p, q)
    ensures GrantsInv(q) && DisplacedInv(q)
  {
    hide Secure, Unix, Reload.DenyUntil;
    forall rid | rid in q.requests ensures HolderSecure(q, q.requests[rid]) {
      var h := q.requests[rid];
      assert HolderSecure(p, h);
      forall k | k in h.service.admissions && h.service.admissions[k].enabled
        ensures Secure(q, h.serviceId, k, h.service.admissions[k], h.since)
      {
        SecureStays(p, q, h.serviceId, k, h.service.admissions[k], h.since);
      }
    }
    forall g | g in q.grants && g !in q.orphans ensures GrantSecure(q, g) {
      assert GrantSecure(p, g);
      SecureStays(p, q, g.serviceId, g.key, g.acl, g.since);
    }
  }

  lemma OutboxKeepsReload(p: State, q: State)
    requires ReloadInv(p) && OutboxMoves(p, q) && q.reload == p.reload
    ensures ReloadInv(q)
  {
    hide Reload.IsDiff, Revokes, Reload.DenyUntil;
    if q.reload.Queued? {
      forall t | t in q.reload.targets ensures BatchCovers(q.world.hist.created, q.reload.ids, t) {
        assert BatchCovers(p.world.hist.created, p.reload.ids, t);
        var d :| d in p.reload.ids && d in p.world.hist.created && Revokes(p.world.hist.created[d], t.serviceId, t.channelId);
        assert d in q.world.hist.created;
      }
    }
  }

  lemma StepMoves(p: State, e: Event)
    requires Inv(p.world)
    ensures Inv(Step(p.world, e))
    ensures OutboxMoves(p, p.(world := Step(p.world, e)))
  {
    StepGrows(p.world, e);
    StepKeepsInv(p.world, e);
    TimeGoesOn(p.world, e);
    hide Inv, Grows, Step;
  }

  lemma TimeGoesOn(w: World, e: Event)
    ensures w.now <= Step(w, e).now
  {
    hide Enqueue, SendNext, HandleReply;
  }

  lemma OutsideKeeps(p: State, e: Event)
    requires PipelineInv(p)
    ensures PipelineInv(p.(world := Step(p.world, e)))
  {
    hide Inv, Step, DisplacedInv, ReloadInv, GrantsInv, OutboxMoves;
    StepMoves(p, e);
    OutboxKeepsGrants(p, p.(world := Step(p.world, e)));
    OutboxKeepsReload(p, p.(world := Step(p.world, e)));
  }

  // Requests and grants.

  lemma AuthenticateKeeps(p: State, rid: nat, f: string)
    requires GrantsInv(p) && Allowed(p, Authenticate(rid, f))
    ensures GrantsInv(Act(p, Authenticate(rid, f)))
  {
    var q := Act(p, Authenticate(rid, f));
    var id := p.auth.byFingerprint[f];
    var h := Holder(id, p.auth.byService[id], p.world.now);
    assert q == p.(requests := p.requests[rid := h]);
    assert HolderSecure(q, h);
    hide HolderSecure, Act, Allowed, Unix;
    RequestsOnly(p, q);
  }

  /** Security does not depend on which requests are in flight. */
  lemma RequestsOnly(p: State, q: State)
    requires q == p.(requests := q.requests, grants := q.grants)
    ensures forall h :: HolderSecure(p, h) <==> HolderSecure(q, h)
    ensures forall g :: GrantSecure(p, g) <==> GrantSecure(q, g)
  {
    forall serviceId, key, acl, since ensures Secure(p, serviceId, key, acl, since) <==> Secure(q, serviceId, key, acl, since) {
      assert forall d ::
        DisplacedBy(p, d, serviceId, key.channelId, since) <==> DisplacedBy(q, d, serviceId, key.channelId, since);
    }
    hide Secure, Unix;
  }

  lemma IssueKeeps(p: State, rid: nat, request: GrantRequest, lifetime: nat, grantId: string)
    requires GrantsInv(p) && Allowed(p, IssueGrant(rid, request, lifetime, grantId))
    ensures GrantsInv(Act(p, IssueGrant(rid, request, lifetime, grantId)))
  {
    var q := Act(p, IssueGrant(rid, request, lifetime, grantId));
    var h := p.requests[rid];
    var g := GrantFor(p, rid, request, lifetime, grantId);
    assert q == p.(grants := p.grants + {g}, requests := p.requests - {rid});
    hide Act, Allowed, Authorize, Unix;
    IssuedIsSecure(p, q, h, rid, g);
  }

  lemma IssuedIsSecure(p: State, q: State, h: Holder, rid: nat, g: Grant)
    requires GrantsInv(p) && rid in p.requests && p.requests[rid] == h
    requires g.key in h.service.admissions && h.service.admissions[g.key] == g.acl && g.acl.enabled
    requires g.serviceId == h.serviceId && g.since == h.since && g.issued == p.world.now
    requires Unix(g.issued) + MINIMUM_LIFETIME <= g.expires <= Unix(g.issued) + MAXIMUM_LIFETIME
    requires q == p.(grants := p.grants + {g}, requests := p.requests - {rid})
    ensures GrantsInv(q)
  {
    hide Unix, Secure;
    assert HolderSecure(p, h);
    assert GrantSecure(p, g);
    RequestsOnly(p, q);
    hide HolderSecure, GrantSecure;
  }

  // The reload.

  lemma QueueKeeps(p: State, ids: nat -> string, io: Persist)
    requires p.reload.Sampled? && PipelineInv(p) && p.world.up && Fresh(p.world, BatchOf(p, ids))
    ensures PipelineInv(AfterQueue(p, ids, io))
  {
    hide Inv, DisplacedInv, GrantsInv, ReloadInv, Enqueue, Fresh;
    var q := AfterQueue(p, ids, io);
    if q.reload.Queued? {
      QueuedReload(p, ids, io);
    }
    QueueShape(p, ids, io);
    hide AfterQueue, OutboxMoves;
    OutboxKeepsGrants(p, q);
    if q.reload.Idle? { IdleReload(q); }
  }

  lemma IdleReload(p: State)
    requires p.reload.Idle?
    ensures ReloadInv(p)
  {}

  lemma QueueShape(p: State, ids: nat -> string, io: Persist)
    requires Inv(p.world) && p.reload.Sampled?
    ensures var q := AfterQueue(p, ids, io); OutboxMoves(p, q) && Inv(q.world) && (q.reload.Queued? || q.reload.Idle?)
  {
    var batch := BatchOf(p, ids);
    var q := AfterQueue(p, ids, io);
    hide Inv, Enqueue, Step, BatchOf, Reload.AllValid, OutboxMoves;
    StepMoves(p, Enqueued(batch, io));
    var w := if Reload.AllValid(batch) then Step(p.world, Enqueued(batch, io)) else p.world;
    assert q == p.(world := w).(reload := q.reload);
    hide AfterQueue;
    NoMove(p);
    MovesIgnoreReload(p, p.(world := w), q.reload);
  }

  lemma NoMove(p: State)
    ensures OutboxMoves(p, p.(world := p.world))
  {}

  lemma MovesIgnoreReload(p: State, q: State, r: ReloadState)
    requires OutboxMoves(p, q)
    ensures OutboxMoves(p, q.(reload := r))
  {
    hide Grows;
  }

  lemma GrowsIsReflexive(h: History)
    ensures Grows(h, h)
  {}

  lemma QueuedReload(p: State, ids: nat -> string, io: Persist)
    requires ReloadInv(p) && DisplacedInv(p) && p.world.up && p.reload.Sampled? && Fresh(p.world, BatchOf(p, ids))
    requires AfterQueue(p, ids, io).reload.Queued?
    ensures ReloadInv(AfterQueue(p, ids, io))
  {
    hide Reload.IsDiff, Reload.DenyUntil, Revokes, ValidRevocation, ReloadInv, DisplacedInv;
    var batch := BatchOf(p, ids);
    var q := AfterQueue(p, ids, io);
    var w := AfterEnqueue(p.world, batch, io);
    assert q == p.(world := w, reload := Queued(p.reload.next, p.reload.targets, p.reload.sample, Ids(batch)));
    assert w.now == p.world.now && w.hist.accepted == p.world.hist.accepted + Ids(batch)
      && w.hist.created == AddAll(p.world.hist.created, batch);
    hide AfterQueue, AfterEnqueue, Enqueue;
    QueuedReloadOf(p, q, ids);
  }

  lemma QueuedReloadOf(p: State, q: State, ids: nat -> string)
    requires ReloadInv(p) && DisplacedInv(p) && p.reload.Sampled? && Fresh(p.world, BatchOf(p, ids))
    requires q.auth == p.auth && q.displaced == p.displaced && q.world.now == p.world.now
    requires q.reload == Queued(p.reload.next, p.reload.targets, p.reload.sample, Ids(BatchOf(p, ids)))
    requires q.world.hist.accepted == p.world.hist.accepted + Ids(BatchOf(p, ids))
    requires q.world.hist.created == AddAll(p.world.hist.created, BatchOf(p, ids))
    ensures ReloadInv(q)
  {
    hide Reload.IsDiff, Reload.DenyUntil, Revokes;
    CreatedGrows(p.world.hist.created, BatchOf(p, ids));
    assert forall d :: d in p.displaced ==> d in p.world.hist.created;
    BatchIsQueued(p, ids, q.world.hist.created);
    hide BatchCovers, Fresh, DisplacedInv, BatchOf;
  }

  lemma BatchIsQueued(p: State, ids: nat -> string, created: Pending)
    requires p.reload.Sampled? && Reload.InRange(p.reload.sample)
    requires var batch := BatchOf(p, ids);
      && (forall i, j :: 0 <= i < j < |batch| ==> batch[i].messageId != batch[j].messageId)
      && (forall i :: 0 <= i < |batch| ==> batch[i].messageId !in p.world.hist.created)
      && created == AddAll(p.world.hist.created, batch)
    ensures var known := Ids(BatchOf(p, ids));
      && (forall d :: d in known ==> d in created && created[d].denyUntil == Reload.DenyUntil(p.reload.sample))
      && (forall t :: t in p.reload.targets ==> BatchCovers(created, known, t))
  {
    hide Reload.DenyUntil;
    var batch := BatchOf(p, ids);
    forall i | 0 <= i < |batch| ensures batch[i].messageId in Ids(batch)
        && batch[i].messageId in created && created[batch[i].messageId] == batch[i] {
      InIds(batch, batch[i].messageId);
      AddAllLooksUp(p.world.hist.created, batch, i);
    }
    forall d | d in Ids(batch) ensures d in created && created[d].denyUntil == Reload.DenyUntil(p.reload.sample) {
      InIds(batch, d);
    }
    forall t | t in p.reload.targets ensures BatchCovers(created, Ids(batch), t) {
      var i :| 0 <= i < |p.reload.targets| && p.reload.targets[i] == t;
      assert Revokes(batch[i], t.serviceId, t.channelId);
      assert created[batch[i].messageId] == batch[i];
    }
  }

  lemma {:induction false} AddAllLooksUp(p: Pending, batch: seq<Revocation>, i: nat)
    requires i < |batch|
    requires forall i, j :: 0 <= i < j < |batch| ==> batch[i].messageId != batch[j].messageId
    ensures batch[i].messageId in AddAll(p, batch) && AddAll(p, batch)[batch[i].messageId] == batch[i]
  {
    if i < |batch| - 1 {
      AddAllLooksUp(p, batch[..|batch| - 1], i);
    }
  }

  lemma SwapKeepsSecure(p: State, q: State, serviceId: string, key: AdmissionKey, acl: AdmissionAcl, since: nat)
    requires p.reload.Queued? && ReloadInv(p) && q == Act(p, Swap) && since <= p.world.now && acl.enabled
    requires Secure(p, serviceId, key, acl, since)
    ensures Secure(q, serviceId, key, acl, since)
  {
    hide Unix, Reload.DenyUntil, Reload.StaysEnabled;
    if Reload.Admits(p.auth, serviceId, key, acl) {
      if !Reload.Admits(q.auth, serviceId, key, acl) {
        var t := Reload.Target(key.channelId, serviceId, Reload.ReasonFor(p.reload.next, serviceId));
        assert Reload.Lost(p.auth, p.reload.next, serviceId, key);
        assert Reload.IsTarget(p.auth, p.reload.next, t);
        assert t in p.reload.targets && BatchCovers(p.world.hist.created, p.reload.ids, t);
        var d :| d in p.reload.ids && d in p.world.hist.created && Revokes(p.world.hist.created[d], serviceId, key.channelId);
        assert DisplacedBy(q, d, serviceId, key.channelId, since);
      }
    } else {
      var d :| DisplacedBy(p, d, serviceId, key.channelId, since);
      assert DisplacedBy(q, d, serviceId, key.channelId, since);
    }
  }

  lemma SwapKeeps(p: State)
    requires PipelineInv(p) && Allowed(p, Swap)
    ensures PipelineInv(Act(p, Swap))
  {
    hide Inv, Secure, Unix, Reload.IsDiff, Reload.DenyUntil, BatchCovers;
    var q := Act(p, Swap);
    assert q.reload == Idle && q.world == p.world && q.requests == p.requests && q.grants == p.grants && q.orphans == p.orphans;
    assert DisplacedInv(q);
    forall rid | rid in q.requests ensures HolderSecure(q, q.requests[rid]) {
      var h := q.requests[rid];
      assert HolderSecure(p, h);
      forall k | k in h.service.admissions && h.service.admissions[k].enabled
        ensures Secure(q, h.serviceId, k, h.service.admissions[k], h.since)
      {
        SwapKeepsSecure(p, q, h.serviceId, k, h.service.admissions[k], h.since);
      }
    }
    forall g | g in q.grants && g !in q.orphans ensures GrantSecure(q, g) {
      assert GrantSecure(p, g);
      SwapKeepsSecure(p, q, g.serviceId, g.key, g.acl, g.since);
    }
  }

  // Crash and recovery.

  lemma DieKeeps(p: State)
    requires PipelineInv(p)
    ensures PipelineInv(AfterDie(p))
  {
    CrashIsQuiet(p.world);
    hide Inv, Step, Enabled, OutboxMoves, DisplacedInv, GrantsInv, ReloadInv;
    StepMoves(p, Crash);
    var q := p.(world := Step(p.world, Crash));
    OutboxKeepsGrants(p, q);
    OutboxKeepsReload(p, q);
    assert AfterDie(p) == q.(requests := map[], reload := Idle, displaced := q.displaced + TakingEffect(q));
    InterruptedReload(q);
    IdleReload(AfterDie(p));
  }

  lemma CrashIsQuiet(w: World)
    ensures Step(w, Crash).hist == w.hist && Step(w, Crash).now == w.now
  {}

  /** The swap and the crash record what the reload queued, beside what was recorded before. */
  lemma EffectsAreNew(p: State)
    requires ReloadInv(p)
    ensures Remembers(p.displaced, p.displaced + TakingEffect(p))
  {
    hide Reload.IsDiff, BatchCovers, Reload.DenyUntil;
  }

  lemma InterruptedReload(p: State)
    requires DisplacedInv(p) && GrantsInv(p) && ReloadInv(p)
    ensures var q := p.(requests := map[], reload := Idle, displaced := p.displaced + TakingEffect(p));
      DisplacedInv(q) && GrantsInv(q)
  {
    hide Unix, Reload.DenyUntil, Reload.Admits, Reload.IsDiff, BatchCovers;
    EffectsAreNew(p);
    GrowsIsReflexive(p.world.hist);
    var q := p.(requests := map[], reload := Idle, displaced := p.displaced + TakingEffect(p));
    assert DisplacedInv(q);
    hide ReloadInv, TakingEffect, DisplacedInv;
    forall g | g in q.grants && g !in q.orphans ensures GrantSecure(q, g) {
      assert GrantSecure(p, g);
      SecureStays(p, q, g.serviceId, g.key, g.acl, g.since);
    }
  }

  lemma RecoverKeeps(p: State, io: Persist, tables: Tables)
    requires PipelineInv(p) && Load(tables).Ok?
    ensures PipelineInv(AfterRecover(p, io, tables))
  {
    hide Inv, Step, Load, GrantsInv, DisplacedInv, OutboxMoves;
    StepMoves(p, Restart(io));
    var p' := p.(world := Step(p.world, Restart(io)));
    OutboxKeepsGrants(p, p');
    var q := AfterRecover(p, io, tables);
    var r := p'.(auth := q.auth, requests := map[], reload := Idle);
    assert q == r.(orphans := p.orphans + set g | g in p.grants && !GrantSecure(r, g));
    hide AfterRecover, ReloadInv;
    RestartedGrants(p', r, q);
    IdleReload(q);
  }

  lemma RestartedGrants(p: State, r: State, q: State)
    requires GrantsInv(p) && DisplacedInv(p)
    requires r == p.(auth := r.auth, requests := map[], reload := Idle)
    requires q == r.(orphans := p.orphans + set g | g in p.grants && !GrantSecure(r, g))
    ensures GrantsInv(q) && DisplacedInv(q)
  {
    hide Unix, Reload.DenyUntil, GrantSecure;
    forall g | g in q.grants && g !in q.orphans ensures GrantSecure(q, g) {
      RecordsDoNotMatter(r, q, g);
    }
  }

  lemma RecordsDoNotMatter(p: State, q: State, g: Grant)
    requires q == p.(orphans := q.orphans) && GrantSecure(p, g)
    ensures GrantSecure(q, g)
  {
    GrowsIsReflexive(p.world.hist);
    SecureStays(p, q, g.serviceId, g.key, g.acl, g.since);
  }

  lemma SmallStepKeeps(p: State, a: Action)
    requires PipelineInv(p) && Allowed(p, a)
    requires a.Finish? || a.BeginReload? || a.SampleClock? || a.AbandonReload?
    ensures PipelineInv(Act(p, a))
  {
    hide Inv, Unix, Reload.DenyUntil, Reload.IsDiff, Reload.InRange, Load, Secure;
    var q := Act(p, a);
    assert q == p.(requests := q.requests, reload := q.reload);
    assert forall rid :: rid in q.requests ==> rid in p.requests && q.requests[rid] == p.requests[rid];
    assert ReloadInv(q) && DisplacedInv(q);
    hide Act, Allowed, ReloadInv, DisplacedInv;
    forall h, k, acl: AdmissionAcl, s: string | Secure(p, s, k, acl, h) ensures Secure(q, s, k, acl, h) {
      GrowsIsReflexive(p.world.hist);
      SecureStays(p, q, s, k, acl, h);
    }
  }

  lemma ActKeepsInv(p: State, a: Action)
    requires PipelineInv(p)
    ensures PipelineInv(Act(p, a))
  {
    if Allowed(p, a) {
      match a {
        case Outside(e) => OutsideKeeps(p, e);
        case Authenticate(_, _) => RequestEventKeeps(p, a);
        case IssueGrant(_, _, _, _) => RequestEventKeeps(p, a);
        case QueueBatch(ids, io) => QueueKeeps(p, ids, io);
        case Swap => SwapKeeps(p);
        case Die => DieKeeps(p);
        case Recover(io, tables) => RecoverKeeps(p, io, tables);
        case _ => SmallStepKeeps(p, a);
      }
    }
    hide PipelineInv, Allowed;
  }

  lemma RequestEventKeeps(p: State, a: Action)
    requires PipelineInv(p) && Allowed(p, a) && (a.Authenticate? || a.IssueGrant?)
    ensures PipelineInv(Act(p, a))
  {
    hide Inv, DisplacedInv, ReloadInv;
    var q := Act(p, a);
    assert q == p.(requests := q.requests, grants := q.grants);
    if a.Authenticate? {
      AuthenticateKeeps(p, a.rid, a.fingerprint);
    } else {
      IssueKeeps(p, a.rid, a.request, a.lifetime, a.grantId);
    }
    hide Act, Allowed, GrantsInv;
    RequestsKeepReload(p, q);
  }

  lemma RequestsKeepReload(p: State, q: State)
    requires ReloadInv(p) && DisplacedInv(p) && q == p.(requests := q.requests, grants := q.grants)
    ensures ReloadInv(q) && DisplacedInv(q)
  {
    hide Reload.IsDiff, Reload.DenyUntil, BatchCovers;
  }

  lemma {:induction false} PlayKeepsInv(actions: seq<Action>)
    ensures PipelineInv(Play(actions))
  {
    if actions == [] {
      RunKeepsInv([]);
      hide Inv;
    } else {
      PlayKeepsInv(actions[..|actions| - 1]);
      ActKeepsInv(Play(actions[..|actions| - 1]), actions[|actions| - 1]);
      hide Act, PipelineInv;
    }
  }
}
