/** The reload in the authorizers' own fields: what the diff says, what is queued for it, and how the steps fit together. */
module ReloadLaws {
  import opened Wrappers
  import opened Text
  import opened Commands
  import opened CommandStores
  import opened Outbox
  import opened Worlds
  import opened Guarantees
  import opened Authorizers
  import opened Fields
  import opened StoreLaws
  import opened Pipeline
  import opened Coverage
  import Reload = AclReload

  // The diff.

  ghost predicate IsOn(a: Authorizer, id: string) {
    id in a.byService && a.byService[id].enabled
  }

  /** The next authorizer still has this service enabled, with a row on this key that agrees in every field. */
  ghost predicate StillHas(next: Authorizer, id: string, key: AdmissionKey, acl: AdmissionAcl) {
    && IsOn(next, id) && key in next.byService[id].admissions
    && var e := next.byService[id].admissions[key];
       && e.role == acl.role && e.allowListen == acl.allowListen && e.allowTalk == acl.allowTalk
       && e.allowInterrupt == acl.allowInterrupt && e.interruptPriority == acl.interruptPriority && e.enabled == acl.enabled
  }

  ghost predicate TakenAway(previous: Authorizer, next: Authorizer, id: string, key: AdmissionKey) {
    && IsOn(previous, id) && key in previous.byService[id].admissions
    && previous.byService[id].admissions[key].enabled
    && !StillHas(next, id, key, previous.byService[id].admissions[key])
  }

  ghost predicate LosesOn(previous: Authorizer, next: Authorizer, id: string, channelId: U32) {
    exists key :: TakenAway(previous, next, id, key) && key.channelId == channelId
  }

  ghost predicate Before(a: Reload.Target, b: Reload.Target) {
    Less(a.serviceId, b.serviceId) || (a.serviceId == b.serviceId && a.channelId < b.channelId)
  }

  lemma LostIff(previous: Authorizer, next: Authorizer, id: string, key: AdmissionKey)
    ensures Reload.Lost(previous, next, id, key) <==> TakenAway(previous, next, id, key)
  {}

  /** The diff lists exactly the pairs of a service and a channel on which an enabled row was taken away, by service and
      then channel, each once; the reason is service_disabled exactly when the service is gone or disabled. */
  lemma DiffIsExact(previous: Authorizer, next: Authorizer, targets: seq<Reload.Target>)
    requires Reload.IsDiff(previous, next, targets)
    ensures forall id, c :: (exists t :: t in targets && t.serviceId == id && t.channelId == c) <==> LosesOn(previous, next, id, c)
    ensures forall t :: t in targets ==> t.reason == if IsOn(next, t.serviceId) then "acl_removed" else "service_disabled"
    ensures forall i, j :: 0 <= i < j < |targets| ==> Before(targets[i], targets[j])
  {
    forall id, c ensures (exists t :: t in targets && t.serviceId == id && t.channelId == c) <==> LosesOn(previous, next, id, c) {
      HitIff(previous, next, id, c);
      var t := Reload.Target(c, id, Reload.ReasonFor(next, id));
      assert Reload.IsTarget(previous, next, t) <==> LosesOn(previous, next, id, c);
    }
    forall i, j | 0 <= i < j < |targets| ensures Before(targets[i], targets[j]) {
      assert Reload.TargetKey(targets[i]) == (targets[i].serviceId, targets[i].channelId);
    }
  }

  lemma HitIff(previous: Authorizer, next: Authorizer, id: string, c: U32)
    ensures Reload.Hit(previous, next, id, c) <==> LosesOn(previous, next, id, c)
  {
    forall key ensures Reload.Lost(previous, next, id, key) <==> TakenAway(previous, next, id, key) {
      LostIff(previous, next, id, key);
    }
    hide Reload.Lost, TakenAway;
  }

  // What is queued.

  ghost predicate HasCommandFor(p: Pending, t: Reload.Target, id: string, denyUntil: int) {
    id in p && Repeats(p[id], id, t.channelId, t.serviceId, "", t.reason, denyUntil)
  }

  /** When the queueing for a diff succeeds, each target has its command in queue and file, under its own ID: the target's
      service and channel, no grant, its reason, and the common deadline. Nothing else has joined, and nothing has left. */
  lemma QueuedRepeatsTargets(b: Box, targets: seq<Reload.Target>, denyUntil: I64, ids: nat -> string, io: Persist)
    requires ValidPending(b.pending) && Reload.Queue(b, Reload.CommandsFor(targets, denyUntil, ids), io).1.None?
    ensures var b' := Reload.Queue(b, Reload.CommandsFor(targets, denyUntil, ids), io).0;
      && (targets != [] ==> b'.disk == b'.pending && b'.token)
      && (forall i :: 0 <= i < |targets| ==> HasCommandFor(b'.pending, targets[i], ids(i), denyUntil))
      && (forall id :: id in b.pending ==> id in b'.pending && b'.pending[id] == b.pending[id])
      && (forall id :: id in b'.pending ==> id in b.pending || exists i :: 0 <= i < |targets| && ids(i) == id)
  {
    var commands := Reload.CommandsFor(targets, denyUntil, ids);
    QueueIsEnqueue(b, commands, io);
    hide Reload.Queue, Enqueue, ValidPending;
    if targets != [] {
      EnqueuedBatchIsPending(b, commands, io);
      CommandsAreForTargets(Enqueue(b, commands, io).0.pending, targets, denyUntil, ids);
      forall c | c in commands ensures exists i :: 0 <= i < |targets| && ids(i) == c.messageId {
        var i :| 0 <= i < |commands| && commands[i] == c;
        assert ids(i) == c.messageId;
      }
    } else {
      assert commands == [];
      NothingEnqueued(b, io);
    }
    hide HasCommandFor;
  }

  lemma CommandsAreForTargets(p: Pending, targets: seq<Reload.Target>, denyUntil: I64, ids: nat -> string)
    requires var commands := Reload.CommandsFor(targets, denyUntil, ids);
      forall c :: c in commands ==> c.messageId in p && p[c.messageId] == c
    ensures forall i :: 0 <= i < |targets| ==> HasCommandFor(p, targets[i], ids(i), denyUntil)
  {
    var commands := Reload.CommandsFor(targets, denyUntil, ids);
    forall i | 0 <= i < |targets| ensures HasCommandFor(p, targets[i], ids(i), denyUntil) {
      assert commands[i] in commands;
    }
  }

  lemma QueueIsEnqueue(b: Box, commands: seq<Revocation>, io: Persist)
    requires Reload.Queue(b, commands, io).1.None?
    ensures Reload.Queue(b, commands, io) == Enqueue(b, commands, io)
  {
    hide Enqueue, Reload.AllValid;
  }

  lemma NothingEnqueued(b: Box, io: Persist)
    ensures Enqueue(b, [], io) == (b, None)
  {}

  // The steps of the pipeline and the reload as one.

  /** 5400 seconds after the whole second of the clock. */
  lemma DeadlineIs(now: nat)
    ensures Reload.DenyUntil(now) == now / 1_000_000_000 + 5400
  {}

  lemma BeginsAndSamples(p: State, tables: Tables, targets: seq<Reload.Target>)
    requires p.world.up && p.reload.Idle? && Load(tables).Ok? && Reload.IsDiff(p.auth, Load(tables).value, targets)
    requires Reload.InRange(p.world.now)
    ensures Act(Act(p, BeginReload(tables, targets)), SampleClock)
      == p.(reload := Sampled(Load(tables).value, targets, p.world.now))
  {
    hide Load, Reload.IsDiff, Reload.InRange, Step, AfterQueue;
  }

  lemma Queues(p: State, ids: nat -> string, io: Persist)
    requires p.world.up && p.reload.Sampled? && p.reload.sample == p.world.now && Reload.InRange(p.world.now)
    requires Fresh(p.world, Reload.CommandsFor(p.reload.targets, Reload.DenyUntil(p.world.now), ids))
    ensures var q := Act(p, QueueBatch(ids, io));
      var (box, refusal) := Reload.Queue(
        p.world.box, Reload.CommandsFor(p.reload.targets, Reload.DenyUntil(p.world.now), ids), io);
      && q == p.(world := q.world, reload := q.reload) && q.world.box == box
      && q.world.session == p.world.session && q.world.now == p.world.now
      && (if refusal.None? then q.reload.Queued? && q.reload.next == p.reload.next else q.reload.Idle?)
  {
    var batch := Reload.CommandsFor(p.reload.targets, Reload.DenyUntil(p.world.now), ids);
    assert BatchOf(p, ids) == batch;
    hide Reload.InRange, Enqueue, Reload.AllValid, Fresh, Reload.DenyUntil, BatchOf;
  }

  lemma Swaps(p: State)
    ensures var q := Act(p, Swap);
      && q.world == p.world && q.requests == p.requests && q.grants == p.grants && q.orphans == p.orphans
      && (if p.reload.Queued? then q.auth == p.reload.next && q.reload.Idle? else q == p)
  {
    hide TakingEffect;
  }

  lemma QueuesAndSwaps(p: State, ids: nat -> string, io: Persist)
    requires p.world.up && p.reload.Sampled? && p.reload.sample == p.world.now && Reload.InRange(p.world.now)
    requires Fresh(p.world, Reload.CommandsFor(p.reload.targets, Reload.DenyUntil(p.world.now), ids))
    ensures var q := Act(Act(p, QueueBatch(ids, io)), Swap);
      var (box, refusal) := Reload.Queue(
        p.world.box, Reload.CommandsFor(p.reload.targets, Reload.DenyUntil(p.world.now), ids), io);
      && q.world.box == box && q.world.session == p.world.session && q.world.now == p.world.now && q.reload.Idle?
      && q.auth == (if refusal.None? then p.reload.next else p.auth)
      && q.requests == p.requests && q.grants == p.grants && q.orphans == p.orphans
  {
    Queues(p, ids, io);
    Swaps(Act(p, QueueBatch(ids, io)));
    hide Act, Reload.Queue, Fresh;
  }

  /** With nothing in between, the pipeline's four steps leave queue, file and authorizer exactly as one call of
      `ReloadAuthorizer` does: the new authorizer if the queueing succeeded, the old one if not. */
  lemma ReloadRuns(actions: seq<Action>, tables: Tables, targets: seq<Reload.Target>, ids: nat -> string, io: Persist)
    requires var p := Play(actions);
      && p.world.up && p.reload.Idle? && Load(tables).Ok? && Reload.IsDiff(p.auth, Load(tables).value, targets)
      && Reload.InRange(p.world.now)
      && Fresh(p.world, Reload.CommandsFor(targets, Reload.DenyUntil(p.world.now), ids))
    ensures var p := Play(actions);
      var q := Play(actions + [BeginReload(tables, targets), SampleClock, QueueBatch(ids, io), Swap]);
      var (box, refusal) := Reload.Queue(p.world.box, Reload.CommandsFor(targets, Reload.DenyUntil(p.world.now), ids), io);
      && q.world.box == box && q.world.session == p.world.session && q.world.now == p.world.now && q.reload.Idle?
      && q.auth == (if refusal.None? then Load(tables).value else p.auth)
      && q.requests == p.requests && q.grants == p.grants && q.orphans == p.orphans
  {
    var p := Play(actions);
    var a, b, c, d := BeginReload(tables, targets), SampleClock, QueueBatch(ids, io), Swap;
    assert actions + [a, b, c, d] == actions + [a] + [b] + [c] + [d];
    PlayLast(actions, a);
    PlayLast(actions + [a], b);
    PlayLast(actions + [a] + [b], c);
    PlayLast(actions + [a] + [b] + [c], d);
    hide Play, Act, Load, Reload.IsDiff, Reload.InRange, Fresh, Reload.Queue, Reload.DenyUntil;
    BeginsAndSamples(p, tables, targets);
    QueuesAndSwaps(p.(reload := Sampled(Load(tables).value, targets, p.world.now)), ids, io);
  }
}
