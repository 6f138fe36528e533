/** Coverage of issued grants over whole runs of the pipeline: what the 90-minute deny window guarantees,
    and exactly when it does not. */
module Coverage {
  import opened Commands
  import opened Outbox
  import opened Worlds
  import opened Guarantees
  import opened Authorizers
  import opened Grants
  import opened Pipeline
  import Reload = AclReload

  // Runs only add to what has happened.

  ghost predicate Extends(p: State, q: State) {
    && Remembers(p.displaced, q.displaced) && Grows(p.world.hist, q.world.hist)
    && p.grants <= q.grants && p.world.now <= q.world.now
  }

  lemma ActExtends(p: State, a: Action)
    requires PipelineInv(p)
    ensures Extends(p, Act(p, a))
  {
    hide Inv, DisplacedInv, GrantsInv, ReloadInv, Step, Enqueue, AfterQueue, TakingEffect, Load, Remembers, Fresh;
    GrowsIsReflexive(p.world.hist);
    assert Remembers(p.displaced, p.displaced) by { RemembersItself(p.displaced); }
    if Allowed(p, a) {
      hide Grows;
      match a {
        case Outside(e) => StepMoves(p, e);
        case QueueBatch(ids, io) => QueueShape(p, ids, io);
        case Die => CrashIsQuiet(p.world); EffectsAreNew(p);
        case Swap => EffectsAreNew(p);
        case Recover(io, _) => StepMoves(p, Restart(io));
        case _ =>
      }
    }
  }

  lemma RemembersItself(d: map<string, Displacement>)
    ensures Remembers(d, d)
  {}

  lemma ExtendsIsTransitive(p: State, q: State, r: State)
    requires Extends(p, q) && Extends(q, r)
    ensures Extends(p, r)
  {
    GrowsIsTransitive(p.world.hist, q.world.hist, r.world.hist);
    hide Grows;
  }

  lemma {:induction false} PlayExtends(actions: seq<Action>, more: seq<Action>)
    ensures Extends(Play(actions), Play(actions + more))
  {
    var p := Play(actions);
    if more == [] {
      assert actions + more == actions;
      GrowsIsReflexive(p.world.hist);
    } else {
      var init, last := more[..|more| - 1], more[|more| - 1];
      assert (actions + more)[..|actions + more| - 1] == actions + init;
      hide Act, PipelineInv;
      PlayExtends(actions, init);
      PlayKeepsInv(actions + init);
      ActExtends(Play(actions + init), last);
      hide Extends;
      ExtendsIsTransitive(p, Play(actions + init), Play(actions + more));
    }
  }

  lemma PlayLast(actions: seq<Action>, a: Action)
    ensures Play(actions + [a]) == Act(Play(actions), a)
  {
    hide Act;
    assert (actions + [a])[..|actions|] == actions;
  }

  // The deny window.

  ghost predicate WithinWindow(sample: nat, issued: nat, lifetime: nat) {
    Unix(issued) + lifetime <= Reload.DenyUntil(sample)
  }

  /** The 90-minute window covers every admissible lifetime exactly for grants signed
      no later than 1800 seconds after the reload's clock sample. */
  lemma DenyWindowCoversIff(sample: nat, issued: nat)
    ensures (forall lifetime: nat :: MINIMUM_LIFETIME <= lifetime <= MAXIMUM_LIFETIME ==>
        WithinWindow(sample, issued, lifetime))
      <==> Unix(issued) <= Unix(sample) + 1800
  {
    assert Reload.DenyUntil(sample) == Unix(sample) + 5400;
    assert WithinWindow(sample, issued, MAXIMUM_LIFETIME) <==> Unix(issued) <= Unix(sample) + 1800;
  }

  /** The revocation is still to be delivered: on disk, and pending while the process is up. */
  ghost predicate Outstanding(w: World, d: string) {
    d in w.box.disk && (w.up ==> d in w.box.pending)
  }

  ghost predicate AnsweredByRelay(w: World, d: string) {
    d in w.hist.created && d in w.hist.answered && HeardAnswer(w.hist, w.hist.created[d])
  }

  ghost predicate Timely(p: State, g: Grant, d: string)
    requires d in p.displaced
  {
    Unix(g.issued) <= Unix(p.displaced[d].sample) + 1800
  }

  /** A reload, perhaps not the last one, has queued this revocation against the grant's service and channel. */
  ghost predicate Displaces(p: State, d: string, g: Grant) {
    DisplacedBy(p, d, g.serviceId, g.key.channelId, g.since)
  }

  /** In every interleaving an unexpired grant is still backed by its row, or a reload has queued a revocation
      for its service and channel; grants orphaned by a restart excepted. */
  lemma GrantIsBackedOrRevoked(actions: seq<Action>, g: Grant)
    requires var p := Play(actions); g in p.grants && g !in p.orphans && g.expires > Unix(p.world.now)
    ensures var p := Play(actions); Reload.Admits(p.auth, g.serviceId, g.key, g.acl) || exists d :: Displaces(p, d, g)
  {
    PlayKeepsInv(actions);
    hide Play, Unix, Reload.Admits, Inv;
    var p := Play(actions);
    assert GrantSecure(p, g);
    if !Reload.Admits(p.auth, g.serviceId, g.key, g.acl) {
      var d :| DisplacedBy(p, d, g.serviceId, g.key.channelId, g.since);
      assert Displaces(p, d, g);
    }
  }

  /** The revocation outlives the grant, and is outstanding or was answered: it has not been dropped. */
  ghost predicate Covers(p: State, d: string, g: Grant) {
    && Displaces(p, d, g) && g.expires <= p.world.hist.created[d].denyUntil
    && (Outstanding(p.world, d) || AnsweredByRelay(p.world, d))
  }

  /** Each revocation that displaces an unexpired grant covers it, if the grant was signed at most 1800 seconds
      after the reload's clock sample. */
  lemma RevocationCoverage(actions: seq<Action>, g: Grant, d: string)
    requires var p := Play(actions); g in p.grants && g.expires > Unix(p.world.now)
    requires var p := Play(actions); Displaces(p, d, g) && Timely(p, g, d)
    ensures Covers(Play(actions), d, g)
  {
    PlayKeepsInv(actions);
    var p := Play(actions);
    hide Play, Unix;
    TimelyIsCovered(p, g, d);
    AcceptedFate(p.world, d);
  }

  lemma TimelyIsCovered(p: State, g: Grant, d: string)
    requires GrantsInv(p) && DisplacedInv(p) && g in p.grants && d in p.displaced && Timely(p, g, d)
    ensures d in p.world.hist.created && g.expires <= p.world.hist.created[d].denyUntil
  {
    assert Reload.DenyUntil(p.displaced[d].sample) == Unix(p.displaced[d].sample) + 5400;
    hide Unix, Secure;
  }

  lemma AcceptedFate(w: World, d: string)
    requires Inv(w) && d in w.hist.accepted
    ensures d in w.hist.created
    ensures Outstanding(w, d) || AnsweredByRelay(w, d) || (d in w.hist.lapsed && w.hist.created[d].denyUntil <= Unix(w.now))
  {
    hide QueueInv, WakeInv, SentInv, AgreementInv, Unix;
  }

  /** A caller's view of the 1800 seconds: the reload's time from sample to swap, plus the request's time
      from authentication to signing, must not exceed them. */
  ghost predicate Prompt(p: State, g: Grant, d: string)
    requires d in p.displaced
  {
    (p.displaced[d].swap - p.displaced[d].sample) + (g.issued - g.since) <= 1800 * SECOND
  }

  lemma PromptnessSuffices(p: State, g: Grant, d: string)
    requires Displaces(p, d, g) && Prompt(p, g, d)
    ensures Timely(p, g, d)
  {}

  /** End to end: if the reloads and the request together were prompt, an unexpired grant is admitted by the
      current tables, or a revocation covers it. */
  lemma EndToEnd(actions: seq<Action>, g: Grant)
    requires var p := Play(actions); g in p.grants && g !in p.orphans && g.expires > Unix(p.world.now)
    requires var p := Play(actions); forall d :: Displaces(p, d, g) ==> Prompt(p, g, d)
    ensures var p := Play(actions); Reload.Admits(p.auth, g.serviceId, g.key, g.acl) || exists d :: Covers(p, d, g)
  {
    GrantIsBackedOrRevoked(actions, g);
    var p := Play(actions);
    if !Reload.Admits(p.auth, g.serviceId, g.key, g.acl) {
      var d :| Displaces(p, d, g);
      PromptnessSuffices(p, g, d);
      hide Play, Displaces, Covers, Timely;
      RevocationCoverage(actions, g, d);
      assert Covers(p, d, g);
    }
  }

  // Orphans.

  ghost predicate Calm(p: State) { p.reload.Idle? || p.world.up }

  lemma StepStaysUp(w: World, e: Event)
    requires w.up && !e.Crash? && !e.Restart?
    ensures Step(w, e).up
  {}

  lemma ActStaysCalm(p: State, a: Action)
    requires Calm(p)
    ensures Calm(Act(p, a))
  {
    hide Step, Enqueue, Load, Reload.AllValid, Fresh, Reload.IsDiff, BatchOf;
    if Allowed(p, a) && p.world.up {
      match a {
        case Outside(e) => StepStaysUp(p.world, e);
        case QueueBatch(ids, io) => StepStaysUp(p.world, Enqueued(BatchOf(p, ids), io));
        case _ =>
      }
    }
  }

  /** A reload is under way only while the process is up. */
  lemma {:induction false} PlayStaysCalm(actions: seq<Action>)
    ensures Calm(Play(actions))
  {
    if actions != [] {
      PlayStaysCalm(actions[..|actions| - 1]);
      ActStaysCalm(Play(actions[..|actions| - 1]), actions[|actions| - 1]);
    }
  }

  /** The reload under way has durably queued d against this service and channel. */
  ghost predicate QueuedBy(p: State, d: string, serviceId: string, channelId: U32) {
    && p.reload.Queued? && d in p.reload.ids && d in p.world.hist.created
    && Revokes(p.world.hist.created[d], serviceId, channelId)
  }

  /** What a reload has queued is recorded when it takes effect, or when a crash comes first. */
  lemma ActRecords(p: State, a: Action)
    requires PipelineInv(p) && Calm(p) && p.reload.Queued?
    ensures Act(p, a).reload == p.reload || Act(p, a).displaced == p.displaced + TakingEffect(p)
  {
    hide Inv, DisplacedInv, GrantsInv, ReloadInv, Step, Load, Fresh;
  }

  lemma {:induction false} QueuedIsRecorded(actions: seq<Action>, more: seq<Action>, d: string)
    requires Play(actions).reload.Queued? && d in Play(actions).reload.ids
    ensures var p, q := Play(actions), Play(actions + more);
      q.reload == p.reload || (d in q.displaced && q.displaced[d].swap >= p.world.now)
  {
    if more == [] {
      assert actions + more == actions;
    } else {
      var init, last := more[..|more| - 1], more[|more| - 1];
      var p, m, q := Play(actions), Play(actions + init), Play(actions + more);
      assert (actions + more)[..|actions + more| - 1] == actions + init;
      assert q == Act(m, last);
      hide Act, PipelineInv, Play, TakingEffect, Grows;
      QueuedIsRecorded(actions, init, d);
      PlayKeepsInv(actions + init);
      PlayStaysCalm(actions + init);
      PlayExtends(actions, init);
      ActExtends(m, last);
      if m.reload == p.reload {
        ActRecords(m, last);
        TakesEffectNow(m, d);
      }
    }
  }

  lemma TakesEffectNow(p: State, d: string)
    requires p.reload.Queued? && d in p.reload.ids
    ensures d in TakingEffect(p) && TakingEffect(p)[d].swap == p.world.now
  {}

  /** `g` is lost at action k: a restart whose tables do not hold its row, when every reload that had queued
      a revocation for its service and channel, swapped or not, had done so before its holder was authenticated. */
  ghost predicate Orphaned(actions: seq<Action>, k: nat, g: Grant)
    requires k < |actions|
  {
    && actions[k].Recover? && g in Play(actions[..k]).grants && Load(actions[k].startup).Ok?
    && !Reload.Admits(Load(actions[k].startup).value, g.serviceId, g.key, g.acl)
    && forall j, d :: 0 <= j <= k && QueuedBy(Play(actions[..j]), d, g.serviceId, g.key.channelId) ==>
         Play(actions[..j]).world.now < g.since
  }

  lemma OrphanedByRecovery(p: State, a: Action, g: Grant)
    requires g in Act(p, a).orphans && g !in p.orphans
    ensures a.Recover? && !p.world.up && g in p.grants && Load(a.startup).Ok?
    ensures !Reload.Admits(Load(a.startup).value, g.serviceId, g.key, g.acl)
    ensures forall d :: !Displaces(p, d, g)
  {
    hide Load, Unix, Enqueue;
    if Allowed(p, a) && a.Recover? {
      var q := p.(world := Step(p.world, Restart(a.io)), auth := Load(a.startup).value, requests := map[], reload := Idle);
      assert !GrantSecure(q, g);
      assert q.world.hist.created == p.world.hist.created;
      forall d ensures !Displaces(p, d, g) {
        assert Displaces(p, d, g) ==> DisplacedBy(q, d, g.serviceId, g.key.channelId, g.since);
      }
    }
  }

  lemma QueuedDisplaces(actions: seq<Action>, more: seq<Action>, d: string, g: Grant)
    requires var p := Play(actions); QueuedBy(p, d, g.serviceId, g.key.channelId) && g.since <= p.world.now
    requires !Play(actions + more).world.up
    ensures Displaces(Play(actions + more), d, g)
  {
    hide Play, Revokes;
    QueuedIsRecorded(actions, more, d);
    PlayStaysCalm(actions + more);
    PlayExtends(actions, more);
  }

  /** Every orphan, in every run, was orphaned by such a restart: start-up has no previous authorizer to compare with. */
  lemma {:induction false} OrphansComeFromRestarts(actions: seq<Action>, g: Grant)
    requires g in Play(actions).orphans
    ensures exists k :: 0 <= k < |actions| && Orphaned(actions, k, g)
  {
    if actions != [] {
      var n := |actions| - 1;
      var init, last := actions[..n], actions[n];
      var p := Play(init);
      assert Play(actions) == Act(p, last);
      hide Act, Play, QueuedBy, Reload.Admits, Displaces;
      if g in p.orphans {
        OrphansComeFromRestarts(init, g);
        var k :| 0 <= k < n && Orphaned(init, k, g);
        assert forall j :: 0 <= j <= k ==> actions[..j] == init[..j];
        assert Orphaned(actions, k, g);
      } else {
        OrphanedByRecovery(p, last, g);
        forall j, d | 0 <= j <= n && QueuedBy(Play(actions[..j]), d, g.serviceId, g.key.channelId)
          ensures Play(actions[..j]).world.now < g.since
        {
          assert actions[..j] + actions[j..n] == init;
          if g.since <= Play(actions[..j]).world.now {
            QueuedDisplaces(actions[..j], actions[j..n], d, g);
          }
        }
        assert Orphaned(actions, n, g);
      }
    }
  }

  // Signed in time: covered from then on.

  /** No reload whose clock was sampled more than 1800 seconds before g was signed displaces it, or is under way. */
  ghost predicate SignedInTime(p: State, g: Grant) {
    && (forall d :: Displaces(p, d, g) ==> Timely(p, g, d))
    && (p.reload.Sampled? || p.reload.Queued? ==> Unix(g.issued) <= Unix(p.reload.sample) + 1800)
  }

  lemma DisplacedGrows(p: State, a: Action)
    ensures Act(p, a).displaced == p.displaced || Act(p, a).displaced == p.displaced + TakingEffect(p)
  {
    hide Step, Load, Enqueue, TakingEffect, Allowed;
  }

  ghost predicate Timed(p: State) { p.reload.Sampled? || p.reload.Queued? }

  /** A reload keeps its clock sample; a new one is taken now. */
  lemma SampleStays(p: State, a: Action)
    ensures var q := Act(p, a);
      Timed(q) ==> (Timed(p) && q.reload.sample == p.reload.sample) || q.reload.sample == p.world.now
  {
    hide Step, Load, Enqueue, TakingEffect;
  }

  lemma InTimeStays(p: State, a: Action, g: Grant)
    requires PipelineInv(p) && g in p.grants && SignedInTime(p, g)
    ensures SignedInTime(Act(p, a), g)
  {
    var q := Act(p, a);
    ActExtends(p, a);
    DisplacedGrows(p, a);
    SampleStays(p, a);
    UnixIsMonotone(g.issued, p.world.now);
    hide Act, Inv, ReloadInv, Unix;
    forall d | Displaces(q, d, g) ensures Timely(q, g, d) {
      DisplacedEarlier(p, q, d, g);
    }
  }

  lemma DisplacedEarlier(p: State, q: State, d: string, g: Grant)
    requires DisplacedInv(p) && Extends(p, q) && SignedInTime(p, g) && Displaces(q, d, g)
    requires q.displaced == p.displaced || q.displaced == p.displaced + TakingEffect(p)
    ensures Timely(q, g, d)
  {
    hide Unix, Reload.DenyUntil;
    if d in p.displaced {
      assert Displaces(p, d, g);
    }
  }

  lemma {:induction false} InTimeLasts(actions: seq<Action>, more: seq<Action>, g: Grant)
    requires g in Play(actions).grants && SignedInTime(Play(actions), g)
    ensures SignedInTime(Play(actions + more), g) && g in Play(actions + more).grants
  {
    if more == [] {
      assert actions + more == actions;
    } else {
      var init, last := more[..|more| - 1], more[|more| - 1];
      assert (actions + more)[..|actions + more| - 1] == actions + init;
      assert Play(actions + more) == Act(Play(actions + init), last);
      hide Act, Play, PipelineInv, SignedInTime;
      InTimeLasts(actions, init, g);
      PlayKeepsInv(actions + init);
      ActExtends(Play(actions + init), last);
      InTimeStays(Play(actions + init), last, g);
    }
  }

  /** A grant signed in time stays admitted or covered in every continuation, until it expires or a restart orphans it. */
  lemma SignedInTimeStaysCovered(actions: seq<Action>, more: seq<Action>, g: Grant)
    requires g in Play(actions).grants && SignedInTime(Play(actions), g)
    ensures var q := Play(actions + more);
      || g.expires <= Unix(q.world.now) || g in q.orphans
      || Reload.Admits(q.auth, g.serviceId, g.key, g.acl) || exists d :: Covers(q, d, g)
  {
    var q := Play(actions + more);
    InTimeLasts(actions, more, g);
    hide Play, Covers, Displaces, Unix, Timely;
    if g.expires > Unix(q.world.now) && g !in q.orphans && !Reload.Admits(q.auth, g.serviceId, g.key, g.acl) {
      GrantIsBackedOrRevoked(actions + more, g);
      var d :| Displaces(q, d, g);
      RevocationCoverage(actions + more, g, d);
      assert Covers(q, d, g);
    }
  }
}
