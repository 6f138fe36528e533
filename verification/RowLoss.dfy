/** Who takes a grant's row away: a restart, or a reload that has itself queued a revocation for it. */
module RowLosses {
  import opened Commands
  import opened Outbox
  import opened Worlds
  import opened Authorizers
  import opened Grants
  import opened Pipeline
  import opened Coverage
  import Reload = AclReload

  ghost predicate Admitted(p: State, g: Grant) {
    Reload.Admits(p.auth, g.serviceId, g.key, g.acl)
  }

  // Every grant's row was in the tables when its holder was authenticated.

  ghost predicate HasRecord(a: Authorizer, h: Holder) {
    EnabledService(a.byService, h.serviceId) && a.byService[h.serviceId] == h.service
  }

  ghost predicate HeldAt(actions: seq<Action>, j: int, h: Holder) {
    0 <= j <= |actions| && Play(actions[..j]).world.now == h.since && HasRecord(Play(actions[..j]).auth, h)
  }

  ghost predicate AdmittedAt(actions: seq<Action>, j: int, g: Grant) {
    0 <= j <= |actions| && Play(actions[..j]).world.now == g.since && Admitted(Play(actions[..j]), g)
  }

  lemma NewRequest(p: State, a: Action, rid: nat)
    requires rid in Act(p, a).requests
    ensures var h := Act(p, a).requests[rid];
      (rid in p.requests && p.requests[rid] == h) || (h.since == p.world.now && HasRecord(p.auth, h))
  {
    hide Step, Load, Enqueue, Authorize;
  }

  lemma NewGrant(p: State, a: Action, g: Grant)
    requires g in Act(p, a).grants && g !in p.grants
    ensures exists rid :: rid in p.requests && GrantedUnder(p.requests[rid], g)
  {
    hide Step, Load, Enqueue, Authorize;
    assert a.IssueGrant? && GrantedUnder(p.requests[a.rid], g);
  }

  ghost predicate GrantedUnder(h: Holder, g: Grant) {
    && g.serviceId == h.serviceId && g.since == h.since
    && g.key in h.service.admissions && h.service.admissions[g.key] == g.acl
  }

  lemma {:induction false} RequestsWereHeld(actions: seq<Action>, rid: nat)
    requires rid in Play(actions).requests
    ensures exists j :: HeldAt(actions, j, Play(actions).requests[rid])
  {
    if actions != [] {
      var n := |actions| - 1;
      var init, h := actions[..n], Play(actions).requests[rid];
      var p := Play(init);
      hide Act, HasRecord;
      NewRequest(p, actions[n], rid);
      if rid in p.requests && p.requests[rid] == h {
        RequestsWereHeld(init, rid);
        var j :| HeldAt(init, j, h);
        assert actions[..j] == init[..j];
        assert HeldAt(actions, j, h);
      } else {
        assert HeldAt(actions, n, h);
      }
    }
  }

  lemma {:induction false} GrantsWereAdmitted(actions: seq<Action>, g: Grant)
    requires g in Play(actions).grants
    ensures exists j :: AdmittedAt(actions, j, g)
  {
    if actions != [] {
      var n := |actions| - 1;
      var init := actions[..n];
      var p := Play(init);
      hide Act;
      if g in p.grants {
        GrantsWereAdmitted(init, g);
        var j :| AdmittedAt(init, j, g);
        assert actions[..j] == init[..j];
        assert AdmittedAt(actions, j, g);
      } else {
        NewGrant(p, actions[n], g);
        var rid :| rid in p.requests && GrantedUnder(p.requests[rid], g);
        RequestsWereHeld(init, rid);
        var j :| HeldAt(init, j, p.requests[rid]);
        assert actions[..j] == init[..j];
        assert AdmittedAt(actions, j, g);
      }
    }
  }

  // The action that takes a row away.

  /** The reload under way has queued d, which no earlier reload has, and its swap makes d displace the grant. */
  ghost predicate RevokedBy(p: State, d: string, g: Grant) {
    p.reload.Queued? && d in p.reload.ids && d !in p.displaced && Displaces(Act(p, Swap), d, g)
  }

  lemma SwapRevokes(p: State, g: Grant)
    requires PipelineInv(p) && p.reload.Queued? && g.since <= p.world.now && g.acl.enabled
    requires Admitted(p, g) && !Admitted(Act(p, Swap), g)
    ensures exists d :: RevokedBy(p, d, g)
  {
    hide Inv, DisplacedInv, GrantsInv, Unix, Reload.DenyUntil, Reload.StaysEnabled;
    var t := Reload.Target(g.key.channelId, g.serviceId, Reload.ReasonFor(p.reload.next, g.serviceId));
    assert Reload.Lost(p.auth, p.reload.next, g.serviceId, g.key);
    assert Reload.IsTarget(p.auth, p.reload.next, t);
    assert t in p.reload.targets && BatchCovers(p.world.hist.created, p.reload.ids, t);
    var d :| d in p.reload.ids && d in p.world.hist.created && Revokes(p.world.hist.created[d], t.serviceId, t.channelId);
    assert RevokedBy(p, d, g);
  }

  lemma OnlySwapOrRestart(p: State, a: Action, g: Grant)
    requires Admitted(p, g) && !Admitted(Act(p, a), g)
    ensures a.Recover? || (a.Swap? && p.reload.Queued?)
  {
    hide Step, Load, Enqueue, Reload.Admits, TakingEffect;
  }

  /** Action k takes the grant's row away for good, after its holder was authenticated: it is a restart, or a swap whose
      reload has itself queued a revocation for the grant's service and channel, which displaces the grant ever since. */
  ghost predicate LosesRow(actions: seq<Action>, k: nat, g: Grant)
    requires k < |actions|
  {
    var p := Play(actions[..k]);
    && g.since <= p.world.now && Admitted(p, g)
    && (forall j :: k < j <= |actions| ==> !Admitted(Play(actions[..j]), g))
    && (actions[k].Recover?
        || (actions[k].Swap? && exists d :: RevokedBy(p, d, g) && Displaces(Play(actions), d, g)))
  }

  lemma {:induction false} LastAdmitted(actions: seq<Action>, j: nat, n: nat, g: Grant) returns (k: nat)
    requires j < n <= |actions| && Admitted(Play(actions[..j]), g)
    requires forall i :: n <= i <= |actions| ==> !Admitted(Play(actions[..i]), g)
    ensures j <= k < |actions| && Admitted(Play(actions[..k]), g)
    ensures forall i :: k < i <= |actions| ==> !Admitted(Play(actions[..i]), g)
  {
    hide Play, Admitted;
    k := n - 1;
    if !Admitted(Play(actions[..n - 1]), g) { k := LastAdmitted(actions, j, n - 1, g); }
  }

  lemma LossHasCause(actions: seq<Action>, k: nat, g: Grant)
    requires k < |actions| && g.since <= Play(actions[..k]).world.now && g.acl.enabled
    requires Admitted(Play(actions[..k]), g) && forall j :: k < j <= |actions| ==> !Admitted(Play(actions[..j]), g)
    ensures LosesRow(actions, k, g)
  {
    var before, after := actions[..k], actions[..k + 1];
    var p := Play(before);
    assert after == before + [actions[k]] && actions == after + actions[k + 1..];
    PlayLast(before, actions[k]);
    PlayKeepsInv(before);
    hide Play, Act, PipelineInv, Admitted;
    OnlySwapOrRestart(p, actions[k], g);
    if actions[k].Swap? {
      SwapRevokes(p, g);
      var d :| RevokedBy(p, d, g);
      PlayExtends(after, actions[k + 1..]);
      assert Displaces(Play(actions), d, g) by { DisplacesStays(Play(after), Play(actions), d, g); }
    }
  }

  lemma DisplacesStays(p: State, q: State, d: string, g: Grant)
    requires Extends(p, q) && Displaces(p, d, g)
    ensures Displaces(q, d, g)
  {}

  /** In every run, a grant whose row is not in the tables lost it to a restart, or to a reload that had itself queued,
      durably and for the first time, a revocation for its service and channel. */
  lemma RowLossIsRevoked(actions: seq<Action>, g: Grant)
    requires g in Play(actions).grants && !Admitted(Play(actions), g)
    ensures exists k :: 0 <= k < |actions| && LosesRow(actions, k, g)
  {
    hide Play, Admitted, LosesRow, Extends;
    GrantIsEnabled(actions, g);
    GrantsWereAdmitted(actions, g);
    var j :| AdmittedAt(actions, j, g);
    assert actions[..|actions|] == actions;
    var k := LastAdmitted(actions, j, |actions|, g);
    LaterInRun(actions, j, k);
    LossHasCause(actions, k, g);
  }

  lemma GrantIsEnabled(actions: seq<Action>, g: Grant)
    requires g in Play(actions).grants
    ensures g.acl.enabled
  {
    PlayKeepsInv(actions);
    hide Play, Inv, Unix, Secure;
  }

  lemma LaterInRun(actions: seq<Action>, j: nat, k: nat)
    requires j <= k <= |actions|
    ensures Play(actions[..j]).world.now <= Play(actions[..k]).world.now
  {
    assert actions[..k] == actions[..j] + actions[j..k];
    PlayExtends(actions[..j], actions[j..k]);
    hide Play;
  }
}
