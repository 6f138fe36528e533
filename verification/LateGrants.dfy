/** Exactly when a grant signed after its row was lost ends up uncovered. */
module LateGrants {
  import opened Wrappers
  import opened Commands
  import opened CommandStores
  import opened Outbox
  import opened Worlds
  import opened Authorizers
  import opened Grants
  import opened Pipeline
  import opened Coverage
  import Reload = AclReload

  /** The grant is alive, its row is gone, and no reload's revocation stands against it: none is outstanding,
      and those that were answered have a deny window that is over. */
  ghost predicate Uncovered(p: State, g: Grant) {
    && g in p.grants && g !in p.orphans && g.expires > Unix(p.world.now)
    && !Reload.Admits(p.auth, g.serviceId, g.key, g.acl)
    && forall d :: Displaces(p, d, g) ==>
         && !Outstanding(p.world, d)
         && (AnsweredByRelay(p.world, d) ==> Reload.DenyUntil(p.displaced[d].sample) <= Unix(p.world.now))
  }

  /** The revocation's deny window ends before the grant does. */
  ghost predicate Late(p: State, d: string, g: Grant)
    requires d in p.displaced
  {
    Reload.DenyUntil(p.displaced[d].sample) < g.expires
  }

  // A revocation that is not late covers the grant until it expires.

  lemma InTimeIsNeverUncovered(actions: seq<Action>, more: seq<Action>, g: Grant, d: string)
    requires Displaces(Play(actions), d, g) && !Late(Play(actions), d, g)
    ensures !Uncovered(Play(actions + more), g)
  {
    var q := Play(actions + more);
    PlayKeepsInv(actions + more);
    PlayExtends(actions, more);
    hide Play, Unix, Reload.DenyUntil, Reload.Admits, Inv, Revokes;
    assert Displaces(q, d, g);
    AcceptedFate(q.world, d);
  }

  // A late one is dropped by one pass of the outbox just before the grant expires.

  lemma {:induction false} ListPending(p: Pending) returns (order: seq<Revocation>)
    requires forall id :: id in p ==> p[id].messageId == id
    ensures Orders(order, p)
  {
    order := [];
    if p != map[] {
      var id :| id in p;
      var rest := ListPending(p - {id});
      order := rest + [p[id]];
      assert order[|rest|] == p[id];
      forall k | k in p ensures p[k] in order {
        assert k != id ==> (p - {id})[k] in rest;
      }
    }
  }

  /** There is a message ID that has not been used. */
  lemma {:induction false} FreshId(used: set<string>) returns (id: string)
    ensures forall u :: u in used ==> |u| < |id|
  {
    if used == {} {
      id := "";
    } else {
      var u :| u in used;
      var shorter := FreshId(used - {u});
      id := seq(|shorter| + |u| + 1, i => 'A');
    }
  }

  function Outsides(es: seq<Event>): seq<Action> {
    seq(|es|, i requires 0 <= i < |es| => Outside(es[i]))
  }

  ghost predicate Steady(e: Event) { !e.Crash? && !e.Restart? }

  lemma {:induction false} OutsidesRun(actions: seq<Action>, es: seq<Event>)
    requires forall i :: 0 <= i < |es| ==> Steady(es[i])
    ensures Play(actions + Outsides(es)) == Play(actions).(world := Run(Play(actions).world, es))
  {
    if es == [] {
      assert actions + Outsides(es) == actions;
    } else {
      var init, last := es[..|es| - 1], es[|es| - 1];
      assert forall i :: 0 <= i < |init| ==> Steady(init[i]);
      assert actions + Outsides(es) == actions + Outsides(init) + [Outside(last)];
      assert es == init + [last];
      hide Play, Run, Step, Act, Outsides;
      OutsidesRun(actions, init);
      PlayLast(actions + Outsides(init), Outside(last));
      RunLast(Play(actions).world, init, last);
      OutsideAct(Play(actions + Outsides(init)), last);
    }
  }

  lemma OutsideAct(p: State, e: Event)
    requires Steady(e)
    ensures Act(p, Outside(e)) == p.(world := Step(p.world, e))
  {
    hide Step;
  }

  function AllCommit(id: string): Persist { Committed }

  function AllWritten(id: string): bool { true }

  /** A fresh connection at `later`, one whole pass over the queue, nothing failing. */
  ghost function Sweep(later: nat, request: string, order: seq<Revocation>): seq<Event> {
    [Disconnect, Tick(later), Connect(request)]
    + ([BeginPass(order, Unix(later))] + PassSteps(order, AllCommit, AllWritten) + [EndPass])
  }

  lemma Hangup(w: World)
    ensures Step(w, Disconnect) == w.(session := Closed)
  {}

  lemma Later(w: World, later: nat)
    requires w.now <= later
    ensures Step(w, Tick(later)) == w.(now := later)
  {}

  lemma Dial(w: World, request: string)
    requires w.up && w.session.Closed? && request !in w.hist.created
    ensures Step(w, Connect(request)) == w.(session := Open(Top, request, {}, [], [], []))
  {}

  lemma NewConnection(w: World, later: nat, request: string)
    requires w.up && w.now <= later && request !in w.hist.created
    ensures Run(w, [Disconnect, Tick(later), Connect(request)])
      == w.(now := later, session := Open(Top, request, {}, [], [], []))
  {
    var a, b, c := Disconnect, Tick(later), Connect(request);
    assert Run(w, []) == w;
    hide Run, Step;
    assert [] + [a] == [a] && [a] + [b] == [a, b] && [a, b] + [c] == [a, b, c];
    RunLast(w, [], a);
    RunLast(w, [a], b);
    RunLast(w, [a, b], c);
    Hangup(w);
    Later(w.(session := Closed), later);
    Dial(w.(session := Closed, now := later), request);
  }

  /** Nothing that has lapsed is pending after a whole pass on a new connection. */
  lemma PassDropsLapsed(b: Box, order: seq<Revocation>, clock: int)
    requires ValidPending(b.pending) && Orders(order, b.pending)
    ensures var r := Pass(b, {}, order, clock, AllCommit, AllWritten);
      r.ok && forall d :: d in r.box.pending ==> d in b.pending && b.pending[d].denyUntil > clock
  {
    PassMeaning(b, {}, order, clock, AllCommit, AllWritten);
    var r := Pass(b, {}, order, clock, AllCommit, AllWritten);
    assert r.ok;
    hide Pass, ValidPending, Orders, LapseResults, Hampered;
    forall d | d in r.box.pending ensures d in b.pending && b.pending[d].denyUntil > clock {
      assert d in Ids(r.frames);
      InIds(r.frames, d);
      var i :| 0 <= i < |r.frames| && r.frames[i].messageId == d;
      assert r.frames[i] in r.frames;
    }
  }

  lemma SweepDrops(w: World, later: nat, request: string, order: seq<Revocation>)
    requires w.up && w.now <= later && request !in w.hist.created
    requires ValidPending(w.box.pending) && Orders(order, w.box.pending)
    ensures var w' := Run(w, Sweep(later, request, order));
      && w'.up && w'.now == later && w'.hist == w.hist.(lapsed := w'.hist.lapsed)
      && forall d :: d in w'.box.pending ==> d in w.box.pending && w.box.pending[d].denyUntil > Unix(later)
  {
    var connect := [Disconnect, Tick(later), Connect(request)];
    var pass := [BeginPass(order, Unix(later))] + PassSteps(order, AllCommit, AllWritten) + [EndPass];
    hide Run, Pass, Unix, ValidPending, Orders, PassSteps, MidPass;
    assert Sweep(later, request, order) == connect + pass;
    RunInTwo(w, connect, pass);
    NewConnection(w, later, request);
    var m := w.(now := later, session := Open(Top, request, {}, [], [], []));
    PassRuns(m, order, Unix(later), AllCommit, AllWritten);
    PassDropsLapsed(m.box, order, Unix(later));
  }

  lemma SweepIsSteady(later: nat, request: string, order: seq<Revocation>)
    ensures forall e :: e in Sweep(later, request, order) ==> Steady(e)
  {}

  /** Some moment in the grant's last second, not before `now`. */
  lemma LastSecond(now: nat, expires: nat) returns (later: nat)
    requires Unix(now) < expires
    ensures now <= later && Unix(later) == expires - 1
  {
    later := if now <= (expires - 1) * SECOND then (expires - 1) * SECOND else now;
  }

  /** The states the claim is about: an unexpired grant whose row is gone, not orphaned. */
  ghost predicate RowLost(p: State, g: Grant) {
    && g in p.grants && g !in p.orphans && g.expires > Unix(p.world.now)
    && !Reload.Admits(p.auth, g.serviceId, g.key, g.acl)
  }

  ghost predicate AllLate(p: State, g: Grant) {
    forall d :: Displaces(p, d, g) ==> Late(p, d, g)
  }

  lemma SweptIsUncovered(p: State, w: World, g: Grant)
    requires PipelineInv(p) && RowLost(p, g) && AllLate(p, g)
    requires w.up && Unix(w.now) == g.expires - 1 && w.hist == p.world.hist.(lapsed := w.hist.lapsed)
    requires forall d :: d in w.box.pending ==> d in p.world.box.pending && p.world.box.pending[d].denyUntil > Unix(w.now)
    ensures Uncovered(p.(world := w), g)
  {
    hide Unix, Reload.DenyUntil, Reload.Admits, Revokes, DurableInv, HeardInv, WakeInv, SentInv, AgreementInv, SlotsInv;
    hide ReloadInv, GrantsInv, ValidPending;
    var q := p.(world := w);
    forall d | Displaces(q, d, g) ensures !Outstanding(w, d) && Reload.DenyUntil(q.displaced[d].sample) <= Unix(w.now) {
      assert Displaces(p, d, g) && Late(p, d, g);
      assert d in p.world.box.pending ==> p.world.box.pending[d] == p.world.hist.created[d];
    }
  }

  lemma LateIsUncoveredWhileUp(actions: seq<Action>, g: Grant) returns (more: seq<Action>)
    requires Play(actions).world.up && RowLost(Play(actions), g) && AllLate(Play(actions), g)
    ensures Uncovered(Play(actions + more), g)
  {
    var p := Play(actions);
    PlayKeepsInv(actions);
    hide Play, Unix, AllLate, Reload.Admits;
    var later := LastSecond(p.world.now, g.expires);
    var order := ListPending(p.world.box.pending);
    var request := FreshId(p.world.hist.created.Keys);
    var es := Sweep(later, request, order);
    more := Outsides(es);
    SweepIsSteady(later, request, order);
    OutsidesRun(actions, es);
    SweepDrops(p.world, later, request, order);
    hide Inv, PipelineInv, RowLost, Sweep;
    SweptIsUncovered(p, Run(p.world, es), g);
  }

  const NO_ROWS := Tables([], [], [])

  lemma NoRowsLoad()
    ensures Load(NO_ROWS) == Ok(Authorizer(map[], map[]))
  {}

  /** A restart of a stopped process with tables that hold nothing: all that matters here stays as it was. */
  lemma RestartKeepsLate(p: State, g: Grant)
    requires PipelineInv(p) && !p.world.up && RowLost(p, g) && AllLate(p, g) && exists d :: Displaces(p, d, g)
    ensures var q := Act(p, Recover(Committed, NO_ROWS)); q.world.up && RowLost(q, g) && AllLate(q, g)
  {
    NoRowsLoad();
    hide Load, Inv, Unix, Reload.DenyUntil, Revokes;
    var q := Act(p, Recover(Committed, NO_ROWS));
    assert q == AfterRecover(p, Committed, NO_ROWS);
    var d :| Displaces(p, d, g);
    var r := p.(world := q.world, auth := q.auth, requests := map[], reload := Idle);
    assert DisplacedBy(r, d, g.serviceId, g.key.channelId, g.since);
    assert GrantSecure(r, g);
    forall d | Displaces(q, d, g) ensures Late(q, d, g) {
      assert Displaces(p, d, g);
    }
  }

  /** Once its row is lost, a grant is covered iff the deny window of some revocation that displaces it reaches its expiry. */
  lemma CoveredIff(actions: seq<Action>, g: Grant)
    requires RowLost(Play(actions), g)
    ensures var p := Play(actions); (exists d :: Covers(p, d, g)) <==> !AllLate(p, g)
  {
    var p := Play(actions);
    PlayKeepsInv(actions);
    hide Play, Unix, Reload.DenyUntil, Reload.Admits, Inv, Revokes, AnsweredByRelay, Outstanding;
    forall d | Displaces(p, d, g) ensures Covers(p, d, g) <==> !Late(p, d, g) {
      AcceptedFate(p.world, d);
    }
  }

  /** Every continuation keeps a grant whose row is lost covered, unless every revocation that displaces it is late:
      then, and only then, some continuation leaves it alive with no revocation standing against it. */
  lemma CoverageFailsIff(actions: seq<Action>, g: Grant)
    requires RowLost(Play(actions), g)
    ensures (exists more :: Uncovered(Play(actions + more), g)) <==> AllLate(Play(actions), g)
  {
    var p := Play(actions);
    hide Play, Uncovered, Act, PipelineInv;
    if AllLate(p, g) {
      if p.world.up {
        var more := LateIsUncoveredWhileUp(actions, g);
        assert Uncovered(Play(actions + more), g);
      } else {
        var recover := Recover(Committed, NO_ROWS);
        PlayKeepsInv(actions);
        GrantIsBackedOrRevoked(actions, g);
        RestartKeepsLate(p, g);
        PlayLast(actions, recover);
        var more := LateIsUncoveredWhileUp(actions + [recover], g);
        assert actions + [recover] + more == actions + ([recover] + more);
        assert Uncovered(Play(actions + ([recover] + more)), g);
      }
    } else {
      var d :| Displaces(p, d, g) && !Late(p, d, g);
      forall more ensures !Uncovered(Play(actions + more), g) {
        InTimeIsNeverUncovered(actions, more, g, d);
      }
    }
  }

  /** The same, before the call: a request that still holds a row the tables have lost is about to get its grant.
      It can end up uncovered iff every revocation against its service and channel has a deny window that ends before
      the grant would. */
  lemma SigningIsSafeIff(actions: seq<Action>, rid: nat, q: GrantRequest, lifetime: nat, grantId: string)
    requires Allowed(Play(actions), IssueGrant(rid, q, lifetime, grantId))
    requires var p := Play(actions); var g := GrantFor(p, rid, q, lifetime, grantId);
      !Reload.Admits(p.auth, g.serviceId, g.key, g.acl)
    ensures var p := Play(actions); var g := GrantFor(p, rid, q, lifetime, grantId);
      (exists more :: Uncovered(Play(actions + [IssueGrant(rid, q, lifetime, grantId)] + more), g)) <==> AllLate(p, g)
  {
    var p := Play(actions);
    var issue := IssueGrant(rid, q, lifetime, grantId);
    var g := GrantFor(p, rid, q, lifetime, grantId);
    PlayKeepsInv(actions);
    PlayLast(actions, issue);
    IssuedRowIsLost(p, rid, q, lifetime, grantId);
    hide Play, Act, Allowed, PipelineInv, AllLate, RowLost;
    CoverageFailsIff(actions + [issue], g);
  }

  lemma IssuedRowIsLost(p: State, rid: nat, q: GrantRequest, lifetime: nat, grantId: string)
    requires PipelineInv(p) && Allowed(p, IssueGrant(rid, q, lifetime, grantId))
    requires var g := GrantFor(p, rid, q, lifetime, grantId); !Reload.Admits(p.auth, g.serviceId, g.key, g.acl)
    ensures var g := GrantFor(p, rid, q, lifetime, grantId); var p' := Act(p, IssueGrant(rid, q, lifetime, grantId));
      RowLost(p', g) && (AllLate(p', g) <==> AllLate(p, g))
  {
    hide Inv, DisplacedInv, ReloadInv, Authorize, Reload.Admits;
    var g := GrantFor(p, rid, q, lifetime, grantId);
    var p' := Act(p, IssueGrant(rid, q, lifetime, grantId));
    assert p' == p.(grants := p.grants + {g}, requests := p.requests - {rid});
    assert forall d :: Displaces(p', d, g) <==> Displaces(p, d, g);
  }
}
