/** The same reload with the Relay connected: what an answer to the only revocation is worth. */
module AnsweredRun {
  import opened Commands
  import opened CommandStores
  import opened Outbox
  import opened Worlds
  import opened Grants
  import opened Pipeline
  import opened Coverage
  import opened LateGrants
  import opened LateRun
  import Reload = AclReload

  const REQUEST := "s"

  /** The revocation is sent on a new connection, answered by r, and the answer is taken. */
  function Delivery(r: Reply): seq<Event> {
    [Connect(REQUEST), BeginPass([Revocation1()], 0), PassStep(Committed, true), EndPass, RelayAnswers(r), Receive(Committed)]
  }

  function Unsent(loop: Loop): World {
    QueuedWorld().(session := Open(loop, REQUEST, {}, [], [], []))
  }

  function Sent(loop: Loop, toRelay: seq<Revocation>, replies: seq<Reply>): World {
    QueuedWorld().(session := Open(loop, REQUEST, {MessageId(0)}, [MessageId(0)], toRelay, replies))
  }

  function Delivered(r: Reply): World {
    World(0, true, Box(map[], true, map[MessageId(0) := ResultOf(r)], map[]),
          Open(Top, REQUEST, {MessageId(0)}, [MessageId(0)], [], []),
          History(QueuedMap(), {MessageId(0)}, {MessageId(0)}, {}, {r}, true, false))
  }

  lemma Connects()
    ensures Step(QueuedWorld(), Connect(REQUEST)) == Unsent(Top)
  {
    assert |MessageId(0)| == 22 && |REQUEST| == 1;
  }

  lemma Begins1()
    ensures Step(Unsent(Top), BeginPass([Revocation1()], 0)) == Unsent(Sending([Revocation1()], 0))
  {}

  lemma Sends()
    ensures Step(Unsent(Sending([Revocation1()], 0)), PassStep(Committed, true)) == Sent(Sending([], 0), [Revocation1()], [])
    ensures Step(Sent(Sending([], 0), [Revocation1()], []), EndPass) == Sent(Waiting, [Revocation1()], [])
  {
    assert [Revocation1()][1..] == [];
    WriteStep(Unsent(Sending([Revocation1()], 0)), Committed, true);
    EndPassStep(Sent(Sending([], 0), [Revocation1()], []));
  }

  ghost predicate Answer(r: Reply) { ValidReply(r) && Answers(r, Revocation1()) }

  lemma Replies(r: Reply)
    requires Answer(r)
    ensures Step(Sent(Waiting, [Revocation1()], []), RelayAnswers(r)) == Sent(Waiting, [], [r])
  {
    hide ValidReply;
    assert [Revocation1()][1..] == [] && [] + [r] == [r];
  }

  lemma Takes(r: Reply)
    requires Answer(r)
    ensures Step(Sent(Waiting, [], [r]), Receive(Committed)) == Delivered(r)
  {
    var w := Sent(Waiting, [], [r]);
    assert |MessageId(0)| == 22 && |REQUEST| == 1;
    assert Settles(w, r, REQUEST);
    ReplyOutcome(w, r, REQUEST, Committed);
    assert QueuedMap() - {MessageId(0)} == map[];
    assert [r][1..] == [];
    hide HandleReply, ValidReply, Settles;
  }

  lemma Delivers(r: Reply)
    requires Answer(r)
    ensures Run(QueuedWorld(), Delivery(r)) == Delivered(r)
  {
    var w, es := QueuedWorld(), Delivery(r);
    assert es[..0] == [] && es == es[..6];
    assert es[..1] == es[..0] + [es[0]] && es[..2] == es[..1] + [es[1]] && es[..3] == es[..2] + [es[2]]
      && es[..4] == es[..3] + [es[3]] && es[..5] == es[..4] + [es[4]] && es[..6] == es[..5] + [es[5]];
    assert Run(w, []) == w;
    hide Run, Step, QueuedWorld, Unsent, Sent, Delivered, Answer;
    RunLast(w, es[..0], es[0]); RunLast(w, es[..1], es[1]); RunLast(w, es[..2], es[2]);
    RunLast(w, es[..3], es[3]); RunLast(w, es[..4], es[4]); RunLast(w, es[..5], es[5]);
    Connects(); Begins1(); Sends(); Replies(r); Takes(r);
  }

  /** From start-up to the moment the answer has been taken. */
  function AnsweredActions(r: Reply): seq<Action> { ReloadActions() + Outsides(Delivery(r)) }

  function Answered(r: Reply): State { Swapped().(world := Delivered(r)) }

  lemma AnsweredReaches(r: Reply)
    requires Answer(r)
    ensures Play(AnsweredActions(r)) == Answered(r)
  {
    ReloadReaches();
    Delivers(r);
    hide Play, Run, ReloadActions, Delivered, Answer;
    OutsidesRun(ReloadActions(), Delivery(r));
  }

  // An acknowledged revocation: covered for as long as its deny window lasts.

  const OVER: nat := 5400 * SECOND

  function Issued(r: Reply, at: nat): State {
    var p := Answered(r).(world := Delivered(r).(now := at));
    p.(grants := {TheGrant(at)}, requests := map[])
  }

  function TheGrant(at: nat): Grant {
    Grant("grant", SERVICE_ID, KEY, ROW, 0, at, Unix(at) + 3600)
  }

  lemma Issues(r: Reply, at: nat)
    ensures var p := Answered(r).(world := Delivered(r).(now := at));
      && Allowed(p, Issue()) && Act(p, Issue()) == Issued(r, at)
      && GrantFor(p, 0, Asked(), MAXIMUM_LIFETIME, "grant") == TheGrant(at)
  {
    assert ValidPublicKey(Asked().servicePublicKey);
  }

  lemma ItIsAnswered(r: Reply, w: World)
    requires Answer(r) && w.hist == Delivered(r).hist
    ensures AnsweredByRelay(w, MessageId(0))
  {
    hide ValidReply;
    assert r in w.hist.heard;
  }

  /** Signed 1801 seconds after the sample, the grant outlives an acknowledged revocation too: when the deny window is over
      it is alive, its row gone, and nothing is left in the queue or the file. */
  lemma AcknowledgedGrantEndsUncovered(r: Reply)
    requires Answer(r) && r.Ack?
    ensures var run := AnsweredActions(r) + [Outside(Tick(SIGNED_AT))]; var q := Play(run + [Issue(), Outside(Tick(OVER))]);
      && Allowed(Play(run), Issue())
      && var g := GrantFor(Play(run), 0, Asked(), MAXIMUM_LIFETIME, "grant");
      && Uncovered(q, g) && AnsweredByRelay(q.world, MessageId(0)) && q.world.box.pending == map[] == q.world.box.disk
  {
    var run := AnsweredActions(r) + [Outside(Tick(SIGNED_AT))];
    AnsweredReaches(r);
    PlayLast(AnsweredActions(r), Outside(Tick(SIGNED_AT)));
    assert run + [Issue(), Outside(Tick(OVER))] == run + [Issue()] + [Outside(Tick(OVER))];
    PlayLast(run, Issue());
    PlayLast(run + [Issue()], Outside(Tick(OVER)));
    Ticks(r);
    Issues(r, SIGNED_AT);
    hide Play, Act, Answer, AnsweredActions, Allowed;
    OverIsUncovered(r);
  }

  lemma Ticks(r: Reply)
    ensures Act(Answered(r), Outside(Tick(SIGNED_AT))) == Answered(r).(world := Delivered(r).(now := SIGNED_AT))
    ensures Act(Issued(r, SIGNED_AT), Outside(Tick(OVER)))
      == Issued(r, SIGNED_AT).(world := Delivered(r).(now := OVER))
  {}

  lemma OverIsUncovered(r: Reply)
    requires Answer(r)
    ensures var q := Issued(r, SIGNED_AT).(world := Delivered(r).(now := OVER));
      Uncovered(q, TheGrant(SIGNED_AT)) && AnsweredByRelay(q.world, MessageId(0))
  {
    RowGoes();
    ItIsAnswered(r, Delivered(r).(now := OVER));
    hide Answer, AnsweredByRelay, Reload.Admits;
  }

  /** A refusal is an answer: the client completes the command on it and nothing queues it again. A grant signed at once
      then counts as covered, with an empty queue and file and no acknowledgement ever read. */
  lemma RefusedRevocationCounts(r: Reply)
    requires Answer(r) && r.Refusal?
    ensures var run := AnsweredActions(r);
      && Allowed(Play(run), Issue())
      && var g, q := GrantFor(Play(run), 0, Asked(), MAXIMUM_LIFETIME, "grant"), Play(run + [Issue()]);
      && RowLost(q, g) && Covers(q, MessageId(0), g)
      && q.world.box.pending == map[] == q.world.box.disk && forall h :: h in q.world.hist.heard ==> h.Refusal?
  {
    AnsweredReaches(r);
    PlayLast(AnsweredActions(r), Issue());
    assert Answered(r) == Answered(r).(world := Delivered(r).(now := 0));
    Issues(r, 0);
    RowGoes();
    ItIsAnswered(r, Delivered(r));
    hide Play, Act, Answer, AnsweredActions, Allowed, AnsweredByRelay, Reload.Admits;
  }
}
