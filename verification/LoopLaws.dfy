/** The session loop over any run: what a message or a wake-up sets off, and how a session with an answering Relay goes on. */
module LoopLaws {
  import opened Commands
  import opened Sorting
  import opened CommandStores
  import opened Outbox
  import opened Worlds
  import opened Guarantees
  import opened ReplyLaws

  /** The loop comes back to its head with this: an event or chunk that the session takes, a wake-up, or a reply that
      settles a command. */
  ghost predicate TurnsLoop(w: World, e: Event) {
    && w.session.Open? && w.session.loop.Waiting?
    && match e
       case OtherMessage => true
       case WakeUp => w.box.token
       case Receive(io) => w.session.replies != [] && FitsPending(w.session.replies[0], w.box.pending) && io.Committed?
       case _ => false
  }

  ghost function WholePass(order: seq<Revocation>, clock: int, ios: string -> Persist, writes: string -> bool): seq<Event> {
    [BeginPass(order, clock)] + PassSteps(order, ios, writes) + [EndPass]
  }

  /** The loop waits; of the queue of w those are left that had been written on this connection or whose deadline is ahead,
      and just they have been written. */
  ghost predicate SentAll(w: World, w': World, clock: int) {
    && w.session.Open? && w'.session.Open? && w'.session.loop.Waiting?
    && (forall id :: id in w'.box.pending ==> id in w'.session.frames)
    && (forall id :: id in w'.box.pending <==>
          id in w.box.pending && (id in w.session.frames || w.box.pending[id].denyUntil > clock))
    && (forall id :: id in w'.session.frames <==>
          id in w.session.frames || (id in w.box.pending && w.box.pending[id].denyUntil > clock))
  }

  lemma LoopTurns(es: seq<Event>, e: Event)
    requires TurnsLoop(Run(START, es), e)
    ensures var s := Run(START, es).session; var w := Run(START, es + [e]);
      w.session.Open? && w.session.loop.Top? && w.session.frames == s.frames && w.session.sent == s.sent
  {
    RunLast(START, es, e);
    if e.Receive? {
      ReplyIsTakenIff(es, e.io);
      KeepsWhatWasSent(Run(START, es), e.io);
    }
    hide Run, FitsPending, AfterReceive;
  }

  lemma KeepsWhatWasSent(w: World, io: Persist)
    requires Enabled(w, Receive(io)) && Step(w, Receive(io)).session.Open?
    ensures var s := Step(w, Receive(io)).session; s.sent == w.session.sent && s.frames == w.session.frames && s.loop.Top?
  {}

  /** In any run, whatever brings the loop to its head, a pass in which nothing fails leaves it waiting with nothing unsent:
      each command of the queue is written on this connection, or had been before, or its deadline has passed and it
      has left the queue. */
  lemma ATurnSendsTheQueue(es: seq<Event>, e: Event, order: seq<Revocation>, clock: int,
                           ios: string -> Persist, writes: string -> bool)
    requires TurnsLoop(Run(START, es), e)
    requires Orders(order, Run(START, es + [e]).box.pending) && clock <= Unix(Run(START, es + [e]).now)
    requires forall id :: id in Run(START, es + [e]).box.pending ==> ios(id).Committed? && writes(id)
    ensures SentAll(Run(START, es + [e]), Run(START, es + [e] + WholePass(order, clock, ios, writes)), clock)
  {
    LoopTurns(es, e);
    var w := Run(START, es + [e]);
    RunKeepsInv(es + [e]);
    RunKeepsInv(es + [e] + WholePass(order, clock, ios, writes));
    RunInTwo(START, es + [e], WholePass(order, clock, ios, writes));
    hide Run, TurnsLoop;
    PassSendsAll(w, order, clock, ios, writes);
    hide Orders;
  }

  lemma PassSendsAll(w: World, order: seq<Revocation>, clock: int, ios: string -> Persist, writes: string -> bool)
    requires Inv(w) && Inv(Run(w, WholePass(order, clock, ios, writes))) && w.session.Open? && w.session.loop.Top?
    requires Orders(order, w.box.pending) && clock <= Unix(w.now)
    requires forall id :: id in w.box.pending ==> ios(id).Committed? && writes(id)
    ensures SentAll(w, Run(w, WholePass(order, clock, ios, writes)), clock)
  {
    hide Run, WholePass, Pass, Orders, PassResult, Inv, SentAll;
    var w', r := Run(w, WholePass(order, clock, ios, writes)), Pass(w.box, w.session.sent, order, clock, ios, writes);
    PendingIsValid(w);
    WholePassRuns(w, order, clock, ios, writes);
    FramesAreSent(w);
    FramesAreSent(w');
    SentAllOf(w, w', r, clock);
  }

  lemma PendingIsValid(w: World)
    requires Inv(w)
    ensures ValidPending(w.box.pending)
  {
    hide ValidPending, DurableInv, HeardInv, WakeInv, SentInv, AgreementInv;
  }

  lemma SentAllOf(w: World, w': World, r: PassState, clock: int)
    requires w.session.Open? && w'.session.Open? && w'.session.loop.Waiting? && w'.session.sent == r.sent && w'.box == r.box
    requires PassResult(w.box.pending, r.box.pending, w.session.sent, r.sent, r.frames, clock) && r.box.pending.Keys <= r.sent
    requires forall id :: id in w.session.frames <==> id in w.session.sent
    requires forall id :: id in w'.session.frames <==> id in w'.session.sent
    ensures SentAll(w, w', clock)
  {
    hide PassResult;
    ResultMeans(w.box.pending, r.box.pending, w.session.sent, r.sent, r.frames, clock);
  }

  lemma WholePassRuns(w: World, order: seq<Revocation>, clock: int, ios: string -> Persist, writes: string -> bool)
    requires ValidPending(w.box.pending) && w.session.Open? && w.session.loop.Top?
    requires Orders(order, w.box.pending) && clock <= Unix(w.now)
    requires forall id :: id in w.box.pending ==> ios(id).Committed? && writes(id)
    ensures var w' := Run(w, WholePass(order, clock, ios, writes)); var r := Pass(w.box, w.session.sent, order, clock, ios, writes);
      && w'.session.Open? && w'.session.loop.Waiting? && w'.session.sent == r.sent && w'.box == r.box
      && PassResult(w.box.pending, r.box.pending, w.session.sent, r.sent, r.frames, clock) && r.box.pending.Keys <= r.sent
  {
    hide Run, Pass, Orders, PassResult, PassSteps, LapseResults;
    PassRuns(w, order, clock, ios, writes);
    PassMeaning(w.box, w.session.sent, order, clock, ios, writes);
    assert forall id :: id in w.box.pending ==> w.box.pending[id].messageId == id;
  }

  lemma FramesAreSent(w: World)
    requires Inv(w) && w.session.Open?
    ensures forall id :: id in w.session.frames <==> id in w.session.sent
  {
    hide QueueInv, DurableInv, HeardInv, WakeInv, AgreementInv;
  }

  lemma ResultMeans(before: Pending, after: Pending, sent: set<string>, sent': set<string>, frames: seq<Revocation>, clock: int)
    requires PassResult(before, after, sent, sent', frames, clock) && after.Keys <= sent'
    ensures forall id :: id in after <==> id in before && (id in sent || before[id].denyUntil > clock)
    ensures forall id :: id in sent' <==> id in sent || (id in before && before[id].denyUntil > clock)
  {
    hide Ids, DistinctKeys;
    forall id ensures id in Ids(frames) ==> id in before && before[id].denyUntil > clock { FramedIsLive(frames, id, before, clock); }
  }

  lemma FramedIsLive(frames: seq<Revocation>, id: string, p: Pending, clock: int)
    requires forall f :: f in frames ==> f.messageId in p && p[f.messageId] == f && f.denyUntil > clock
    ensures id in Ids(frames) ==> id in p && p[id].denyUntil > clock
  {
    InIds(frames, id);
    assert forall i :: 0 <= i < |frames| ==> frames[i] in frames;
  }

  /** The wake-up is set after a step exactly when the step enqueued a batch, or it was set before and the step was neither
      the wake-up, nor a crash, nor a restart: it is never lost, and used once. */
  lemma WakeUpIsSetIff(w: World, e: Event)
    requires Enabled(w, e)
    ensures Step(w, e).box.token <==>
      || (e.Enqueued? && e.batch != [] && Enqueue(w.box, e.batch, e.io).1.None?)
      || (w.box.token && !e.WakeUp? && !e.Crash? && !e.Restart?)
  {
    if e.Receive? { RepliesKeepToken(w.box, w.session.replies[0], w.session.snapshotRequest, e.io); }
    if e.PassStep? { SendingKeepsToken(w.box, w.session.sent, w.session.loop.todo[0], w.session.loop.clock, e.io, e.writeOk); }
    hide HandleReply, SendNext, Live, Ids, AddAll, BatchFault;
  }

  lemma RepliesKeepToken(b: Box, r: Reply, request: string, io: Persist)
    ensures HandleReply(b, r, request, io).0.token == b.token
  {
    hide ValidReply;
  }

  lemma SendingKeepsToken(b: Box, sent: set<string>, c: Revocation, clock: int, io: Persist, writeOk: bool)
    ensures SendNext(b, sent, c, clock, io, writeOk).0.token == b.token
  {}

  /** The history says a reply was unexpected exactly when one was well formed, did not refuse the snapshot, and fitted
      nothing pending. */
  lemma UnexpectedIff(es: seq<Event>, io: Persist)
    requires var s := Run(START, es).session; s.Open? && s.loop.Waiting? && s.replies != []
    ensures var w := Run(START, es); var r := w.session.replies[0];
      Run(START, es + [Receive(io)]).hist.unexpected <==>
        || w.hist.unexpected
        || (WellFormedReply(r) && !(r.Refusal? && r.inReplyTo == w.session.snapshotRequest) && !FitsPending(r, w.box.pending))
  {
    var w := Run(START, es);
    RunKeepsInv(es);
    RunLast(START, es, Receive(io));
    RequestIsNotPending(w);
    PendingIsValid(w);
    hide Run, Inv, ValidPending;
    WhyItEnds(w.box, w.session.replies[0], w.session.snapshotRequest, io);
    hide HandleReply, WellFormedReply, FitsPending;
  }

  lemma RequestIsNotPending(w: World)
    requires Inv(w) && w.session.Open?
    ensures w.session.snapshotRequest !in w.box.pending
  {
    hide ValidPending, DurableInv, HeardInv, WakeInv, AgreementInv, SlotsInv;
  }

  // With a Relay that answers each frame once.

  ghost predicate NothingInjected(es: seq<Event>) {
    forall e :: e in es ==> !e.RelayInjects?
  }

  lemma {:induction false} StaysHonest(es: seq<Event>)
    requires NothingInjected(es)
    ensures Run(START, es).hist.honest
  {
    if es != [] {
      StaysHonest(es[..|es| - 1]);
      StepStaysHonest(Run(START, es[..|es| - 1]), es[|es| - 1]);
      hide Step;
    }
  }

  lemma StepStaysHonest(w: World, e: Event)
    requires w.hist.honest && !e.RelayInjects?
    ensures Step(w, e).hist.honest
  {
    hide Enqueue, SendNext, HandleReply;
  }

  /** If the Relay only answers frames, each once and with its own deadline, every reply read in any run settles a command:
      the session goes on unless the file cannot be written. */
  lemma HonestReplyIsTaken(es: seq<Event>, io: Persist)
    requires NothingInjected(es)
    requires var s := Run(START, es).session; s.Open? && s.loop.Waiting? && s.replies != []
    ensures FitsPending(Run(START, es).session.replies[0], Run(START, es).box.pending)
    ensures Run(START, es + [Receive(io)]).session.Open? <==> io.Committed?
  {
    StaysHonest(es);
    RunKeepsInv(es);
    ReplyIsTakenIff(es, io);
    hide Run;
    HonestFits(Run(START, es));
  }

  lemma HonestFits(w: World)
    requires Inv(w) && w.hist.honest && w.session.Open? && w.session.replies != []
    ensures FitsPending(w.session.replies[0], w.box.pending)
  {
    hide DurableInv, HeardInv, WakeInv, SlotsInv, ValidReply, FitsPending, ValidRevocation;
    var r := w.session.replies[0];
    assert r in w.session.replies;
    PendingIdIsNotEmpty(w, r.inReplyTo);
    assert r.inReplyTo in w.hist.created;
    FitsMeansSettles(w, r, w.session.snapshotRequest);
  }
}
