/** The client, its disk and one Relay as a transition system. Every choice of the environment
    (arrivals, I/O failures, map order, clock reads, the Relay's words, crashes) is part of the event,
    so a run is a list of events; an event that is not enabled leaves the world as it is. */
module Worlds {
  import opened Commands
  import opened CommandStores
  import opened Outbox

  /** Where the session goroutine stands: at the loop head, inside a sending pass, or at the select. */
  datatype Loop = Top | Sending(todo: seq<Revocation>, clock: int) | Waiting

  /** Lifecycle events and snapshot chunks only bring the loop back to its head (`OtherMessage`); what they do to
      the projected state is modelled apart. `frames` lists the message IDs written on
      this connection, `toRelay` what the Relay has not answered,
      `replies` its answers still to be read. */
  datatype Session =
    | Closed
    | Open(loop: Loop, snapshotRequest: string, sent: set<string>, frames: seq<string>,
           toRelay: seq<Revocation>, replies: seq<Reply>)

  /** What has happened so far: commands made, those whose enqueue returned success, those the Relay answered
      while pending, those dropped after their deadline, every reply read. `honest` falls when the Relay
      says something it was not asked, `unexpected` rises when the client meets a reply it cannot place. */
  datatype History = History(
    created: Pending, accepted: set<string>, answered: set<string>, lapsed: set<string>,
    heard: set<Reply>, honest: bool, unexpected: bool)

  datatype World = World(now: nat, up: bool, box: Box, session: Session, hist: History)

  datatype Event =
    | Enqueued(batch: seq<Revocation>, io: Persist)
    | BeginPass(order: seq<Revocation>, clock: int)
    | PassStep(io: Persist, writeOk: bool)
    | EndPass
    | WakeUp
    | Receive(io: Persist)
    | OtherMessage
    | RelayAnswers(reply: Reply)
    | RelayInjects(reply: Reply)
    | Connect(snapshotRequest: string)
    | Disconnect
    | Crash
    | Restart(io: Persist)
    | Tick(later: nat)

  const EMPTY := Box(map[], false, map[], map[])

  const START := World(0, false, EMPTY, Closed, History(map[], {}, {}, {}, {}, true, false))

  /** Message IDs are fresh: 16 random bytes, never used before. */
  ghost predicate Fresh(w: World, batch: seq<Revocation>) {
    && (forall i :: 0 <= i < |batch| ==> batch[i].messageId !in w.hist.created)
    && (forall i, j :: 0 <= i < j < |batch| ==> batch[i].messageId != batch[j].messageId)
    && (w.session.Open? ==> forall i :: 0 <= i < |batch| ==> batch[i].messageId != w.session.snapshotRequest)
  }

  ghost predicate Answers(r: Reply, c: Revocation) {
    r.inReplyTo == c.messageId && (r.Ack? ==> r.denyUntil == c.denyUntil)
  }

  ghost predicate Enabled(w: World, e: Event) {
    match e
    case Enqueued(batch, _) => w.up && Fresh(w, batch)
    case BeginPass(order, clock) =>
      w.session.Open? && w.session.loop.Top? && Orders(order, w.box.pending) && clock <= Unix(w.now)
    case PassStep(_, _) => w.session.Open? && w.session.loop.Sending? && w.session.loop.todo != []
    case EndPass => w.session.Open? && w.session.loop.Sending? && w.session.loop.todo == []
    case WakeUp => w.session.Open? && w.session.loop.Waiting? && w.box.token
    case Receive(_) => w.session.Open? && w.session.loop.Waiting? && w.session.replies != []
    case OtherMessage => w.session.Open? && w.session.loop.Waiting?
    case RelayAnswers(reply) =>
      w.session.Open? && w.session.toRelay != [] && ValidReply(reply) && Answers(reply, w.session.toRelay[0])
    case RelayInjects(_) => w.session.Open?
    case Connect(request) => w.up && w.session.Closed? && request !in w.hist.created
    case Disconnect => w.session.Open?
    case Crash => w.up
    case Restart(_) => !w.up
    case Tick(later) => w.now <= later
  }

  ghost function AfterEnqueue(w: World, batch: seq<Revocation>, io: Persist): World {
    var (box, error) := Enqueue(w.box, batch, io);
    w.(box := box, hist := w.hist.(
      created := AddAll(w.hist.created, batch),
      accepted := if error.None? then w.hist.accepted + Ids(batch) else w.hist.accepted))
  }

  ghost function AfterPassStep(w: World, io: Persist, writeOk: bool): World
    requires Enabled(w, PassStep(io, writeOk))
  {
    var s := w.session;
    var c := s.loop.todo[0];
    var (box, outcome) := SendNext(w.box, s.sent, c, s.loop.clock, io, writeOk);
    var rest := s.(loop := Sending(s.loop.todo[1..], s.loop.clock));
    w.(box := box,
       session := match outcome
         case PassFailed => Closed
         case Written =>
           rest.(sent := AfterSend(s.sent, c, outcome), frames := s.frames + [c.messageId], toRelay := s.toRelay + [c])
         case _ => rest,
       hist := if c.messageId !in s.sent && c.denyUntil <= s.loop.clock
         then w.hist.(lapsed := w.hist.lapsed + {c.messageId}) else w.hist)
  }

  ghost function AfterReceive(w: World, io: Persist): World
    requires Enabled(w, Receive(io))
  {
    var s := w.session;
    var r := s.replies[0];
    var (box, handled) := HandleReply(w.box, r, s.snapshotRequest, io);
    w.(box := box,
       session := if handled.Continue? then s.(loop := Top, replies := s.replies[1..]) else Closed,
       hist := w.hist.(
         heard := w.hist.heard + {r},
         answered := if handled.Continue? || handled.StoreFailed? then w.hist.answered + {r.inReplyTo} else w.hist.answered,
         unexpected := w.hist.unexpected || handled.Unexpected?))
  }

  ghost function AfterRestart(w: World, io: Persist): World {
    var live := Live(w.box.disk, Unix(w.now));
    var disk := if live == w.box.disk then live else Replace(w.box.disk, live, io);
    var ready := live == w.box.disk || io.Committed?;
    w.(up := ready,
       box := Box(if ready then live else map[], false, map[], disk),
       hist := w.hist.(lapsed := w.hist.lapsed + (w.box.disk.Keys - live.Keys)))
  }

  ghost function Step(w: World, e: Event): World {
    if !Enabled(w, e) then w
    else match e
      case Enqueued(batch, io) => AfterEnqueue(w, batch, io)
      case BeginPass(order, clock) => w.(session := w.session.(loop := Sending(order, clock)))
      case PassStep(io, writeOk) => AfterPassStep(w, io, writeOk)
      case EndPass => w.(session := w.session.(loop := Waiting))
      case WakeUp => w.(box := w.box.(token := false), session := w.session.(loop := Top))
      case Receive(io) => AfterReceive(w, io)
      case OtherMessage => w.(session := w.session.(loop := Top))
      case RelayAnswers(reply) =>
        w.(session := w.session.(toRelay := w.session.toRelay[1..], replies := w.session.replies + [reply]))
      case RelayInjects(reply) =>
        w.(session := w.session.(replies := w.session.replies + [reply]), hist := w.hist.(honest := false))
      case Connect(request) => w.(session := Open(Top, request, {}, [], [], []))
      case Disconnect => w.(session := Closed)
      case Crash => w.(up := false, session := Closed, box := EMPTY.(disk := w.box.disk))
      case Restart(io) => AfterRestart(w, io)
      case Tick(later) => w.(now := later)
  }

  ghost function Run(w: World, es: seq<Event>): World {
    if es == [] then w else Step(Run(w, es[..|es| - 1]), es[|es| - 1])
  }

  // Invariants.

  ghost predicate Within(p: Pending, q: Pending) {
    forall id :: id in p ==> id in q && q[id] == p[id]
  }

  /** Both images of the queue are valid and made of known commands. */
  ghost predicate ImagesInv(w: World) {
    && ValidPending(w.box.pending) && ValidPending(w.box.disk)
    && Within(w.box.pending, w.hist.created) && Within(w.box.disk, w.hist.created)
  }

  /** A pending command's result slot is empty; an acknowledgement in a slot was read from
      the Relay and carries the command's own ID and deadline. */
  ghost predicate SlotsInv(w: World) {
    && w.box.results.Keys !! w.box.pending.Keys
    && (forall id :: id in w.box.results ==> id in w.hist.created)
    && (forall id :: id in w.box.results && w.box.results[id].Acked? ==>
          var a := w.box.results[id].ack;
          a.Ack? && a in w.hist.heard && a.inReplyTo == id && a.denyUntil == w.hist.created[id].denyUntil)
  }

  ghost predicate QueueInv(w: World) {
    ImagesInv(w) && SlotsInv(w)
  }

  /** Durability. */
  ghost predicate DurableInv(w: World) {
    forall id :: id in w.hist.accepted ==>
      && id in w.hist.created
      && (id in w.hist.answered || id in w.hist.lapsed || (id in w.box.disk && (w.up ==> id in w.box.pending)))
  }

  /** A valid reply that names the command, with its own deadline if it is an acknowledgement, has been read. */
  ghost predicate HeardAnswer(h: History, c: Revocation) {
    exists r :: r in h.heard && ValidReply(r) && Answers(r, c)
  }

  ghost predicate HeardInv(w: World) {
    && (forall id :: id in w.hist.created ==> w.hist.created[id].messageId == id)
    && (forall id :: id in w.hist.lapsed ==> id in w.hist.created && w.hist.created[id].denyUntil <= Unix(w.now))
    && (forall id :: id in w.hist.answered ==>
          id in w.hist.created && HeardAnswer(w.hist, w.hist.created[id]))
  }

  /** No wake-up is lost: what is pending and unsent is still to come in this pass, or the token is set. */
  ghost predicate WakeInv(w: World) {
    w.session.Open? ==>
      match w.session.loop
      case Top => true
      case Sending(todo, clock) =>
        && clock <= Unix(w.now)
        && (forall c :: c in todo ==> c.messageId in w.box.pending && w.box.pending[c.messageId] == c)
        && (forall i, j :: 0 <= i < j < |todo| ==> todo[i].messageId != todo[j].messageId)
        && (forall id :: id in w.box.pending ==> id in w.session.sent || w.box.pending[id] in todo || w.box.token)
      case Waiting =>
        forall id :: id in w.box.pending ==> id in w.session.sent || w.box.token
  }

  /** Each message ID is written at most once per connection, and a written command leaves the queue only by an answer. */
  ghost predicate SentInv(w: World) {
    && (w.session.Open? ==>
          && w.up && w.session.snapshotRequest !in w.hist.created
          && (forall i, j :: 0 <= i < j < |w.session.frames| ==> w.session.frames[i] != w.session.frames[j])
          && (forall id :: id in w.session.frames <==> id in w.session.sent)
          && (forall id :: id in w.session.sent ==> id in w.box.pending || id in w.hist.answered))
    && (!w.up ==> w.box.pending == map[])
  }

  /** With a Relay that only answers, what it has received and what it has answered are distinct pending commands. */
  ghost predicate AgreementInv(w: World) {
    w.hist.honest ==>
      && !w.hist.unexpected
      && (w.session.Open? ==>
            && (forall c :: c in w.session.toRelay ==>
                  c.messageId in w.session.sent && c.messageId in w.box.pending && w.box.pending[c.messageId] == c)
            && (forall r :: r in w.session.replies ==>
                  && ValidReply(r) && r.inReplyTo in w.session.sent
                  && r.inReplyTo in w.box.pending && Answers(r, w.box.pending[r.inReplyTo]))
            && (forall i, j :: 0 <= i < j < |w.session.toRelay| ==>
                  w.session.toRelay[i].messageId != w.session.toRelay[j].messageId)
            && (forall i, j :: 0 <= i < j < |w.session.replies| ==>
                  w.session.replies[i].inReplyTo != w.session.replies[j].inReplyTo)
            && (forall c, r :: c in w.session.toRelay && r in w.session.replies ==> c.messageId != r.inReplyTo))
  }

  ghost predicate Inv(w: World) {
    QueueInv(w) && DurableInv(w) && HeardInv(w) && WakeInv(w) && SentInv(w) && AgreementInv(w)
  }

  // Preservation, event by event.

  ghost predicate EnqueueEffect(w: World, w': World, ids: set<string>) {
    && w'.now == w.now && w'.up == w.up && w'.session == w.session
    && w'.hist == w.hist.(created := w'.hist.created, accepted := w'.hist.accepted)
    && Within(w.hist.created, w'.hist.created) && w'.hist.created.Keys == w.hist.created.Keys + ids
    && ids !! w.hist.created.Keys && (forall id :: id in ids ==> w'.hist.created[id].messageId == id)
    && (w.session.Open? ==> w.session.snapshotRequest !in ids)
    && ValidPending(w'.box.pending) && ValidPending(w'.box.disk)
    && Within(w.box.pending, w'.box.pending) && w'.box.pending.Keys <= w.box.pending.Keys + ids
    && Within(w'.box.pending, w'.hist.created) && Within(w'.box.disk, w'.hist.created)
    && (w'.box.disk == w.box.disk || Within(w.box.pending, w'.box.disk))
    && w'.box.results == w.box.results
    && (w'.box.pending == w.box.pending || w'.box.token) && (w.box.token ==> w'.box.token)
    && (w'.hist.accepted == w.hist.accepted
        || (w'.hist.accepted == w.hist.accepted + ids && ids <= w'.box.disk.Keys && ids <= w'.box.pending.Keys))
  }

  /** Adding a fresh batch to the queue and to the known commands. */
  ghost predicate Added(p: Pending, q: Pending, p': Pending, q': Pending, ids: set<string>) {
    && Within(p, p') && Within(q, q') && Within(p', q')
    && p'.Keys == p.Keys + ids && q'.Keys == q.Keys + ids && ids !! q.Keys
    && (forall id :: id in ids ==> q'[id].messageId == id)
  }

  lemma FreshBatchAdds(w: World, batch: seq<Revocation>)
    requires QueueInv(w) && Fresh(w, batch)
    ensures Added(w.box.pending, w.hist.created, AddAll(w.box.pending, batch), AddAll(w.hist.created, batch), Ids(batch))
    ensures w.session.Open? ==> w.session.snapshotRequest !in Ids(batch)
  {
    hide ValidPending;
    CreatedGrows(w.hist.created, batch);
    assert w.box.pending.Keys !! Ids(batch);
    AddAllExtends(w.box.pending, batch);
    AddAllKeys(w.box.pending, batch);
    AddAllWithin(w.box.pending, w.hist.created, batch);
  }

  lemma EffectOf(w: World, box': Box, created': Pending, accepted': set<string>, candidate: Pending, ids: set<string>)
    requires QueueInv(w) && Added(w.box.pending, w.hist.created, candidate, created', ids)
    requires w.session.Open? ==> w.session.snapshotRequest !in ids
    requires box'.results == w.box.results
    requires
      || (box'.pending == candidate == box'.disk && box'.token && ValidPending(candidate) && accepted' == w.hist.accepted + ids)
      || (box'.pending == w.box.pending && box'.token == w.box.token && accepted' == w.hist.accepted
          && (box'.disk == w.box.disk || (box'.disk == candidate && ValidPending(candidate))))
    ensures EnqueueEffect(w, w.(box := box', hist := w.hist.(created := created', accepted := accepted')), ids)
  {
    hide ValidPending;
  }

  lemma EnqueueFacts(w: World, batch: seq<Revocation>, io: Persist)
    requires QueueInv(w) && Fresh(w, batch)
    ensures EnqueueEffect(w, AfterEnqueue(w, batch, io), Ids(batch))
  {
    var (b, error) := Enqueue(w.box, batch, io);
    var created', candidate, ids := AddAll(w.hist.created, batch), AddAll(w.box.pending, batch), Ids(batch);
    var accepted' := if error.None? then w.hist.accepted + ids else w.hist.accepted;
    assert AfterEnqueue(w, batch, io) == w.(box := b, hist := w.hist.(created := created', accepted := accepted'));
    FreshBatchAdds(w, batch);
    SlotsAreNew(w, batch);
    EnqueueCases(w, batch, io);
    hide AfterEnqueue, EnqueueEffect, QueueInv, Added, Enqueue, AddAll, Ids, Fresh, ValidPending;
    EffectOf(w, b, created', accepted', candidate, ids);
  }

  lemma EnqueueCases(w: World, batch: seq<Revocation>, io: Persist)
    requires QueueInv(w) && w.box.results - Ids(batch) == w.box.results
    ensures var (b, error) := Enqueue(w.box, batch, io); var candidate, ids := AddAll(w.box.pending, batch), Ids(batch);
      var accepted := if error.None? then w.hist.accepted + ids else w.hist.accepted;
      && b.results == w.box.results
      && ((b.pending == candidate == b.disk && b.token && ValidPending(candidate) && accepted == w.hist.accepted + ids)
          || (b.pending == w.box.pending && b.token == w.box.token && accepted == w.hist.accepted
              && (b.disk == w.box.disk || (b.disk == candidate && ValidPending(candidate)))))
  {
    if batch == [] {
      assert Ids(batch) == {};
      hide ValidPending, AddAll;
    } else {
      EnqueueIsAllOrNothing(w.box, batch, io);
      hide Enqueue, ValidPending, AddAll, Ids;
    }
  }

  lemma SlotsAreNew(w: World, batch: seq<Revocation>)
    requires QueueInv(w) && Fresh(w, batch)
    ensures w.box.results - Ids(batch) == w.box.results
  {
    CreatedGrows(w.hist.created, batch);
  }

  lemma EnqueueKeeps(w: World, batch: seq<Revocation>, io: Persist)
    requires Inv(w) && w.up && Fresh(w, batch)
    ensures Inv(AfterEnqueue(w, batch, io))
  {
    EnqueueFacts(w, batch, io);
    var w' := AfterEnqueue(w, batch, io);
    EnqueueKeepsQueue(w, w', Ids(batch));
    EnqueueKeepsHistory(w, w', Ids(batch));
    EnqueueKeepsSession(w, w', Ids(batch));
  }

  lemma EnqueueKeepsQueue(w: World, w': World, ids: set<string>)
    requires QueueInv(w) && EnqueueEffect(w, w', ids)
    ensures QueueInv(w')
  {
    hide ValidPending;
  }

  lemma EnqueueKeepsHistory(w: World, w': World, ids: set<string>)
    requires w.up && DurableInv(w) && HeardInv(w) && EnqueueEffect(w, w', ids)
    ensures DurableInv(w') && HeardInv(w')
  {
    hide ValidPending;
  }

  lemma EnqueueKeepsSession(w: World, w': World, ids: set<string>)
    requires WakeInv(w) && SentInv(w) && AgreementInv(w) && EnqueueEffect(w, w', ids)
    requires w.up
    ensures WakeInv(w') && SentInv(w') && AgreementInv(w')
  {
    hide ValidPending, ValidReply;
  }

  lemma CreatedGrows(created: Pending, batch: seq<Revocation>)
    requires forall i :: 0 <= i < |batch| ==> batch[i].messageId !in created
    requires forall i, j :: 0 <= i < j < |batch| ==> batch[i].messageId != batch[j].messageId
    ensures Within(created, AddAll(created, batch))
    ensures AddAll(created, batch).Keys == created.Keys + Ids(batch)
    ensures forall id :: id in Ids(batch) ==> id !in created && AddAll(created, batch)[id].messageId == id
    ensures forall id :: id in Ids(batch) ==> exists i :: 0 <= i < |batch| && batch[i].messageId == id
  {
    if batch != [] {
      var init, c := batch[..|batch| - 1], batch[|batch| - 1];
      CreatedGrows(created, init);
      forall id | id in Ids(batch) ensures exists i :: 0 <= i < |batch| && batch[i].messageId == id {
        InIds(batch, id);
      }
    }
  }

  lemma AddAllWithin(p: Pending, q: Pending, batch: seq<Revocation>)
    requires Within(p, q)
    ensures Within(AddAll(p, batch), AddAll(q, batch))
  {
    if batch != [] {
      AddAllWithin(p, q, batch[..|batch| - 1]);
    }
  }

  // Completion, common to answers and lapses.

  /** One command may leave the queue; if it stays, the disk may already have lost it. */
  ghost predicate Removes(b: Box, b': Box, id: string, result: CommandResult) {
    && id in b.pending && b'.token == b.token
    && (|| (b'.pending == b.pending && b'.results == b.results)
        || (b'.pending == b.pending - {id} && b'.results == b.results[id := result] && b'.disk == b'.pending))
    && (b'.disk == b.disk || b'.disk == b.pending - {id})
  }

  lemma CompleteRemoves(b: Box, id: string, result: CommandResult, io: Persist)
    requires id in b.pending && id !in b.results
    ensures var (b', c) := Complete(b, id, result, io);
      && Removes(b, b', id, result) && !c.NotPending?
      && (c.Completed? <==> b'.pending == b.pending - {id})
  {
    assert id !in b.pending - {id};
  }

  lemma RemovalKeepsQueue(w: World, w': World, id: string, result: CommandResult)
    requires QueueInv(w) && Removes(w.box, w'.box, id, result) && w'.hist.created == w.hist.created
    requires w.hist.heard <= w'.hist.heard
    requires result.Acked? ==>
      && result.ack.Ack? && result.ack in w'.hist.heard
      && result.ack.inReplyTo == id && result.ack.denyUntil == w.box.pending[id].denyUntil
    ensures QueueInv(w')
  {
    hide ValidPending;
    assert w.box.pending[id] == w.hist.created[id];
    RemovalKeepsSlots(w, w', id, result);
    hide SlotsInv;
    RemoveIsValid(w.box.pending, id);
    assert Within(w.box.pending - {id}, w.hist.created);
    hide Within;
  }

  lemma RemovalKeepsSlots(w: World, w': World, id: string, result: CommandResult)
    requires SlotsInv(w) && Removes(w.box, w'.box, id, result) && w'.hist.created == w.hist.created
    requires id in w.hist.created && w.hist.created[id] == w.box.pending[id]
    requires w.hist.heard <= w'.hist.heard
    requires result.Acked? ==>
      && result.ack.Ack? && result.ack in w'.hist.heard
      && result.ack.inReplyTo == id && result.ack.denyUntil == w.box.pending[id].denyUntil
    ensures SlotsInv(w')
  {
    assert w'.box.pending.Keys <= w.box.pending.Keys;
  }

  lemma RemovalKeepsHistory(w: World, w': World, id: string, result: CommandResult)
    requires w.up && w'.up && DurableInv(w) && Removes(w.box, w'.box, id, result)
    requires w'.hist.created == w.hist.created && w'.hist.accepted == w.hist.accepted
    requires w.hist.answered <= w'.hist.answered && w.hist.lapsed <= w'.hist.lapsed
    requires id in w'.hist.answered || id in w'.hist.lapsed
    ensures DurableInv(w')
  {}

  // The sending pass.

  lemma PassStepKeeps(w: World, io: Persist, writeOk: bool)
    requires Inv(w) && Enabled(w, PassStep(io, writeOk))
    ensures Inv(AfterPassStep(w, io, writeOk))
  {
    var s := w.session;
    var c := s.loop.todo[0];
    if c.messageId in s.sent {
      SkipKeeps(w, io, writeOk);
    } else if c.denyUntil <= s.loop.clock {
      LapseKeeps(w, io, writeOk);
    } else {
      WriteKeeps(w, io, writeOk);
    }
  }

  lemma SkipKeeps(w: World, io: Persist, writeOk: bool)
    requires Inv(w) && Enabled(w, PassStep(io, writeOk)) && w.session.loop.todo[0].messageId in w.session.sent
    ensures Inv(AfterPassStep(w, io, writeOk))
  {
    hide ValidPending, ValidReply;
    var s := w.session;
    var w' := w.(session := s.(loop := Sending(s.loop.todo[1..], s.loop.clock)));
    assert AfterPassStep(w, io, writeOk) == w';
    hide AfterPassStep;
    SkipKeepsWake(w, w');
    hide WakeInv;
    QuietKeeps(w, w');
  }

  lemma SkipKeepsWake(w: World, w': World)
    requires WakeInv(w) && HeardInv(w) && Within(w.box.pending, w.hist.created)
    requires w.session.Open? && w.session.loop.Sending? && w.session.loop.todo != []
    requires w.session.loop.todo[0].messageId in w.session.sent
    requires w' == w.(session := w.session.(loop := Sending(w.session.loop.todo[1..], w.session.loop.clock)))
    ensures WakeInv(w')
  {
    var todo := w.session.loop.todo;
    assert todo == [todo[0]] + todo[1..];
    assert forall d :: d in todo && d != todo[0] ==> d in todo[1..];
  }

  lemma WriteStep(w: World, io: Persist, writeOk: bool)
    requires Enabled(w, PassStep(io, writeOk))
    requires w.session.loop.todo[0].messageId !in w.session.sent && w.session.loop.todo[0].denyUntil > w.session.loop.clock
    ensures var s := w.session; var c := s.loop.todo[0];
      AfterPassStep(w, io, writeOk) == w.(session := if !writeOk then Closed
        else s.(loop := Sending(s.loop.todo[1..], s.loop.clock), sent := s.sent + {c.messageId},
                frames := s.frames + [c.messageId], toRelay := s.toRelay + [c]))
  {}

  lemma WriteKeeps(w: World, io: Persist, writeOk: bool)
    requires Inv(w) && Enabled(w, PassStep(io, writeOk))
    requires w.session.loop.todo[0].messageId !in w.session.sent && w.session.loop.todo[0].denyUntil > w.session.loop.clock
    ensures Inv(AfterPassStep(w, io, writeOk))
  {
    hide Inv, AfterPassStep;
    WriteStep(w, io, writeOk);
    var w' := AfterPassStep(w, io, writeOk);
    if writeOk {
      WrittenKeeps(w, w', w.session.loop.todo[0]);
    } else {
      LinkEventKeeps(w, Disconnect);
      assert w' == Step(w, Disconnect);
    }
  }

  lemma WrittenKeeps(w: World, w': World, c: Revocation)
    requires Inv(w) && w.session.Open? && w.session.loop.Sending? && w.session.loop.todo != [] && c == w.session.loop.todo[0]
    requires c.messageId !in w.session.sent
    requires var s := w.session;
      w' == w.(session := s.(loop := Sending(s.loop.todo[1..], s.loop.clock), sent := s.sent + {c.messageId},
                             frames := s.frames + [c.messageId], toRelay := s.toRelay + [c]))
    ensures Inv(w')
  {
    hide ValidPending, ValidReply;
    assert c in w.session.loop.todo && c.messageId in w.box.pending && w.box.pending[c.messageId] == c;
    WriteKeepsWake(w, w', c);
    hide WakeInv;
    WriteKeepsAgreement(w, w', c);
    WriteKeepsSent(w, w', c);
    hide AgreementInv, SentInv, Within;
  }

  lemma WriteKeepsSent(w: World, w': World, c: Revocation)
    requires SentInv(w) && w.session.Open? && w'.session.Open?
    requires c.messageId !in w.session.sent && c.messageId in w.box.pending
    requires w'.box == w.box && w'.hist == w.hist && w'.up == w.up
    requires w'.session.snapshotRequest == w.session.snapshotRequest
    requires w'.session.sent == w.session.sent + {c.messageId} && w'.session.frames == w.session.frames + [c.messageId]
    ensures SentInv(w')
  {}

  lemma WriteKeepsWake(w: World, w': World, c: Revocation)
    requires WakeInv(w) && HeardInv(w) && Within(w.box.pending, w.hist.created)
    requires w.session.Open? && w.session.loop.Sending? && w.session.loop.todo != [] && c == w.session.loop.todo[0]
    requires w'.box == w.box && w'.now == w.now && w'.session.Open?
    requires w'.session.loop == Sending(w.session.loop.todo[1..], w.session.loop.clock)
    requires w.session.sent + {c.messageId} == w'.session.sent
    ensures WakeInv(w')
  {
    assert w.session.loop.todo == [c] + w.session.loop.todo[1..];
    assert forall d :: d in w.session.loop.todo && d != c ==> d in w.session.loop.todo[1..];
  }

  lemma WriteKeepsAgreement(w: World, w': World, c: Revocation)
    requires AgreementInv(w) && w.session.Open? && w'.session.Open?
    requires c.messageId !in w.session.sent && c.messageId in w.box.pending && w.box.pending[c.messageId] == c
    requires w'.box == w.box && w'.hist == w.hist && w'.session.replies == w.session.replies
    requires w'.session.sent == w.session.sent + {c.messageId} && w'.session.toRelay == w.session.toRelay + [c]
    ensures AgreementInv(w')
  {
    hide ValidReply;
  }

  lemma LapseStep(w: World, io: Persist, writeOk: bool)
    requires Enabled(w, PassStep(io, writeOk))
    requires w.session.loop.todo[0].messageId !in w.session.sent && w.session.loop.todo[0].denyUntil <= w.session.loop.clock
    ensures var s := w.session; var id := s.loop.todo[0].messageId;
      var (box, completion) := Complete(w.box, id, Failed(DeadlineElapsed), io);
      AfterPassStep(w, io, writeOk) ==
        w.(box := box, hist := w.hist.(lapsed := w.hist.lapsed + {id}),
           session := if completion.CompletionNotPersisted? then Closed
             else s.(loop := Sending(s.loop.todo[1..], s.loop.clock)))
  {
    hide Complete;
  }

  lemma LapseKeeps(w: World, io: Persist, writeOk: bool)
    requires Inv(w) && Enabled(w, PassStep(io, writeOk))
    requires w.session.loop.todo[0].messageId !in w.session.sent && w.session.loop.todo[0].denyUntil <= w.session.loop.clock
    ensures Inv(AfterPassStep(w, io, writeOk))
  {
    hide ValidPending, ValidReply;
    var c := w.session.loop.todo[0];
    var id := c.messageId;
    var w' := AfterPassStep(w, io, writeOk);
    assert id in w.box.pending && w.box.pending[id] == c && id !in w.box.results;
    LapseStep(w, io, writeOk);
    CompleteRemoves(w.box, id, Failed(DeadlineElapsed), io);
    hide Complete, AfterPassStep, Enabled;
    RemovalKeepsQueue(w, w', id, Failed(DeadlineElapsed));
    RemovalKeepsHistory(w, w', id, Failed(DeadlineElapsed));
    LapseKeepsHeard(w, w', c);
    hide HeardInv, Removes, Within;
    if w'.session.Open? {
      LapseKeepsSession(w, w', c);
    }
  }

  lemma LapseKeepsHeard(w: World, w': World, c: Revocation)
    requires WakeInv(w) && HeardInv(w) && Within(w.box.pending, w.hist.created)
    requires w.session.Open? && w.session.loop.Sending? && w.session.loop.todo != [] && c == w.session.loop.todo[0]
    requires c.denyUntil <= w.session.loop.clock
    requires w'.now == w.now && w'.hist == w.hist.(lapsed := w.hist.lapsed + {c.messageId})
    ensures HeardInv(w')
  {
    hide ValidReply, Unix;
  }

  lemma LapseKeepsSession(w: World, w': World, c: Revocation)
    requires WakeInv(w) && SentInv(w) && AgreementInv(w) && HeardInv(w) && Within(w.box.pending, w.hist.created)
    requires w.session.Open? && w.session.loop.Sending? && w.session.loop.todo != [] && c == w.session.loop.todo[0]
    requires c.messageId !in w.session.sent
    requires w'.box.pending == w.box.pending - {c.messageId} && w'.box.token == w.box.token && w'.now == w.now && w'.up == w.up
    requires w'.hist == w.hist.(lapsed := w'.hist.lapsed)
    requires w'.session == w.session.(loop := Sending(w.session.loop.todo[1..], w.session.loop.clock))
    ensures WakeInv(w') && SentInv(w') && AgreementInv(w')
  {
    hide ValidReply;
    LapseKeepsWake(w, w', c);
    hide WakeInv, HeardInv, Within;
    LapseKeepsAgreement(w, w', c);
    hide AgreementInv;
  }

  lemma LapseKeepsWake(w: World, w': World, c: Revocation)
    requires WakeInv(w) && HeardInv(w) && Within(w.box.pending, w.hist.created)
    requires w.session.Open? && w.session.loop.Sending? && w.session.loop.todo != [] && c == w.session.loop.todo[0]
    requires w'.box.pending == w.box.pending - {c.messageId} && w'.box.token == w.box.token && w'.now == w.now
    requires w'.session == w.session.(loop := Sending(w.session.loop.todo[1..], w.session.loop.clock))
    ensures WakeInv(w')
  {
    var todo := w.session.loop.todo;
    assert todo == [c] + todo[1..];
    assert forall d :: d in todo && d != c ==> d in todo[1..];
  }

  lemma LapseKeepsAgreement(w: World, w': World, c: Revocation)
    requires AgreementInv(w) && w.session.Open? && w'.session.Open? && c.messageId !in w.session.sent
    requires w'.box.pending == w.box.pending - {c.messageId}
    requires w'.hist.honest == w.hist.honest && w'.hist.unexpected == w.hist.unexpected
    requires w'.session.sent == w.session.sent
    requires w'.session.toRelay == w.session.toRelay && w'.session.replies == w.session.replies
    ensures AgreementInv(w')
  {
    hide ValidReply;
  }

  // The Relay's answers.

  /** Which command a reply completes, and with what. */
  ghost predicate Settles(w: World, r: Reply, request: string) {
    && ValidReply(r) && r.inReplyTo in w.box.pending
    && (r.Ack? ==> w.box.pending[r.inReplyTo].denyUntil == r.denyUntil)
    && (r.Refusal? ==> r.inReplyTo != request && r.inReplyTo != "")
  }

  function ResultOf(r: Reply): CommandResult {
    if r.Ack? then Acked(r) else Failed(RelayRefused(r.code))
  }

  lemma ReplyOutcome(w: World, r: Reply, request: string, io: Persist)
    ensures var (box, handled) := HandleReply(w.box, r, request, io);
      if Settles(w, r, request) then
        var (b', c) := Complete(w.box, r.inReplyTo, ResultOf(r), io);
        box == b' && handled == AfterCompletion(c)
      else box == w.box && !handled.Continue? && !handled.StoreFailed?
           && (handled.Unexpected? ==> ValidReply(r) && (r.Refusal? ==> r.inReplyTo != request))
  {
    hide ValidReply;
  }

  lemma ReceiveKeeps(w: World, io: Persist)
    requires Inv(w) && Enabled(w, Receive(io))
    ensures Inv(AfterReceive(w, io))
  {
    var s := w.session;
    var r := s.replies[0];
    assert r in s.replies;
    ReplyOutcome(w, r, s.snapshotRequest, io);
    if Settles(w, r, s.snapshotRequest) {
      SettlingKeeps(w, io);
    } else {
      UnsettlingKeeps(w, io);
    }
  }

  lemma UnsettlingKeeps(w: World, io: Persist)
    requires Inv(w) && Enabled(w, Receive(io)) && !Settles(w, w.session.replies[0], w.session.snapshotRequest)
    ensures Inv(AfterReceive(w, io))
  {
    hide ValidPending, ValidReply, HandleReply;
    var r := w.session.replies[0];
    var w' := AfterReceive(w, io);
    ReplyOutcome(w, r, w.session.snapshotRequest, io);
    assert w' == w.(session := Closed, hist := w.hist.(heard := w.hist.heard + {r}, unexpected := w'.hist.unexpected));
    assert w.hist.honest ==> Answers(r, w.box.pending[r.inReplyTo]);
    if w.hist.honest && r.Refusal? {
      assert r.inReplyTo in w.hist.created;
      PendingIdIsNotEmpty(w, r.inReplyTo);
    }
    assert w.hist.honest ==> false;
  }

  lemma PendingIdIsNotEmpty(w: World, id: string)
    requires ValidPending(w.box.pending) && id in w.box.pending
    ensures id != ""
  {}

  lemma SettlingKeeps(w: World, io: Persist)
    requires Inv(w) && Enabled(w, Receive(io)) && Settles(w, w.session.replies[0], w.session.snapshotRequest)
    ensures Inv(AfterReceive(w, io))
  {
    hide ValidPending, ValidReply, HandleReply;
    var s := w.session;
    var r := s.replies[0];
    var id := r.inReplyTo;
    var w' := AfterReceive(w, io);
    ReplyOutcome(w, r, s.snapshotRequest, io);
    CompleteRemoves(w.box, id, ResultOf(r), io);
    var (box, completion) := Complete(w.box, id, ResultOf(r), io);
    assert w' == w.(box := box, hist := w.hist.(heard := w.hist.heard + {r}, answered := w.hist.answered + {id}),
                    session := if completion.Completed? then s.(loop := Top, replies := s.replies[1..]) else Closed);
    hide Complete, AfterReceive;
    RemovalKeepsQueue(w, w', id, ResultOf(r));
    RemovalKeepsHistory(w, w', id, ResultOf(r));
    AnswerKeepsHeard(w, w', r);
    if w'.session.Open? {
      AnswerKeepsSession(w, w', r);
    }
  }

  lemma AnswerKeepsHeard(w: World, w': World, r: Reply)
    requires HeardInv(w) && r.inReplyTo in w.hist.created && Answers(r, w.hist.created[r.inReplyTo]) && ValidReply(r)
    requires w'.now == w.now && w'.hist == w.hist.(heard := w.hist.heard + {r}, answered := w.hist.answered + {r.inReplyTo})
    ensures HeardInv(w')
  {
    hide ValidReply;
    forall id | id in w'.hist.answered ensures id in w'.hist.created && HeardAnswer(w'.hist, w'.hist.created[id]) {
      if id == r.inReplyTo {
        assert r in w'.hist.heard;
      } else {
        assert HeardAnswer(w.hist, w.hist.created[id]);
        var q :| q in w.hist.heard && ValidReply(q) && Answers(q, w.hist.created[id]);
        assert q in w'.hist.heard;
      }
    }
  }

  lemma AnswerKeepsSession(w: World, w': World, r: Reply)
    requires SentInv(w) && AgreementInv(w) && w.up
    requires w.session.Open? && w.session.replies != [] && r == w.session.replies[0]
    requires w'.box.pending == w.box.pending - {r.inReplyTo} && w'.up
    requires w'.hist == w.hist.(heard := w'.hist.heard, answered := w.hist.answered + {r.inReplyTo})
    requires w'.session == w.session.(loop := Top, replies := w.session.replies[1..])
    ensures WakeInv(w') && SentInv(w') && AgreementInv(w')
  {
    hide ValidReply;
    assert w.session.replies == [r] + w.session.replies[1..];
  }

  // The remaining events.

  lemma RelayAnswersKeeps(w: World, reply: Reply)
    requires Inv(w) && Enabled(w, RelayAnswers(reply))
    ensures Inv(Step(w, RelayAnswers(reply)))
  {
    hide ValidPending, ValidReply, Within;
    var s := w.session;
    var w' := w.(session := s.(toRelay := s.toRelay[1..], replies := s.replies + [reply]));
    assert Step(w, RelayAnswers(reply)) == w';
    hide Step;
    AnsweringKeepsAgreement(w, w', reply);
    hide AgreementInv, Answers;
  }

  lemma AnsweringKeepsAgreement(w: World, w': World, reply: Reply)
    requires AgreementInv(w) && w.session.Open? && w.session.toRelay != []
    requires ValidReply(reply) && Answers(reply, w.session.toRelay[0])
    requires w' == w.(session := w.session.(toRelay := w.session.toRelay[1..], replies := w.session.replies + [reply]))
    ensures AgreementInv(w')
  {
    hide ValidReply;
    var c := w.session.toRelay[0];
    assert w.session.toRelay == [c] + w.session.toRelay[1..];
    assert c in w.session.toRelay;
  }

  lemma RestartKeeps(w: World, io: Persist)
    requires Inv(w) && !w.up
    ensures Inv(AfterRestart(w, io))
  {
    hide ValidPending, ValidReply;
    var live := Live(w.box.disk, Unix(w.now));
    LiveIsValid(w.box.disk, Unix(w.now));
    var w' := AfterRestart(w, io);
    assert Within(live, w.hist.created);
    assert QueueInv(w');
    assert HeardInv(w');
    assert DurableInv(w');
  }

  lemma LiveIsValid(p: Pending, now: int)
    requires ValidPending(p)
    ensures ValidPending(Live(p, now))
  {
    hide ValidRevocation;
    SubmapSize(Live(p, now), p);
  }

  /** Events that touch neither the pending map nor the disk. */
  lemma LoopEventKeeps(w: World, e: Event)
    requires Inv(w) && Enabled(w, e) && (e.BeginPass? || e.EndPass? || e.WakeUp? || e.OtherMessage?)
    ensures Inv(Step(w, e))
  {
    hide ValidPending, ValidReply, Within, Answers;
    var w' := Step(w, e);
    LoopEventKeepsWake(w, e);
    assert w' == w.(session := w.session.(loop := w'.session.loop), box := w.box.(token := w'.box.token));
    hide Step, Enabled, WakeInv;
    QuietKeeps(w, w');
  }

  lemma LoopEventKeepsWake(w: World, e: Event)
    requires Inv(w) && Enabled(w, e) && (e.BeginPass? || e.EndPass? || e.WakeUp? || e.OtherMessage?)
    ensures WakeInv(Step(w, e))
  {
    hide ValidPending, ValidReply, QueueInv, DurableInv, HeardInv, SentInv, AgreementInv;
  }

  lemma QuietKeeps(w: World, w': World)
    requires QueueInv(w) && DurableInv(w) && HeardInv(w) && SentInv(w) && AgreementInv(w) && w.session.Open?
    requires w'.session.Open?
    requires w' == w.(session := w.session.(loop := w'.session.loop), box := w.box.(token := w'.box.token))
    ensures QueueInv(w') && DurableInv(w') && HeardInv(w') && SentInv(w') && AgreementInv(w')
  {
    hide ValidPending, ValidReply, Within, Answers;
  }

  lemma LinkEventKeeps(w: World, e: Event)
    requires Inv(w) && Enabled(w, e) && (e.RelayInjects? || e.Connect? || e.Disconnect?)
    ensures Inv(Step(w, e))
  {
    hide ValidPending, ValidReply, Within, Answers;
    var w' := Step(w, e);
    assert w' == w.(session := w'.session, hist := w.hist.(honest := w'.hist.honest));
    assert SentInv(w') && AgreementInv(w') && WakeInv(w') by { hide QueueInv, DurableInv, HeardInv; }
    hide Step, Enabled, SentInv, AgreementInv, WakeInv;
  }

  lemma CrashKeeps(w: World)
    requires Inv(w) && Enabled(w, Crash)
    ensures Inv(Step(w, Crash))
  {
    EmptyIsValid();
    hide ValidPending, ValidReply;
  }

  lemma EmptyIsValid()
    ensures ValidPending(map[])
  {}

  lemma TickKeeps(w: World, later: nat)
    requires Inv(w) && Enabled(w, Tick(later))
    ensures Inv(Step(w, Tick(later)))
  {
    hide ValidPending, ValidReply, Within;
    var w' := w.(now := later);
    UnixIsMonotone(w.now, later);
    LaterKeepsHeard(w, w');
    LaterKeepsWake(w, w');
    LaterKeepsRest(w, w');
  }

  lemma LaterKeepsRest(w: World, w': World)
    requires QueueInv(w) && DurableInv(w) && SentInv(w) && AgreementInv(w) && w' == w.(now := w'.now)
    ensures QueueInv(w') && DurableInv(w') && SentInv(w') && AgreementInv(w')
  {
    hide ValidPending, ValidReply, Within, Answers;
  }

  lemma LaterKeepsHeard(w: World, w': World)
    requires HeardInv(w) && Unix(w.now) <= Unix(w'.now) && w'.hist == w.hist
    ensures HeardInv(w')
  {
    hide Unix;
  }

  lemma LaterKeepsWake(w: World, w': World)
    requires WakeInv(w) && Unix(w.now) <= Unix(w'.now) && w'.session == w.session && w'.box == w.box
    ensures WakeInv(w')
  {
    hide Unix;
  }

  lemma StepKeepsInv(w: World, e: Event)
    requires Inv(w)
    ensures Inv(Step(w, e))
  {
    hide Inv;
    if Enabled(w, e) {
      match e {
        case Enqueued(batch, io) => EnqueueKeeps(w, batch, io);
        case PassStep(io, writeOk) => PassStepKeeps(w, io, writeOk);
        case Receive(io) => ReceiveKeeps(w, io);
        case RelayAnswers(reply) => RelayAnswersKeeps(w, reply);
        case Crash => CrashKeeps(w);
        case Restart(io) => RestartKeeps(w, io);
        case Tick(later) => TickKeeps(w, later);
        case BeginPass(_, _) => LoopEventKeeps(w, e);
        case EndPass => LoopEventKeeps(w, e);
        case WakeUp => LoopEventKeeps(w, e);
        case OtherMessage => LoopEventKeeps(w, e);
        case _ => LinkEventKeeps(w, e);
      }
    }
  }

  // An uncontended pass of the client is a run of these events.

  function PassSteps(order: seq<Revocation>, ios: string -> Persist, writes: string -> bool): seq<Event> {
    seq(|order|, i requires 0 <= i < |order| => PassStep(ios(order[i].messageId), writes(order[i].messageId)))
  }

  function MessageIds(cs: seq<Revocation>): seq<string> {
    seq(|cs|, i requires 0 <= i < |cs| => cs[i].messageId)
  }

  /** Where a session stands that has begun a pass over `order` and has `todo` still to do. */
  ghost function MidPass(s: Session, r: PassState, todo: seq<Revocation>, clock: int): Session
    requires s.Open?
  {
    if !r.ok then Closed
    else s.(loop := Sending(todo, clock), sent := r.sent,
            frames := s.frames + MessageIds(r.frames), toRelay := s.toRelay + r.frames)
  }

  /** In w', the pass begun in w stands as r says; nothing else has changed but what has lapsed. */
  ghost predicate Stands(w: World, w': World, r: PassState, todo: seq<Revocation>, clock: int)
    requires w.session.Open?
  {
    && w'.box == r.box && w'.session == MidPass(w.session, r, todo, clock)
    && w' == w.(box := w'.box, session := w'.session, hist := w.hist.(lapsed := w'.hist.lapsed))
  }

  lemma PassStepRuns(w: World, w': World, r: PassState, order: seq<Revocation>, k: nat, clock: int,
                     ios: string -> Persist, writes: string -> bool)
    requires w.session.Open? && 0 < k <= |order| && Stands(w, w', r, order[k - 1..], clock)
    ensures var c := order[k - 1];
      Stands(w, Step(w', PassStep(ios(c.messageId), writes(c.messageId))),
             SendOne(r, c, clock, ios(c.messageId), writes(c.messageId)), order[k..], clock)
  {
    hide Complete;
    if r.ok {
      var c := order[k - 1];
      assert order[k - 1..][0] == c && order[k - 1..][1..] == order[k..];
      assert MessageIds(r.frames + [c]) == MessageIds(r.frames) + [c.messageId];
      assert w.session.toRelay + (r.frames + [c]) == w.session.toRelay + r.frames + [c];
      assert w.session.frames + (MessageIds(r.frames) + [c.messageId])
        == w.session.frames + MessageIds(r.frames) + [c.messageId];
    }
  }

  lemma PassBeginsRun(w: World, order: seq<Revocation>, clock: int)
    requires Enabled(w, BeginPass(order, clock))
    ensures Stands(w, Step(w, BeginPass(order, clock)), PassState(w.box, w.session.sent, [], true), order, clock)
  {}

  lemma {:induction false} PassRunsSoFar(w: World, order: seq<Revocation>, k: nat, clock: int,
                                         ios: string -> Persist, writes: string -> bool)
    requires Enabled(w, BeginPass(order, clock)) && k <= |order|
    ensures Stands(w, Run(Step(w, BeginPass(order, clock)), PassSteps(order[..k], ios, writes)),
                   Pass(w.box, w.session.sent, order[..k], clock, ios, writes), order[k..], clock)
  {
    if k == 0 {
      assert order[..0] == [] && order[0..] == order && PassSteps([], ios, writes) == [];
      PassBeginsRun(w, order, clock);
      hide Step, Enabled, Stands;
    } else {
      hide Step, Enabled, SendOne, Pass, Run, PassSteps, Stands;
      PassRunsSoFar(w, order, k - 1, clock, ios, writes);
      OnePassStep(w, Step(w, BeginPass(order, clock)), order, k, clock, ios, writes);
    }
  }

  lemma OnePassStep(w: World, begun: World, order: seq<Revocation>, k: nat, clock: int,
                    ios: string -> Persist, writes: string -> bool)
    requires w.session.Open? && 0 < k <= |order|
    requires Stands(w, Run(begun, PassSteps(order[..k - 1], ios, writes)),
                    Pass(w.box, w.session.sent, order[..k - 1], clock, ios, writes), order[k - 1..], clock)
    ensures Stands(w, Run(begun, PassSteps(order[..k], ios, writes)),
                   Pass(w.box, w.session.sent, order[..k], clock, ios, writes), order[k..], clock)
  {
    hide Step, SendOne, Pass, Run, PassSteps, Stands;
    var c := order[k - 1];
    var es := PassSteps(order[..k - 1], ios, writes);
    PassUpTo(w, order, k, clock, ios, writes);
    RunLast(begun, es, PassStep(ios(c.messageId), writes(c.messageId)));
    var r := Pass(w.box, w.session.sent, order[..k - 1], clock, ios, writes);
    PassStepRuns(w, Run(begun, es), r, order, k, clock, ios, writes);
  }

  lemma PassUpTo(w: World, order: seq<Revocation>, k: nat, clock: int, ios: string -> Persist, writes: string -> bool)
    requires 0 < k <= |order| && w.session.Open?
    ensures var c := order[k - 1];
      && PassSteps(order[..k], ios, writes)
         == PassSteps(order[..k - 1], ios, writes) + [PassStep(ios(c.messageId), writes(c.messageId))]
      && Pass(w.box, w.session.sent, order[..k], clock, ios, writes)
         == SendOne(Pass(w.box, w.session.sent, order[..k - 1], clock, ios, writes),
                    c, clock, ios(c.messageId), writes(c.messageId))
  {
    hide SendOne;
    assert order[..k][..k - 1] == order[..k - 1] && order[..k][k - 1] == order[k - 1];
  }

  lemma RunLast(w: World, es: seq<Event>, e: Event)
    ensures Run(w, es + [e]) == Step(Run(w, es), e)
  {
    hide Step;
    assert (es + [e])[..|es|] == es;
  }

  /** `SendPendingCommands` and the runs agree: from the head of the loop, beginning a pass over the queue and taking
      its steps leaves the queue, the file, the frames and the connection as `Pass` says. */
  lemma PassRuns(w: World, order: seq<Revocation>, clock: int, ios: string -> Persist, writes: string -> bool)
    requires w.session.Open? && w.session.loop.Top? && Orders(order, w.box.pending) && clock <= Unix(w.now)
    ensures var r := Pass(w.box, w.session.sent, order, clock, ios, writes);
      var w' := Run(w, [BeginPass(order, clock)] + PassSteps(order, ios, writes) + [EndPass]);
      && w'.box == r.box && w'.now == w.now && w'.up == w.up && w'.hist == w.hist.(lapsed := w'.hist.lapsed)
      && w'.session == if r.ok then MidPass(w.session, r, [], clock).(loop := Waiting) else Closed
  {
    PassRunsSoFar(w, order, |order|, clock, ios, writes);
    assert order[..|order|] == order && order[|order|..] == [];
    var begin, steps := [BeginPass(order, clock)], PassSteps(order, ios, writes);
    assert [] + begin == begin;
    RunLast(w, [], BeginPass(order, clock));
    RunInTwo(w, begin, steps);
    RunLast(w, begin + steps, EndPass);
    EndPassStep(Run(w, begin + steps));
    hide Pass, Run, Step, Orders, Enabled, PassSteps, MessageIds;
  }

  lemma EndPassStep(w: World)
    ensures Step(w, EndPass) ==
      if w.session.Open? && w.session.loop.Sending? && w.session.loop.todo == []
      then w.(session := w.session.(loop := Waiting)) else w
  {}

  lemma {:induction false} RunInTwo(w: World, es: seq<Event>, more: seq<Event>)
    ensures Run(w, es + more) == Run(Run(w, es), more)
  {
    if more == [] {
      assert es + more == es;
    } else {
      assert (es + more)[..|es + more| - 1] == es + more[..|more| - 1];
      hide Step;
      RunInTwo(w, es, more[..|more| - 1]);
    }
  }

  lemma UnixIsMonotone(a: nat, b: nat)
    requires a <= b
    ensures Unix(a) <= Unix(b)
  {}

  lemma {:induction false} RunKeepsInv(es: seq<Event>)
    ensures Inv(Run(START, es))
  {
    if es != [] {
      RunKeepsInv(es[..|es| - 1]);
      StepKeepsInv(Run(START, es[..|es| - 1]), es[|es| - 1]);
    }
  }
}
