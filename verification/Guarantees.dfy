/** What every run of the client guarantees, whatever the environment and the Relay do. */
module Guarantees {
  import opened Wrappers
  import opened Commands
  import opened CommandStores
  import opened Outbox
  import opened Worlds

  // Histories only grow.

  ghost predicate Grows(h: History, h': History) {
    && Within(h.created, h'.created) && h.accepted <= h'.accepted
    && h.heard <= h'.heard && h.answered <= h'.answered && (h'.honest ==> h.honest)
  }

  lemma StepGrows(w: World, e: Event)
    requires Inv(w)
    ensures Grows(w.hist, Step(w, e).hist)
  {
    hide Inv, ValidPending, ValidReply;
    if Enabled(w, e) && e.Enqueued? {
      CreatedGrows(w.hist.created, e.batch);
    }
  }

  lemma GrowsIsTransitive(a: History, b: History, c: History)
    requires Grows(a, b) && Grows(b, c)
    ensures Grows(a, c)
  {}

  lemma {:induction false} RunGrows(es: seq<Event>, more: seq<Event>)
    ensures Grows(Run(START, es).hist, Run(START, es + more).hist)
  {
    if more == [] {
      assert es + more == es;
    } else {
      var init, last := more[..|more| - 1], more[|more| - 1];
      var w, w' := Run(START, es + init), Run(START, es + more);
      assert (es + more)[..|es + more| - 1] == es + init;
      assert w' == Step(w, last);
      hide Inv, Step, Run;
      RunGrows(es, init);
      RunKeepsInv(es + init);
      StepGrows(w, last);
      hide Grows;
      GrowsIsTransitive(Run(START, es).hist, w.hist, w'.hist);
    }
  }

  /** The fate of a command: still durable (and pending while the process is up), answered by a reply that
      names it (a valid one that the client took; an acknowledgement with its own deadline), or seen by the client
      to be past its deadline: in a sending pass or at a restart. */
  ghost predicate Kept(w: World, c: Revocation) {
    || (w.box.disk.Keys >= {c.messageId} && w.box.disk[c.messageId] == c
        && (w.up ==> c.messageId in w.box.pending && w.box.pending[c.messageId] == c))
    || (c.messageId in w.hist.answered && HeardAnswer(w.hist, c))
    || (c.messageId in w.hist.lapsed && c.denyUntil <= Unix(w.now))
  }

  /** Durability over every run: once enqueue has returned success, the command is kept at every later point,
      through crashes, restarts and failed writes. */
  lemma Durability(es: seq<Event>, more: seq<Event>, id: string)
    requires id in Run(START, es).hist.accepted
    ensures id in Run(START, es).hist.created
    ensures Kept(Run(START, es + more), Run(START, es).hist.created[id])
  {
    hide ValidPending;
    RunKeepsInv(es);
    RunKeepsInv(es + more);
    RunGrows(es, more);
    var w := Run(START, es + more);
    assert Within(w.box.pending, w.hist.created) && Within(w.box.disk, w.hist.created);
  }

  /** Each pending command at the select is written on this connection, or the wake-up is enabled. */
  lemma NoLostWakeUp(es: seq<Event>, id: string)
    requires var w := Run(START, es); w.session.Open? && w.session.loop.Waiting? && id in w.box.pending
    ensures var w := Run(START, es); id in w.session.frames || Enabled(w, WakeUp)
  {
    RunKeepsInv(es);
    hide Run, QueueInv, DurableInv, HeardInv, AgreementInv;
  }

  /** No message ID is written twice on one connection, and a written command is pending until it is answered. */
  lemma WrittenOnce(es: seq<Event>)
    requires Run(START, es).session.Open?
    ensures var w := Run(START, es); var f := w.session.frames;
      && (forall i, j :: 0 <= i < j < |f| ==> f[i] != f[j])
      && (forall id :: id in f ==>
            (id in w.box.pending
             || (id in w.hist.answered && id in w.hist.created && HeardAnswer(w.hist, w.hist.created[id]))))
  {
    hide ValidPending;
    RunKeepsInv(es);
  }

  /** With a Relay that answers each frame once and echoes its deadline, no session meets a reply it cannot place,
      and everything written and unanswered is pending. */
  lemma Agreement(es: seq<Event>)
    requires Run(START, es).hist.honest
    ensures var w := Run(START, es);
      && !w.hist.unexpected
      && (w.session.Open? ==>
            && (forall c :: c in w.session.toRelay ==> c.messageId in w.box.pending && w.box.pending[c.messageId] == c)
            && (forall r :: r in w.session.replies ==> r.inReplyTo in w.box.pending && Answers(r, w.box.pending[r.inReplyTo])))
  {
    RunKeepsInv(es);
    hide ValidPending, ValidReply;
  }

  /** A result channel gets at most one result: the slot of a pending command is empty, so completing it fills it. */
  lemma OneResultPerCommand(es: seq<Event>, id: string, result: CommandResult)
    requires id in Run(START, es).box.pending
    ensures var b := Run(START, es).box;
      id !in b.results && Complete(b, id, result, Committed).0.results == b.results[id := result]
  {
    RunKeepsInv(es);
    hide ValidPending;
  }

  /** A caller that reads an acknowledgement reads its own: the reply names its command and repeats its deadline. */
  lemma AcknowledgementIsOwn(es: seq<Event>, id: string)
    requires var b := Run(START, es).box; id in b.results && b.results[id].Acked?
    ensures var w := Run(START, es); var a := w.box.results[id].ack;
      id in w.hist.created && a.Ack? && a in w.hist.heard && a.inReplyTo == id && a.denyUntil == w.hist.created[id].denyUntil
  {
    RunKeepsInv(es);
    hide ValidPending;
  }

  /** Completion in any run: an answer that is taken and persisted removes its command from queue and file and fills
      its slot; when the write fails, queue and slots stay as they were and the session ends. No other command is touched. */
  lemma CompletionIsDurable(es: seq<Event>, io: Persist)
    requires var w := Run(START, es);
      Enabled(w, Receive(io)) && Settles(w, w.session.replies[0], w.session.snapshotRequest)
    ensures var w := Run(START, es); var w' := Run(START, es + [Receive(io)]);
      var r := w.session.replies[0]; var id := r.inReplyTo;
      && (io.Committed? ==> w'.session.Open? && w'.box.pending == w.box.pending - {id} == w'.box.disk
                            && id !in w.box.results && w'.box.results == w.box.results[id := ResultOf(r)])
      && (!io.Committed? ==> w'.session.Closed? && w'.box.pending == w.box.pending && w'.box.results == w.box.results)
      && (forall k :: k in w.box.pending && k in w.box.disk && k != id ==> k in w'.box.disk)
  {
    var w := Run(START, es);
    RunKeepsInv(es);
    RunLast(START, es, Receive(io));
    hide Run, Step, Enabled, ValidPending, DurableInv, HeardInv, WakeInv, SentInv, AgreementInv, Settles;
    ReceiveCompletes(w, io);
  }

  lemma ReceiveCompletes(w: World, io: Persist)
    requires SlotsInv(w) && Enabled(w, Receive(io)) && Settles(w, w.session.replies[0], w.session.snapshotRequest)
    ensures var w' := Step(w, Receive(io)); var r := w.session.replies[0]; var id := r.inReplyTo;
      && (io.Committed? ==> w'.session.Open? && w'.box.pending == w.box.pending - {id} == w'.box.disk
                            && id !in w.box.results && w'.box.results == w.box.results[id := ResultOf(r)])
      && (!io.Committed? ==> w'.session.Closed? && w'.box.pending == w.box.pending && w'.box.results == w.box.results)
      && (forall k :: k in w.box.pending && k in w.box.disk && k != id ==> k in w'.box.disk)
  {
    var r := w.session.replies[0];
    ReplyOutcome(w, r, w.session.snapshotRequest, io);
    assert r.inReplyTo in w.box.pending && r.inReplyTo !in w.box.results;
    CompleteFacts(w.box, r.inReplyTo, ResultOf(r), io);
    hide HandleReply, Complete, ValidReply, SlotsInv, Settles;
  }

  lemma CompleteFacts(b: Box, id: string, result: CommandResult, io: Persist)
    requires id in b.pending && id !in b.results
    ensures var (b', c) := Complete(b, id, result, io);
      && (io.Committed? ==> c.Completed? && b'.pending == b.pending - {id} == b'.disk && b'.results == b.results[id := result])
      && (!io.Committed? ==> c.CompletionNotPersisted? && b'.pending == b.pending && b'.results == b.results)
      && (forall k :: k in b.pending && k in b.disk && k != id ==> k in b'.disk)
  {}

  // What has left the queue and the file never comes back.

  ghost predicate Stored(w: World, id: string) { id in w.box.pending || id in w.box.disk }

  ghost predicate Gone(w: World, id: string) { id in w.hist.created && !Stored(w, id) }

  /** Only an enqueue brings anything into the queue or the file. */
  lemma OthersStoreNothing(w: World, e: Event, id: string)
    requires !e.Enqueued? && Stored(Step(w, e), id)
    ensures Stored(w, id)
  {
    if Enabled(w, e) {
      match e {
        case PassStep(io, _) => CompleteAddsNothing(w.box, w.session.loop.todo[0].messageId, Failed(DeadlineElapsed), io, id);
        case Receive(io) =>
          var r := w.session.replies[0];
          ReplyOutcome(w, r, w.session.snapshotRequest, io);
          CompleteAddsNothing(w.box, r.inReplyTo, ResultOf(r), io, id);
        case _ =>
      }
    }
    hide ValidReply, Settles, HandleReply, Complete;
  }

  lemma CompleteAddsNothing(b: Box, k: string, result: CommandResult, io: Persist, id: string)
    ensures var b' := Complete(b, k, result, io).0; id in b'.pending || id in b'.disk ==> id in b.pending || id in b.disk
  {}

  lemma EnqueueAddsItsBatch(b: Box, batch: seq<Revocation>, io: Persist, id: string)
    requires id !in b.pending && id !in b.disk
    ensures var (b', e) := Enqueue(b, batch, io);
      id in b'.pending || id in b'.disk ==>
        id in Ids(batch) && (e.None? || (e == Some(NotPersisted) && io.FailedAfterRename?))
  {
    AddAllKeys(b.pending, batch);
    var q := AddAll(b.pending, batch);
    assert id in q ==> id in Ids(batch);
    hide BatchFault, AddAll, Ids;
  }

  lemma StoringStep(w: World, e: Event, id: string)
    requires Stored(Step(w, e), id) && !Stored(w, id)
    ensures e.Enqueued? && Enabled(w, e) && id in Ids(e.batch)
    ensures id in Step(w, e).hist.accepted
      || (e.io.FailedAfterRename? && Enqueue(w.box, e.batch, e.io).1 == Some(NotPersisted))
  {
    if e.Enqueued? {
      EnqueueAddsItsBatch(w.box, e.batch, e.io, id);
      hide Enqueue, Ids, Fresh;
    } else {
      OthersStoreNothing(w, e, id);
    }
  }

  lemma GoneStays(w: World, e: Event, id: string)
    requires Inv(w) && Gone(w, id)
    ensures Gone(Step(w, e), id)
  {
    StepGrows(w, e);
    if Stored(Step(w, e), id) {
      StoringStep(w, e, id);
      InIds(e.batch, id);
    }
    hide Inv, Step, Ids, Stored;
  }

  lemma {:induction false} GoneForGood(es: seq<Event>, more: seq<Event>, id: string)
    requires Gone(Run(START, es), id)
    ensures Gone(Run(START, es + more), id)
  {
    if more == [] {
      assert es + more == es;
    } else {
      var init, last := more[..|more| - 1], more[|more| - 1];
      assert es + more == es + init + [last];
      RunLast(START, es + init, last);
      hide Inv, Step, Run, Gone;
      GoneForGood(es, init, id);
      RunKeepsInv(es + init);
      GoneStays(Run(START, es + init), last, id);
    }
  }

  /** A completed command never returns: not to the queue, not to the file, whatever crashes and restarts follow. */
  lemma CompletedNeverReturns(es: seq<Event>, io: Persist, more: seq<Event>)
    requires var w := Run(START, es);
      Enabled(w, Receive(io)) && Settles(w, w.session.replies[0], w.session.snapshotRequest) && io.Committed?
    ensures Gone(Run(START, es + [Receive(io)] + more), Run(START, es).session.replies[0].inReplyTo)
  {
    var w := Run(START, es);
    CompletionIsDurable(es, io);
    RunKeepsInv(es);
    RunLast(START, es, Receive(io));
    StepGrows(w, Receive(io));
    hide Run, Step, ValidPending, ValidReply, DurableInv, HeardInv, WakeInv, SentInv, AgreementInv, Settles;
    assert w.session.replies[0].inReplyTo in w.hist.created by { SettledIsCreated(w); }
    GoneForGood(es + [Receive(io)], more, w.session.replies[0].inReplyTo);
  }

  lemma SettledIsCreated(w: World)
    requires QueueInv(w) && w.session.Open? && w.session.replies != []
    requires Settles(w, w.session.replies[0], w.session.snapshotRequest)
    ensures w.session.replies[0].inReplyTo in w.hist.created
  {
    hide ValidPending, ValidReply;
  }

  /** No reachable store is refused: whatever file holds the reachable disk image, opening it succeeds
      and restores exactly the commands whose deadline is ahead. */
  lemma ReachableStoreReopens(es: seq<Event>, file: StoreFile, io: Persist)
    requires !Run(START, es).up && Holds(file, Run(START, es).box.disk)
    ensures var w := Run(START, es); var w' := Step(w, Restart(io)); var disk := w.box.disk;
      && Reopen(file, Unix(w.now)) == Ok((Live(disk, Unix(w.now)), Live(disk, Unix(w.now)) != disk))
      && (w'.up <==> Live(disk, Unix(w.now)) == disk || io.Committed?)
      && (w'.up ==> w'.box.pending == Live(disk, Unix(w.now)) == w'.box.disk)
  {
    ReopenRestoresLive(file, Run(START, es).box.disk, Unix(Run(START, es).now));
  }

  // "Disk equals memory" is not an invariant.

  ghost const NO_FAULT := Restart(Committed)

  lemma RunOfFour(a: Event, b: Event, c: Event, d: Event)
    ensures Run(START, [a, b, c, d]) == Step(Step(Step(Step(START, a), b), c), d)
  {
    assert [a, b, c, d][..3] == [a, b, c];
    assert [a, b, c][..2] == [a, b];
    assert [a, b][..1] == [a];
    assert [a][..0] == [];
    assert Run(START, [a]) == Step(START, a);
    assert Run(START, [a, b]) == Step(Step(START, a), b);
  }

  /** A refused batch reaches the file exactly when it passed every check and the write failed after the rename. */
  lemma RefusedReachesDiskIff(b: Box, batch: seq<Revocation>, io: Persist, i: nat)
    requires Enqueue(b, batch, io).1.Some? && i < |batch| && batch[i].messageId !in b.disk
    ensures var disk := Enqueue(b, batch, io).0.disk;
      && (batch[i].messageId in disk <==>
            |b.pending| + |batch| <= MAX_PENDING && SoundBatch(b.pending, batch) && io.FailedAfterRename?)
      && (batch[i].messageId in disk ==> disk[batch[i].messageId] == batch[i])
  {
    NoFaultMeansSound(b.pending, batch);
    if SoundBatch(b.pending, batch) {
      AddAllContains(b.pending, batch, i);
    }
    hide BatchFault, SoundBatch, AddAll, Ids, ValidRevocation;
  }

  /** In any run: a command of a refused batch is pending after a crash and a restart iff the batch passed every check,
      the write failed after the rename, and the deadline is still ahead. */
  lemma RefusedReturnsIff(es: seq<Event>, batch: seq<Revocation>, io: Persist, i: nat)
    requires var w := Run(START, es); w.up && Fresh(w, batch) && i < |batch| && Enqueue(w.box, batch, io).1.Some?
    ensures var w := Run(START, es); var back := Run(START, es + [Enqueued(batch, io), Crash, NO_FAULT]);
      && back.up
      && (batch[i].messageId in back.box.pending <==>
            |w.box.pending| + |batch| <= MAX_PENDING && SoundBatch(w.box.pending, batch)
            && io.FailedAfterRename? && batch[i].denyUntil > Unix(w.now))
  {
    var w := Run(START, es);
    var refused := Step(w, Enqueued(batch, io));
    RunKeepsInv(es);
    assert batch[i].messageId !in w.box.disk by { hide ValidPending; }
    RefusedReachesDiskIff(w.box, batch, io, i);
    RunThree(START, es, Enqueued(batch, io), Crash, NO_FAULT);
    assert refused.up && refused.box == Enqueue(w.box, batch, io).0 && refused.now == w.now;
    hide Run, Step, Enqueue, Inv, SoundBatch, Fresh, Unix;
    CrashAndRestart(refused);
  }

  lemma RunThree(w: World, es: seq<Event>, a: Event, b: Event, c: Event)
    ensures Run(w, es + [a, b, c]) == Step(Step(Step(Run(w, es), a), b), c)
  {
    hide Run, Step;
    assert es + [a] + [b] + [c] == es + [a, b, c];
    RunLast(w, es, a);
    RunLast(w, es + [a], b);
    RunLast(w, es + [a] + [b], c);
  }

  /** Event k was an enqueue of this command that reported a failed write, after the rename. */
  ghost predicate FailedSync(es: seq<Event>, k: nat, id: string)
    requires k < |es|
  {
    && es[k].Enqueued? && es[k].io.FailedAfterRename? && id in Ids(es[k].batch)
    && Enabled(Run(START, es[..k]), es[k])
    && Enqueue(Run(START, es[..k]).box, es[k].batch, es[k].io).1 == Some(NotPersisted)
  }

  /** In every run, a command in the queue or the file that no enqueue has accepted comes from an enqueue whose
      directory sync failed: nothing else lets a refused command in. */
  lemma {:induction false} OnlyFailedSyncRevives(es: seq<Event>, id: string)
    requires Stored(Run(START, es), id) && id !in Run(START, es).hist.accepted
    ensures exists k :: 0 <= k < |es| && FailedSync(es, k, id)
  {
    if es != [] {
      var n := |es| - 1;
      var init, last := es[..n], es[n];
      var w := Run(START, init);
      assert es == init + [last];
      RunLast(START, init, last);
      RunKeepsInv(init);
      StepGrows(w, last);
      hide Inv, Step, Run, Stored, Enqueue, Enabled;
      if Stored(w, id) {
        OnlyFailedSyncRevives(init, id);
        var k :| 0 <= k < n && FailedSync(init, k, id);
        assert es[..k] == init[..k];
        assert FailedSync(es, k, id);
      } else {
        StoringStep(w, last, id);
        assert FailedSync(es, n, id);
      }
    }
  }

  lemma FirstStart()
    ensures Step(START, NO_FAULT) == START.(up := true)
  {
    assert Live(map[], Unix(0)) == map[];
  }

  lemma RefusedStep(c: Revocation)
    requires ValidRevocation(c)
    ensures var m := map[c.messageId := c];
      Step(START.(up := true), Enqueued([c], FailedAfterRename))
      == START.(up := true, box := EMPTY.(disk := m), hist := START.hist.(created := m))
  {
    hide ValidRevocation;
    NoFaultMeansSound(map[], [c]);
    assert [c][..0] == [];
    assert AddAll(map[], [c]) == map[c.messageId := c];
    assert EMPTY.results - Ids([c]) == map[];
  }

  /** A command whose enqueue reported an error can still be pending after a restart:
      the directory sync failed after the rename, so the file had already changed. */
  lemma RefusedCommandMayReturn(c: Revocation)
    requires ValidRevocation(c) && c.denyUntil > 0
    ensures var w := Run(START, [NO_FAULT, Enqueued([c], FailedAfterRename), Crash, NO_FAULT]);
      w.up && c.messageId !in w.hist.accepted && w.box.pending == map[c.messageId := c]
  {
    RunOfFour(NO_FAULT, Enqueued([c], FailedAfterRename), Crash, NO_FAULT);
    FirstStart();
    RefusedStep(c);
    hide ValidRevocation, Run, Enqueue, Step;
    var m := map[c.messageId := c];
    CrashAndRestart(START.(up := true, box := EMPTY.(disk := m), hist := START.hist.(created := m)));
    assert Live(m, Unix(0)) == m;
  }

  lemma CrashAndRestart(w: World)
    requires w.up
    ensures var w' := Step(Step(w, Crash), NO_FAULT); var live := Live(w.box.disk, Unix(w.now));
      w'.up && w'.hist.accepted == w.hist.accepted && w'.box.pending == live
  {}
}
