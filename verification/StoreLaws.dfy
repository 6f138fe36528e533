/** The store and the queue in the commands' own fields: what a file restores, and which batches are accepted. */
module StoreLaws {
  import opened Wrappers
  import opened Sorting
  import opened Commands
  import opened CommandStores
  import opened Outbox
  import opened Worlds
  import opened Guarantees
  import opened Fields

  // What a file restores.

  /** A live command is never followed by one with the same ID; a lapsed one may be. */
  ghost predicate NoLiveRepeat(cs: seq<Revocation>, now: int) {
    forall i, j :: 0 <= i < j < |cs| && cs[i].denyUntil > now ==> cs[i].messageId != cs[j].messageId
  }

  ghost predicate LiveIn(cs: seq<Revocation>, now: int, id: string, c: Revocation) {
    c in cs && c.messageId == id && c.denyUntil > now
  }

  /** Exactly the commands whose deadline is ahead, each under its ID. */
  ghost predicate IsLivePart(p: Pending, cs: seq<Revocation>, now: int) {
    && (forall id :: id in p ==> LiveIn(cs, now, id, p[id]))
    && (forall c :: c in cs && c.denyUntil > now ==> c.messageId in p && p[c.messageId] == c)
  }

  ghost predicate AllWellFormed(cs: seq<Revocation>) {
    forall c :: c in cs ==> WellFormedCommand(c)
  }

  ghost predicate HasLive(cs: seq<Revocation>, now: int, id: string) {
    exists c :: LiveIn(cs, now, id, c)
  }

  ghost predicate HasLapsed(cs: seq<Revocation>, now: int) {
    exists c :: c in cs && c.denyUntil <= now
  }

  lemma {:induction false} RestoreIff(cs: seq<Revocation>, now: int)
    ensures Restore(cs, now).Ok? <==> AllWellFormed(cs) && NoLiveRepeat(cs, now)
    ensures Restore(cs, now).Ok? ==>
      IsLivePart(Restore(cs, now).value.0, cs, now) && (Restore(cs, now).value.1 <==> HasLapsed(cs, now))
  {
    hide ValidRevocation, WellFormedCommand;
    if cs != [] {
      var init, c := cs[..|cs| - 1], cs[|cs| - 1];
      assert cs == init + [c];
      RestoreIff(init, now);
      CommandIff(c);
      AtEnd(init, c, now);
      hide NoLiveRepeat, AllWellFormed, IsLivePart, HasLapsed, HasLive;
      if Restore(init, now).Ok? {
        OneMoreLive(Restore(init, now).value.0, init, c, now);
      }
    }
  }

  lemma AtEnd(init: seq<Revocation>, c: Revocation, now: int)
    ensures NoLiveRepeat(init + [c], now) <==> NoLiveRepeat(init, now) && !HasLive(init, now, c.messageId)
    ensures AllWellFormed(init + [c]) <==> AllWellFormed(init) && WellFormedCommand(c)
    ensures HasLapsed(init + [c], now) <==> HasLapsed(init, now) || c.denyUntil <= now
  {
    hide WellFormedCommand;
    var cs := init + [c];
    assert forall i :: 0 <= i < |init| ==> init[i] == cs[i];
    assert forall d :: d in cs <==> d in init || d == c;
    if HasLive(init, now, c.messageId) {
      var d :| LiveIn(init, now, c.messageId, d);
      var i :| 0 <= i < |init| && init[i] == d;
      assert cs[i].denyUntil > now && cs[i].messageId == cs[|cs| - 1].messageId;
    }
    forall i | 0 <= i < |init| && cs[i].denyUntil > now && cs[i].messageId == c.messageId
      ensures HasLive(init, now, c.messageId)
    {
      assert LiveIn(init, now, c.messageId, init[i]);
    }
  }

  lemma OneMoreLive(p: Pending, init: seq<Revocation>, c: Revocation, now: int)
    requires IsLivePart(p, init, now)
    ensures c.messageId in p <==> HasLive(init, now, c.messageId)
    ensures c.messageId !in p ==>
      IsLivePart(if c.denyUntil > now then p[c.messageId := c] else p, init + [c], now)
  {}

  /** Opening succeeds exactly for a missing file, or one of at most 65536 bytes, version 1, with a list of well-formed
      commands, no live one repeated, and at most 64 of them live. It restores the live ones. */
  lemma ReopenIff(file: StoreFile, now: int)
    ensures Reopen(file, now).Ok? <==>
      match file
      case Missing => true
      case Undecodable(_) => false
      case Stored(size, version, commands) =>
        && size <= 65536 && version == 1 && commands.Some?
        && AllWellFormed(commands.value) && NoLiveRepeat(commands.value, now)
        && exists p :: IsLivePart(p, commands.value, now) && |p| <= 64
    ensures Reopen(file, now).Ok? ==>
      var (p, expired) := Reopen(file, now).value; var cs := if file.Missing? then [] else file.commands.value;
      IsLivePart(p, cs, now) && |p| <= 64 && (expired <==> HasLapsed(cs, now))
  {
    var cs := if file.Stored? && file.commands.Some? then file.commands.value else [];
    RestoreIff(cs, now);
    ReopenRestores(file, now, cs);
    hide Restore, Reopen, AllWellFormed, NoLiveRepeat, HasLapsed;
    if Restore(cs, now).Ok? {
      forall q | IsLivePart(q, cs, now) ensures q == Restore(cs, now).value.0 {
        LivePartIsUnique(q, Restore(cs, now).value.0, cs, now);
      }
    }
    hide IsLivePart;
  }

  lemma ReopenRestores(file: StoreFile, now: int, cs: seq<Revocation>)
    requires cs == if file.Stored? && file.commands.Some? then file.commands.value else []
    ensures Reopen(file, now).Ok? <==>
      && !file.Undecodable? && (file.Stored? ==> file.size <= 65536 && file.version == 1 && file.commands.Some?)
      && Restore(cs, now).Ok? && |Restore(cs, now).value.0| <= 64
    ensures Reopen(file, now).Ok? ==> Reopen(file, now).value == Restore(cs, now).value
  {
    assert Restore([], now) == Ok((map[], false));
    hide Restore;
  }

  lemma LivePartIsUnique(p: Pending, q: Pending, cs: seq<Revocation>, now: int)
    requires IsLivePart(p, cs, now) && IsLivePart(q, cs, now)
    ensures p == q
  {}

  /** A restart in any run restores exactly the stored commands whose deadline is ahead. */
  lemma RestartRestoresLive(es: seq<Event>)
    requires !Run(START, es).up
    ensures var w := Run(START, es); var w' := Run(START, es + [Restart(Committed)]);
      && w'.up && w'.box.disk == w'.box.pending
      && (forall id :: id in w'.box.pending <==> id in w.box.disk && w.box.disk[id].denyUntil > w.now / 1_000_000_000)
      && (forall id :: id in w'.box.pending ==> w'.box.pending[id] == w.box.disk[id])
  {
    RunLast(START, es, Restart(Committed));
    hide Run;
    RestartsLive(Run(START, es));
  }

  lemma RestartsLive(w: World)
    requires !w.up
    ensures var w' := Step(w, Restart(Committed));
      && w'.up && w'.box.disk == w'.box.pending
      && (forall id :: id in w'.box.pending <==> id in w.box.disk && w.box.disk[id].denyUntil > w.now / 1_000_000_000)
      && (forall id :: id in w'.box.pending ==> w'.box.pending[id] == w.box.disk[id])
  {}

  // Which batches are accepted.

  ghost predicate AcceptableBatch(p: Pending, batch: seq<Revocation>) {
    && (forall c :: c in batch ==> WellFormedCommand(c) && c.messageId !in p)
    && (forall i, j :: 0 <= i < j < |batch| ==> batch[i].messageId != batch[j].messageId)
  }

  lemma SoundIff(p: Pending, batch: seq<Revocation>)
    ensures SoundBatch(p, batch) <==> AcceptableBatch(p, batch)
  {
    forall c: Revocation ensures ValidRevocation(c) <==> WellFormedCommand(c) { CommandIff(c); }
    hide ValidRevocation, WellFormedCommand;
    assert forall i :: 0 <= i < |batch| ==> batch[i] in batch;
  }

  /** An enqueue succeeds iff there is nothing to queue, or the batch fits beside the pending commands within 64, every
      command is well formed and new, and the write commits. Then the batch, and nothing else, has joined queue and file. */
  lemma EnqueueIff(b: Box, batch: seq<Revocation>, io: Persist)
    ensures var (b', e) := Enqueue(b, batch, io);
      && (e.None? <==> batch == [] || (|b.pending| + |batch| <= 64 && AcceptableBatch(b.pending, batch) && io.Committed?))
      && (e == Some(QueueFull) <==> batch != [] && |b.pending| + |batch| > 64)
      && (e == Some(NotPersisted) <==>
            batch != [] && |b.pending| + |batch| <= 64 && AcceptableBatch(b.pending, batch) && !io.Committed?)
  {
    SoundIff(b.pending, batch);
    NoFaultMeansSound(b.pending, batch);
    FaultIsNotFull(b.pending, batch);
    hide BatchFault, SoundBatch, AcceptableBatch, AddAll, Ids;
  }

  lemma {:induction false} FaultIsNotFull(p: Pending, batch: seq<Revocation>)
    ensures BatchFault(p, batch) != Some(QueueFull) && BatchFault(p, batch) != Some(NotPersisted)
  {
    hide ValidRevocation;
    if batch != [] { FaultIsNotFull(p, batch[..|batch| - 1]); }
  }

  lemma EnqueuedBatchIsPending(b: Box, batch: seq<Revocation>, io: Persist)
    requires ValidPending(b.pending) && batch != [] && Enqueue(b, batch, io).1.None?
    ensures var b' := Enqueue(b, batch, io).0;
      && b'.disk == b'.pending && b'.token
      && (forall c :: c in batch ==> c.messageId in b'.pending && b'.pending[c.messageId] == c)
      && (forall id :: id in b.pending ==> id in b'.pending && b'.pending[id] == b.pending[id])
      && (forall id :: id in b'.pending ==> id in b.pending || exists c :: c in batch && c.messageId == id)
  {
    EnqueueIsAllOrNothing(b, batch, io);
    NoFaultMeansSound(b.pending, batch);
    AddAllHolds(b.pending, batch);
    AddAllExtends(b.pending, batch);
    assert SoundBatch(b.pending, batch);
    hide ValidPending, ValidRevocation, BatchFault;
    forall c | c in batch ensures c.messageId in AddAll(b.pending, batch) && AddAll(b.pending, batch)[c.messageId] == c {
      var i :| 0 <= i < |batch| && batch[i] == c;
      AddAllContains(b.pending, batch, i);
    }
    forall id | id in Ids(batch) ensures exists c :: c in batch && c.messageId == id {
      InIds(batch, id);
      var i :| 0 <= i < |batch| && batch[i].messageId == id;
      assert batch[i] in batch;
    }
    hide SoundBatch, AddAll, Ids;
  }
}
