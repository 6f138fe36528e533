/** The revocation endpoint: which requests it passes on, and what its answer means. */
module RevocationApi {
  import opened Wrappers
  import opened Commands
  import opened CommandStores
  import opened Outbox
  import opened Worlds
  import opened Guarantees
  import opened Grants
  import opened Fields

  /** The longest deny window a request may ask for, in seconds. */
  const MAXIMUM_DENY_WINDOW: nat := 5400

  /** A request on its own, checked against one reading of the clock. */
  predicate WellFormedRequest(q: Request, now: nat) {
    && ValidReason(q.reason) && Unix(now) < q.denyUntil <= Unix(now) + MAXIMUM_DENY_WINDOW
    && (q.serviceId != "" || q.grantIdHash != "")
    && (q.serviceId != "" ==> ValidServiceId(q.serviceId))
    && (q.grantIdHash != "" ==> ValidGrantIdHash(q.grantIdHash))
  }

  /** A grant-specific request stays inside the grant: its channel, its service if named, and its lifetime. */
  predicate InScope(q: Request, g: IssuedGrant) {
    && g.channelId == q.channelId && (q.serviceId != "" ==> q.serviceId == g.serviceId)
    && q.denyUntil <= Unix(g.expiresAt)
  }

  ghost predicate Acceptable(q: Request, now: nat, issued: map<string, IssuedGrant>) {
    && WellFormedRequest(q, now)
    && (q.grantIdHash != "" ==> q.grantIdHash in issued && InScope(q, issued[q.grantIdHash]))
  }

  /** `validateServiceAdmissionRevocation`; the index is consulted, and swept, at a second reading of the clock.
      Without an issuer no grant hash is known. */
  method ValidateRevocation(q: Request, issuer: GrantIssuer?, now: nat, later: nat) returns (ok: bool)
    requires issuer != null ==> issuer.Valid()
    modifies if issuer == null then {} else {issuer}
    ensures issuer == null ==> (ok <==> Acceptable(q, now, map[]))
    ensures issuer != null ==>
      && issuer.Valid()
      && (ok <==> Acceptable(q, now, Index(old(issuer.log) + [Swept(later)])))
      && (issuer.log == old(issuer.log) || issuer.log == old(issuer.log) + [Swept(later)])
  {
    hide ValidServiceId, ValidReason, ValidGrantIdHash, Index;
    if !ValidReason(q.reason) || q.denyUntil <= Unix(now) || q.denyUntil > Unix(now) + MAXIMUM_DENY_WINDOW
       || (q.serviceId == "" && q.grantIdHash == "") {
      return false;
    }
    if q.serviceId != "" && !ValidServiceId(q.serviceId) { return false; }
    if q.grantIdHash == "" { return true; }
    if !ValidGrantIdHash(q.grantIdHash) || issuer == null { return false; }
    var grant := issuer.IssuedGrantFor(q.grantIdHash, later);
    if grant.None? || grant.value.channelId != q.channelId
       || (q.serviceId != "" && q.serviceId != grant.value.serviceId) || q.denyUntil > Unix(grant.value.expiresAt) {
      return false;
    }
    ok := true;
  }

  /** A request the endpoint accepts always makes a valid command: the client never refuses it as malformed. */
  lemma AcceptedRequestIsValidCommand(q: Request, now: nat, issued: map<string, IssuedGrant>, id: string)
    requires Acceptable(q, now, issued) && ValidMessageId(id)
    ensures ValidRevocation(NewCommand(q, id))
  {}

  /** What the endpoint accepts, field by field: a listed reason, a deadline after now and within 5400 seconds, a service or
      one grant; a grant only if it is known, on its channel, for its service, and no longer than it lives. */
  lemma AcceptableIff(q: Request, now: nat, issued: map<string, IssuedGrant>)
    ensures Acceptable(q, now, issued) <==>
      && ListedReason(q.reason) && now / 1_000_000_000 < q.denyUntil <= now / 1_000_000_000 + 5400
      && (q.serviceId != "" || q.grantIdHash != "")
      && (q.serviceId != "" ==> IsServiceId(q.serviceId))
      && (q.grantIdHash != "" ==>
            && EncodesBytes(q.grantIdHash, 32) && q.grantIdHash in issued
            && issued[q.grantIdHash].channelId == q.channelId
            && (q.serviceId != "" ==> issued[q.grantIdHash].serviceId == q.serviceId)
            && q.denyUntil * 1_000_000_000 <= issued[q.grantIdHash].expiresAt)
  {
    ServiceIdIff(q.serviceId);
    HashIff(q.grantIdHash);
    hide ValidServiceId, ValidGrantIdHash, IsServiceId, EncodesBytes;
    if q.grantIdHash in issued { WholeSecondsFit(q.denyUntil, issued[q.grantIdHash].expiresAt); }
    hide Unix;
    assert Unix(now) == now / 1_000_000_000 by { UnixIs(now); }
  }

  lemma UnixIs(t: nat)
    ensures Unix(t) == t / 1_000_000_000
  {}

  lemma WholeSecondsFit(seconds: int, t: nat)
    ensures seconds <= Unix(t) <==> seconds * 1_000_000_000 <= t
  {}

  /** A grant-specific request is accepted only for a grant that was issued and has not expired,
      and never denies past the grant's own expiry. */
  lemma GrantRequestNamesLiveGrant(q: Request, now: nat, log: seq<IndexEvent>, later: nat)
    requires FreshHashes(log) && Nondecreasing(log + [Swept(later)])
    requires q.grantIdHash != "" && Acceptable(q, now, Index(log + [Swept(later)]))
    ensures exists i :: (RecordedAt(log, i, q.grantIdHash) && log[i].grant.expiresAt > later
      && log[i].grant.channelId == q.channelId && q.denyUntil <= Unix(log[i].grant.expiresAt))
  {
    hide ValidServiceId, ValidReason, ValidGrantIdHash, Index;
    var all := log + [Swept(later)];
    LookupFindsUnexpired(log, q.grantIdHash, later);
    IndexMeaning(all, q.grantIdHash);
    var i :| RecordedAt(log, i, q.grantIdHash) && log[i].grant.expiresAt > later;
    assert RecordedAt(all, i, q.grantIdHash) && all[i] == log[i];
  }

  // The answer.

  /** How `revokeServiceAdmission` comes back within the five-second wait. */
  datatype Waited =
    | NotQueued
    | Answered(messageId: string, result: CommandResult)
    | TimedOut(messageId: string)
    | Cancelled(messageId: string)

  datatype Response =
    | Done(outcome: Outcome, denyUntil: I64, affected: U32, released: U32)
    | PendingRelayAck(messageId: string, denyUntil: I64)
    | Unavailable

  function Respond(q: Request, w: Waited): Response {
    match w
    case Answered(_, Acked(ack)) =>
      if ack.Refusal? || ack.denyUntil != q.denyUntil then Unavailable
      else Done(ack.outcome, ack.denyUntil, ack.affected, ack.released)
    case TimedOut(id) => if id != "" then PendingRelayAck(id, q.denyUntil) else Unavailable
    case _ => Unavailable
  }

  /** The run up to the moment the call returns: it has made the command and enqueued it, then others moved. */
  function During(es: seq<Event>, c: Revocation, io: Persist, more: seq<Event>): seq<Event> {
    es + [Enqueued([c], io)] + more
  }

  /** The call gets as far as waiting: an ID was made, the command is valid and its enqueue succeeds. */
  ghost predicate Waits(es: seq<Event>, q: Request, id: Option<string>, io: Persist) {
    && id.Some? && ValidRevocation(NewCommand(q, id.value))
    && Enqueue(Run(START, es).box, [NewCommand(q, id.value)], io).1.None?
  }

  /** How `revokeServiceAdmission`, called after `es`, may come back: without a message ID when no ID could be made, the
      command is malformed or the enqueue fails; otherwise, in the same process, with what its slot holds,
      or because its context ended. */
  ghost predicate Returns(es: seq<Event>, q: Request, id: Option<string>, io: Persist, more: seq<Event>, w: Waited) {
    && Run(START, es).up && (id.Some? ==> Fresh(Run(START, es), [NewCommand(q, id.value)]))
    && (forall e :: e in more ==> !e.Crash?)
    && if !Waits(es, q, id, io) then w == NotQueued
       else
         var slots := Run(START, During(es, NewCommand(q, id.value), io, more)).box.results;
         || (id.value in slots && w == Answered(id.value, slots[id.value]))
         || w == TimedOut(id.value) || w == Cancelled(id.value)
  }

  lemma WaitingIsAccepted(es: seq<Event>, q: Request, id: Option<string>, io: Persist, more: seq<Event>)
    requires Run(START, es).up && Waits(es, q, id, io) && Fresh(Run(START, es), [NewCommand(q, id.value)])
    ensures var c := NewCommand(q, id.value); var h := Run(START, During(es, c, io, more)).hist;
      && id.value in h.accepted && id.value in h.created && h.created[id.value] == c
      && Repeats(c, id.value, q.channelId, q.serviceId, q.grantIdHash, q.reason, q.denyUntil)
  {
    var c := NewCommand(q, id.value);
    RunLast(START, es, Enqueued([c], io));
    EnqueuedAlone(Run(START, es), c, io);
    RunGrows(es + [Enqueued([c], io)], more);
    hide Run, Enqueue, Step, Fresh, ValidRevocation;
  }

  lemma EnqueuedAlone(w: World, c: Revocation, io: Persist)
    requires w.up && Fresh(w, [c]) && Enqueue(w.box, [c], io).1.None?
    ensures var h := Step(w, Enqueued([c], io)).hist;
      c.messageId in h.accepted && c.messageId in h.created && h.created[c.messageId] == c
  {
    assert [c][..0] == [];
    hide Enqueue;
  }

  /** The answer says how the call went: "done" iff an acknowledgement was in its slot, and then the acknowledgement is the
      command's own, so the deadline mismatch branch is dead; "pending" iff the wait ended with the command queued. */
  lemma AnswerMeaning(es: seq<Event>, q: Request, id: Option<string>, io: Persist, more: seq<Event>, w: Waited)
    requires Returns(es, q, id, io, more, w)
    ensures Respond(q, w).Done? <==> w.Answered? && w.result.Acked?
    ensures w.Answered? && w.result.Acked? ==>
      var a := w.result.ack;
      && a.Ack? && Some(a.inReplyTo) == id && a in Run(START, During(es, NewCommand(q, id.value), io, more)).hist.heard
      && Respond(q, w) == Done(a.outcome, q.denyUntil, a.affected, a.released)
    ensures Respond(q, w).PendingRelayAck? <==> w.TimedOut? && Waits(es, q, id, io)
    ensures Respond(q, w).PendingRelayAck? ==> Respond(q, w) == PendingRelayAck(id.value, q.denyUntil)
    ensures Respond(q, w).Done? || Respond(q, w).PendingRelayAck? ==>
      var h := Run(START, During(es, NewCommand(q, id.value), io, more)).hist;
      id.value in h.accepted && id.value in h.created
      && Repeats(h.created[id.value], id.value, q.channelId, q.serviceId, q.grantIdHash, q.reason, q.denyUntil)
  {
    if Waits(es, q, id, io) {
      WaitingIsAccepted(es, q, id, io, more);
      ValidIdIsNotEmpty(NewCommand(q, id.value));
      if w.Answered? && w.result.Acked? {
        AcknowledgementIsOwn(During(es, NewCommand(q, id.value), io, more), id.value);
      }
    }
    hide Run, Waits, Fresh, During;
  }

  lemma ValidIdIsNotEmpty(c: Revocation)
    requires ValidRevocation(c)
    ensures c.messageId != ""
  {}

  /** "Pending" is honest: behind it the command was durably queued, so from the answer on, through crashes and restarts,
      it is durable, has been answered, or has been seen to be past its deadline. */
  lemma PendingIsDurable(es: seq<Event>, q: Request, id: Option<string>, io: Persist, more: seq<Event>, w: Waited,
                         later: seq<Event>)
    requires Returns(es, q, id, io, more, w) && Respond(q, w).PendingRelayAck?
    ensures id.Some? && exists c :: (Repeats(c, id.value, q.channelId, q.serviceId, q.grantIdHash, q.reason, q.denyUntil)
      && Kept(Run(START, During(es, NewCommand(q, id.value), io, more) + later), c))
  {
    AnswerMeaning(es, q, id, io, more, w);
    WaitingIsAccepted(es, q, id, io, more);
    Durability(During(es, NewCommand(q, id.value), io, more), later, id.value);
    hide Run, Kept, Waits, Fresh, During, ValidRevocation;
  }

  /** A request the endpoint has accepted, once it has an ID, is queued unless the queue is full or the write fails. */
  lemma AcceptedRequestIsQueued(es: seq<Event>, q: Request, now: nat, issued: map<string, IssuedGrant>, id: string, io: Persist)
    requires Acceptable(q, now, issued) && ValidMessageId(id) && Fresh(Run(START, es), [NewCommand(q, id)])
    ensures Waits(es, q, Some(id), io) <==> |Run(START, es).box.pending| < MAX_PENDING && io.Committed?
  {
    RunKeepsInv(es);
    AcceptedRequestIsValidCommand(q, now, issued, id);
    FreshIsNotPending(Run(START, es), NewCommand(q, id));
    hide Inv, Fresh, Run, ValidRevocation, Acceptable;
    EnqueuesAlone(Run(START, es).box, NewCommand(q, id), io);
  }

  lemma FreshIsNotPending(w: World, c: Revocation)
    requires QueueInv(w) && Fresh(w, [c])
    ensures c.messageId !in w.box.pending
  {
    hide ValidPending;
    assert [c][0].messageId !in w.hist.created;
  }

  lemma EnqueuesAlone(b: Box, c: Revocation, io: Persist)
    requires ValidRevocation(c) && c.messageId !in b.pending
    ensures Enqueue(b, [c], io).1.None? <==> |b.pending| < MAX_PENDING && io.Committed?
  {
    hide ValidRevocation, AddAll, Ids;
    NoFaultMeansSound(b.pending, [c]);
    hide BatchFault;
  }
}
