/** Which replies of the Relay a session takes, read off the reply's own fields. */
module ReplyLaws {
  import opened Wrappers
  import opened Commands
  import opened CommandStores
  import opened Outbox
  import opened Worlds
  import opened Guarantees
  import opened Base64Url
  import opened Fields

  ghost predicate ListedCode(code: string) {
    || code == "handshake_required" || code == "identity_mismatch" || code == "unsupported_message"
    || code == "invalid_revocation_target" || code == "invalid_revocation_deadline"
    || code == "unauthorized" || code == "overloaded" || code == "internal_error"
  }

  /** The replies that settle a command: an acknowledgement of its own deadline, applied, or already expired without any
      membership affected or talk released; or a refusal with a listed code. */
  ghost predicate Fits(r: Reply, c: Revocation) {
    match r
    case Ack(id, denyUntil, outcome, affected, released) =>
      id == c.messageId && denyUntil == c.denyUntil && (outcome == Applied || (affected == 0 && released == 0))
    case Refusal(id, code) => id == c.messageId && ListedCode(code)
  }

  ghost predicate FitsPending(r: Reply, p: Pending) {
    exists id :: id in p && Fits(r, p[id])
  }

  /** What a caller waiting on the command is told. */
  function Told(r: Reply): CommandResult {
    match r
    case Ack(id, denyUntil, outcome, affected, released) => Acked(Ack(id, denyUntil, outcome, affected, released))
    case Refusal(_, code) => Failed(RelayRefused(code))
  }

  lemma CodesAreListed(code: string)
    ensures code in ERROR_CODES <==> ListedCode(code)
  {}

  lemma FitsMeansSettles(w: World, r: Reply, request: string)
    requires ValidPending(w.box.pending) && request !in w.box.pending
    ensures Settles(w, r, request) <==> FitsPending(r, w.box.pending)
  {
    hide ValidServiceId, ValidGrantIdHash, ValidMessageId, ValidReason, ListedCode;
    var p := w.box.pending;
    if r.Refusal? { CodesAreListed(r.code); }
    if FitsPending(r, p) {
      var id :| id in p && Fits(r, p[id]);
      assert ValidRevocation(p[id]) && p[id].messageId == id;
      PendingIdIsNotEmpty(w, id);
    }
    if r.inReplyTo in p {
      assert ValidRevocation(p[r.inReplyTo]);
      assert Settles(w, r, request) ==> Fits(r, p[r.inReplyTo]);
    }
  }

  /** In any run, whatever the Relay says: the session goes on after a reply iff the reply fits a pending command and the
      write commits. Then exactly that command has left queue and file, and its slot holds the reply; otherwise the
      session has ended with the queue as it was, and a reply that fits nothing has not touched the file. */
  lemma ReplyIsTakenIff(es: seq<Event>, io: Persist)
    requires var s := Run(START, es).session; s.Open? && s.loop.Waiting? && s.replies != []
    ensures var w := Run(START, es); var w' := Run(START, es + [Receive(io)]); var r := w.session.replies[0];
      && (w'.session.Open? <==> FitsPending(r, w.box.pending) && io.Committed?)
      && (w'.session.Open? ==>
            && w'.box.pending == w.box.pending - {r.inReplyTo} == w'.box.disk
            && w'.box.results == w.box.results[r.inReplyTo := Told(r)] && w'.session.frames == w.session.frames)
      && (!w'.session.Open? ==> w'.box.pending == w.box.pending)
      && (!FitsPending(r, w.box.pending) ==> w'.box == w.box)
  {
    RunKeepsInv(es);
    RunLast(START, es, Receive(io));
    hide Run, Step, Inv, FitsPending;
    ReplyStep(Run(START, es), io);
  }

  lemma ReplyStep(w: World, io: Persist)
    requires Inv(w) && w.session.Open? && w.session.loop.Waiting? && w.session.replies != []
    ensures var w' := Step(w, Receive(io)); var r := w.session.replies[0];
      && (w'.session.Open? <==> FitsPending(r, w.box.pending) && io.Committed?)
      && (w'.session.Open? ==>
            && w'.box.pending == w.box.pending - {r.inReplyTo} == w'.box.disk
            && w'.box.results == w.box.results[r.inReplyTo := Told(r)] && w'.session.frames == w.session.frames)
      && (!w'.session.Open? ==> w'.box.pending == w.box.pending)
      && (!FitsPending(r, w.box.pending) ==> w'.box == w.box)
  {
    hide ValidPending, Step, FitsPending, Settles, DurableInv, HeardInv, WakeInv, AgreementInv, SlotsInv;
    FitsMeansSettles(w, w.session.replies[0], w.session.snapshotRequest);
    if FitsPending(w.session.replies[0], w.box.pending) {
      FitGoesOn(w, io);
    } else {
      MisfitEndsSession(w, io);
    }
  }

  lemma FitGoesOn(w: World, io: Persist)
    requires SlotsInv(w) && Enabled(w, Receive(io)) && Settles(w, w.session.replies[0], w.session.snapshotRequest)
    ensures var w' := Step(w, Receive(io)); var r := w.session.replies[0];
      && (w'.session.Open? <==> io.Committed?)
      && (w'.session.Open? ==>
            && w'.box.pending == w.box.pending - {r.inReplyTo} == w'.box.disk
            && w'.box.results == w.box.results[r.inReplyTo := Told(r)] && w'.session.frames == w.session.frames)
      && (!w'.session.Open? ==> w'.box.pending == w.box.pending)
  {
    ReceiveCompletes(w, io);
    hide HandleReply, Settles;
  }

  lemma MisfitEndsSession(w: World, io: Persist)
    requires Enabled(w, Receive(io)) && !Settles(w, w.session.replies[0], w.session.snapshotRequest)
    ensures var w' := Step(w, Receive(io)); w'.session.Closed? && w'.box == w.box
  {
    ReplyOutcome(w, w.session.replies[0], w.session.snapshotRequest, io);
    hide HandleReply, Settles;
  }

  /** A reply that is well formed on its own, whatever is pending. */
  ghost predicate WellFormedReply(r: Reply) {
    match r
    case Ack(id, denyUntil, outcome, affected, released) =>
      EncodesBytes(id, 16) && denyUntil >= 1 && (outcome == Applied || (affected == 0 && released == 0))
    case Refusal(id, code) => (id == "" || EncodesBytes(id, 16)) && ListedCode(code)
  }

  lemma WellFormedIff(r: Reply)
    ensures ValidReply(r) <==> WellFormedReply(r)
  {
    MessageIdIff(r.inReplyTo);
    if r.Refusal? { CodesAreListed(r.code); }
    hide ValidMessageId, Encode, ListedCode;
  }

  /** Why a session ends: the reply is malformed; it refuses the snapshot; the file cannot be written; or it is well formed
      and fits nothing. */
  lemma WhyItEnds(b: Box, r: Reply, request: string, io: Persist)
    requires ValidPending(b.pending) && request !in b.pending
    ensures var h := HandleReply(b, r, request, io).1;
      h == (if !WellFormedReply(r) then Invalid
            else if r.Refusal? && r.inReplyTo == request then SnapshotRefused
            else if !FitsPending(r, b.pending) then Unexpected
            else if io.Committed? then Continue else StoreFailed)
  {
    WellFormedIff(r);
    var w := START.(box := b);
    FitsMeansSettles(w, r, request);
    assert "" !in b.pending by { if "" in b.pending { PendingIdIsNotEmpty(w, ""); } }
    hide WellFormedReply, FitsPending, ValidReply, ValidPending;
    Handles(b, r, request, io);
  }

  lemma Handles(b: Box, r: Reply, request: string, io: Persist)
    requires request !in b.pending && "" !in b.pending
    ensures var h := HandleReply(b, r, request, io).1;
      h == (if !ValidReply(r) then Invalid
            else if r.Refusal? && r.inReplyTo == request then SnapshotRefused
            else if !Settles(START.(box := b), r, request) then Unexpected
            else if io.Committed? then Continue else StoreFailed)
  {
    hide ValidReply;
  }
}
