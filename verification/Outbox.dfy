/** The pending-command queue of the Private Control Link client, mirrored by the durable store.
    The functions say what each operation does to the queue; the class does it step by step. */
module Outbox {
  import opened Wrappers
  import opened Sorting
  import opened Commands
  import opened CommandStores

  datatype Failure = RelayRefused(code: string) | DeadlineElapsed

  datatype CommandResult = Acked(ack: Reply) | Failed(cause: Failure)

  /** The queue and the file behind it. `results` holds the filled one-slot result channels,
      `token` is the one-slot wake-up channel. */
  datatype Box = Box(pending: Pending, token: bool, results: map<string, CommandResult>, disk: Pending)

  datatype EnqueueError = QueueFull | InvalidCommand | AlreadyPending | DuplicateInBatch | NotPersisted

  datatype Completion = NotPending | CompletionNotPersisted | Completed

  // Enqueue.

  function AddAll(p: Pending, batch: seq<Revocation>): Pending {
    if batch == [] then p
    else AddAll(p, batch[..|batch| - 1])[batch[|batch| - 1].messageId := batch[|batch| - 1]]
  }

  function Ids(batch: seq<Revocation>): set<string> {
    if batch == [] then {}
    else Ids(batch[..|batch| - 1]) + {batch[|batch| - 1].messageId}
  }

  lemma {:induction false} InIds(batch: seq<Revocation>, id: string)
    ensures id in Ids(batch) <==> exists i :: 0 <= i < |batch| && batch[i].messageId == id
  {
    if batch != [] {
      var init, c := batch[..|batch| - 1], batch[|batch| - 1];
      assert batch == init + [c];
      InIds(init, id);
      if id in Ids(init) {
        var i :| 0 <= i < |init| && init[i].messageId == id;
        assert batch[i].messageId == id;
      }
    }
  }

  /** The first fault of a batch, if any: each command is checked on its own, then against the queue,
      then against the commands before it. */
  function BatchFault(p: Pending, batch: seq<Revocation>): Option<EnqueueError> {
    if batch == [] then None
    else
      var init, c := batch[..|batch| - 1], batch[|batch| - 1];
      var earlier := BatchFault(p, init);
      if earlier.Some? then earlier
      else if !ValidRevocation(c) then Some(EnqueueError.InvalidCommand)
      else if c.messageId in p then Some(AlreadyPending)
      else if c.messageId in Ids(init) then Some(DuplicateInBatch)
      else None
  }

  /** Every command is valid and new to the queue, and no two share a message ID. */
  ghost predicate SoundBatch(p: Pending, batch: seq<Revocation>) {
    && (forall i :: 0 <= i < |batch| ==> ValidRevocation(batch[i]) && batch[i].messageId !in p)
    && (forall i, j :: 0 <= i < j < |batch| ==> batch[i].messageId != batch[j].messageId)
  }

  lemma {:induction false} NoFaultMeansSound(p: Pending, batch: seq<Revocation>)
    ensures BatchFault(p, batch).None? <==> SoundBatch(p, batch)
  {
    hide ValidRevocation;
    if batch != [] {
      var init, c := batch[..|batch| - 1], batch[|batch| - 1];
      NoFaultMeansSound(p, init);
      assert forall i :: 0 <= i < |init| ==> batch[i] == init[i];
      InIds(init, c.messageId);
      if c.messageId in Ids(init) {
        var i :| 0 <= i < |init| && init[i].messageId == c.messageId;
        assert batch[i].messageId == batch[|batch| - 1].messageId;
      }
      assert SoundBatch(p, batch) <==>
        SoundBatch(p, init) && ValidRevocation(c) && c.messageId !in p && c.messageId !in Ids(init);
    }
  }

  function Replace(disk: Pending, candidate: Pending, io: Persist): Pending {
    if io.FailedKeepingOld? then disk else candidate
  }

  function Enqueue(b: Box, batch: seq<Revocation>, io: Persist): (Box, Option<EnqueueError>) {
    if batch == [] then (b, None)
    else if |b.pending| + |batch| > MAX_PENDING then (b, Some(QueueFull))
    else if BatchFault(b.pending, batch).Some? then (b, BatchFault(b.pending, batch))
    else
      var candidate := AddAll(b.pending, batch);
      var disk := Replace(b.disk, candidate, io);
      if io.Committed? then (Box(candidate, true, b.results - Ids(batch), disk), None)
      else (b.(disk := disk, results := b.results - Ids(batch)), Some(NotPersisted))
  }

  // Completion.

  function Complete(b: Box, id: string, result: CommandResult, io: Persist): (Box, Completion) {
    if id !in b.pending then (b, NotPending)
    else
      var candidate := b.pending - {id};
      var disk := Replace(b.disk, candidate, io);
      if !io.Committed? then (b.(disk := disk), CompletionNotPersisted)
      else
        var results := if id in b.results then b.results else b.results[id := result];
        (b.(pending := candidate, results := results, disk := disk), Completed)
  }

  function Acknowledge(b: Box, ack: Reply, io: Persist): (Box, Completion)
    requires ack.Ack?
  {
    if ack.inReplyTo !in b.pending || b.pending[ack.inReplyTo].denyUntil != ack.denyUntil then (b, NotPending)
    else Complete(b, ack.inReplyTo, Acked(ack), io)
  }

  // One command of a sending pass.

  datatype SendOutcome = AlreadySent | Lapsed | Written | PassFailed

  function SendNext(b: Box, sent: set<string>, c: Revocation, clock: int, io: Persist, writeOk: bool): (Box, SendOutcome) {
    if c.messageId in sent then (b, AlreadySent)
    else if c.denyUntil <= clock then
      var (b', completion) := Complete(b, c.messageId, Failed(DeadlineElapsed), io);
      (b', if completion.CompletionNotPersisted? then PassFailed else Lapsed)
    else (b, if writeOk then Written else PassFailed)
  }

  function AfterSend(sent: set<string>, c: Revocation, outcome: SendOutcome): set<string> {
    if outcome.Written? then sent + {c.messageId} else sent
  }

  /** `order` hands out every pending command once. */
  ghost predicate Orders(order: seq<Revocation>, p: Pending) {
    && (forall c :: c in order ==> c.messageId in p && p[c.messageId] == c)
    && (forall id :: id in p ==> p[id] in order)
    && (forall i, j :: 0 <= i < j < |order| ==> order[i].messageId != order[j].messageId)
  }

  /** Where a sending pass stands, and whether it is still going. */
  datatype PassState = PassState(box: Box, sent: set<string>, frames: seq<Revocation>, ok: bool)

  function SendOne(r: PassState, c: Revocation, clock: int, io: Persist, writeOk: bool): PassState {
    if !r.ok then r
    else
      var (box, outcome) := SendNext(r.box, r.sent, c, clock, io, writeOk);
      PassState(box, AfterSend(r.sent, c, outcome), if outcome.Written? then r.frames + [c] else r.frames, !outcome.PassFailed?)
  }

  /** A pass with nobody else at the queue: one command after the other until one cannot be dealt with. `ios` and
      `writes` say how the write to the store and the write to the connection end for each message ID. */
  function Pass(b: Box, sent: set<string>, order: seq<Revocation>, clock: int,
                ios: string -> Persist, writes: string -> bool): PassState {
    if order == [] then PassState(b, sent, [], true)
    else
      var c := order[|order| - 1];
      SendOne(Pass(b, sent, order[..|order| - 1], clock, ios, writes), c, clock, ios(c.messageId), writes(c.messageId))
  }

  // One answer of the Relay.

  datatype Handled = Continue | Invalid | SnapshotRefused | StoreFailed | Unexpected

  const ERROR_CODES: set<string> := {
    "handshake_required", "identity_mismatch", "unsupported_message", "invalid_revocation_target",
    "invalid_revocation_deadline", "unauthorized", "overloaded", "internal_error" }

  predicate ValidReply(r: Reply) {
    match r
    case Ack(_, _, _, _, _) => ValidAck(r)
    case Refusal(id, code) => (id == "" || ValidMessageId(id)) && code in ERROR_CODES
  }

  function AfterCompletion(c: Completion): Handled {
    match c
    case NotPending => Unexpected
    case CompletionNotPersisted => StoreFailed
    case Completed => Continue
  }

  function HandleReply(b: Box, r: Reply, snapshotRequest: string, io: Persist): (Box, Handled) {
    if !ValidReply(r) then (b, Invalid)
    else match r
      case Ack(_, _, _, _, _) =>
        var (b', c) := Acknowledge(b, r, io);
        (b', AfterCompletion(c))
      case Refusal(id, code) =>
        if id == snapshotRequest then (b, SnapshotRefused)
        else if id == "" then (b, Unexpected)
        else
          var (b', c) := Complete(b, id, Failed(RelayRefused(code)), io);
          (b', AfterCompletion(c))
  }

  lemma SoundInit(p: Pending, batch: seq<Revocation>)
    requires batch != [] && SoundBatch(p, batch)
    ensures var init, c := batch[..|batch| - 1], batch[|batch| - 1];
      && SoundBatch(p, init) && c.messageId !in p && c.messageId !in Ids(init)
      && Ids(batch) == Ids(init) + {c.messageId}
  {
    hide ValidRevocation;
    var init, c := batch[..|batch| - 1], batch[|batch| - 1];
    assert batch == init + [c];
    InIds(init, c.messageId);
  }

  lemma {:induction false} AddAllKeys(p: Pending, batch: seq<Revocation>)
    ensures AddAll(p, batch).Keys == p.Keys + Ids(batch)
  {
    if batch != [] {
      AddAllKeys(p, batch[..|batch| - 1]);
    }
  }

  lemma {:induction false} AddAllExtends(p: Pending, batch: seq<Revocation>)
    requires p.Keys !! Ids(batch)
    ensures forall id :: id in p ==> id in AddAll(p, batch) && AddAll(p, batch)[id] == p[id]
  {
    if batch != [] {
      AddAllExtends(p, batch[..|batch| - 1]);
    }
  }

  lemma {:induction false} SoundIds(p: Pending, batch: seq<Revocation>)
    requires SoundBatch(p, batch)
    ensures p.Keys !! Ids(batch) && |Ids(batch)| == |batch|
  {
    if batch != [] {
      SoundInit(p, batch);
      hide SoundBatch;
      SoundIds(p, batch[..|batch| - 1]);
    }
  }

  lemma AddAllHolds(p: Pending, batch: seq<Revocation>)
    requires SoundBatch(p, batch)
    ensures AddAll(p, batch).Keys == p.Keys + Ids(batch) && p.Keys !! Ids(batch)
    ensures AddAll(p, batch) - Ids(batch) == p
  {
    SoundIds(p, batch);
    AddAllKeys(p, batch);
    AddAllExtends(p, batch);
    hide SoundBatch, AddAll, Ids;
    RemovesAdded(p, AddAll(p, batch), Ids(batch));
  }

  lemma RemovesAdded(p: Pending, q: Pending, ids: set<string>)
    requires q.Keys == p.Keys + ids && p.Keys !! ids && forall id :: id in p ==> q[id] == p[id]
    ensures q - ids == p
  {}

  lemma AddAllSize(p: Pending, batch: seq<Revocation>)
    requires SoundBatch(p, batch)
    ensures |AddAll(p, batch)| == |p| + |batch|
  {
    SoundIds(p, batch);
    AddAllKeys(p, batch);
    assert |AddAll(p, batch)| == |AddAll(p, batch).Keys| && |p| == |p.Keys|;
  }

  lemma {:induction false} AddAllContains(p: Pending, batch: seq<Revocation>, i: nat)
    requires i < |batch| && SoundBatch(p, batch)
    ensures batch[i].messageId in AddAll(p, batch) && AddAll(p, batch)[batch[i].messageId] == batch[i]
  {
    SoundInit(p, batch);
    hide SoundBatch;
    var init := batch[..|batch| - 1];
    if i < |batch| - 1 {
      assert init[i] == batch[i];
      assert batch[i].messageId in Ids(init) by { InIds(init, batch[i].messageId); }
      AddAllContains(p, init, i);
    }
  }

  lemma AddAllIsValid(p: Pending, batch: seq<Revocation>)
    requires ValidPending(p) && |p| + |batch| <= MAX_PENDING && SoundBatch(p, batch)
    ensures ValidPending(AddAll(p, batch))
  {
    hide ValidRevocation;
    AddAllHolds(p, batch);
    AddAllSize(p, batch);
    var q := AddAll(p, batch);
    forall id | id in q ensures q[id].messageId == id && ValidRevocation(q[id]) {
      if id in p {
        assert id !in Ids(batch) && q[id] == (q - Ids(batch))[id];
      } else {
        InIds(batch, id);
        var i :| 0 <= i < |batch| && batch[i].messageId == id;
        AddAllContains(p, batch, i);
      }
    }
  }

  lemma CheckedBatchIsSound(p: Pending, batch: seq<Revocation>)
    requires ValidPending(p) && |p| + |batch| <= MAX_PENDING && BatchFault(p, batch).None?
    ensures SoundBatch(p, batch) && ValidPending(AddAll(p, batch))
  {
    NoFaultMeansSound(p, batch);
    AddAllIsValid(p, batch);
  }

  /** An enqueue makes the whole batch pending and durable, or makes nothing pending. */
  lemma EnqueueIsAllOrNothing(b: Box, batch: seq<Revocation>, io: Persist)
    requires ValidPending(b.pending) && batch != []
    ensures var (b', e) := Enqueue(b, batch, io); var candidate := AddAll(b.pending, batch);
      || (e.None? && b' == Box(candidate, true, b.results - Ids(batch), candidate) && ValidPending(candidate))
      || (e.Some? && b' == b)
      || (e.Some? && b' == b.(disk := b'.disk, results := b.results - Ids(batch))
          && b'.disk in {b.disk, candidate} && ValidPending(candidate))
  {
    if |b.pending| + |batch| <= MAX_PENDING && BatchFault(b.pending, batch).None? {
      CheckedBatchIsSound(b.pending, batch);
    }
    hide ValidRevocation, ValidPending, BatchFault, SoundBatch, AddAll, Ids;
  }

  lemma RemoveIsValid(p: Pending, id: string)
    requires ValidPending(p)
    ensures ValidPending(p - {id})
  {
    hide ValidRevocation;
    SubmapSize(p - {id}, p);
  }

  /** A revocation request, as the API or the ACL reload hands it over. */
  datatype Request = Request(channelId: U32, serviceId: string, grantIdHash: string, reason: string, denyUntil: I64)

  function NewCommand(r: Request, id: string): Revocation {
    Revocation(SCHEMA, REVOKE, id, r.channelId, r.serviceId, r.grantIdHash, r.reason, r.denyUntil)
  }

  class PrivateControlClient {
    var pending: Pending
    var results: map<string, CommandResult>
    var commandNotify: bool
    const store: CommandStore

    ghost predicate Valid()
      reads this, store
    {
      store.Valid() && ValidPending(pending)
    }

    ghost function View(): Box
      reads this, store
    {
      Box(pending, commandNotify, results, store.content)
    }

    /** A client over a store that has just been opened. */
    constructor (store: CommandStore, restored: Pending)
      requires store.Valid() && store.content == restored
      ensures Valid() && this.store == store && View() == Box(restored, false, map[], restored)
    {
      this.store := store;
      pending, results, commandNotify := restored, map[], false;
    }

    /** The validation loop of `EnqueuePendingCommands`. */
    method CheckBatch(commands: seq<Revocation>) returns (fault: Option<EnqueueError>)
      ensures fault == BatchFault(pending, commands)
    {
      hide ValidRevocation;
      var seen: set<string> := {};
      for i := 0 to |commands|
        invariant seen == Ids(commands[..i])
        invariant BatchFault(pending, commands[..i]).None?
      {
        var c := commands[i];
        assert commands[..i + 1][..i] == commands[..i];
        if !ValidRevocation(c) || c.messageId in pending || c.messageId in seen {
          FaultStands(pending, commands, i + 1);
          return Some(if !ValidRevocation(c) then EnqueueError.InvalidCommand
                      else if c.messageId in pending then AlreadyPending else DuplicateInBatch);
        }
        seen := seen + {c.messageId};
      }
      assert commands[..|commands|] == commands;
      fault := None;
    }

    /** All commands become pending and durable, or none is pending. */
    method EnqueuePendingCommands(commands: seq<Revocation>, io: Persist) returns (e: Option<EnqueueError>)
      requires Valid()
      modifies this, store
      ensures Valid() && (View(), e) == Enqueue(old(View()), commands, io)
    {
      hide BatchFault, SoundBatch, ValidPending, ValidRevocation, Canonical, Holds;
      if |commands| == 0 { return None; }
      if |pending| + |commands| > MAX_PENDING { return Some(QueueFull); }
      var fault := CheckBatch(commands);
      if fault.Some? { return fault; }
      NoFaultMeansSound(pending, commands);
      AddAllIsValid(pending, commands);
      AddAllHolds(pending, commands);
      for i := 0 to |commands|
        invariant pending == AddAll(old(pending), commands[..i])
        invariant store.Valid() && store.content == old(store.content)
        invariant results == old(results) && commandNotify == old(commandNotify)
      {
        assert commands[..i + 1][..i] == commands[..i];
        pending := pending[commands[i].messageId := commands[i]];
      }
      assert commands[..|commands|] == commands;
      results := results - Ids(commands);
      var ok := store.Persist(pending, io);
      if !ok {
        pending := pending - Ids(commands);
        return Some(NotPersisted);
      }
      commandNotify := true;
      e := None;
    }

    method CompletePendingCommand(id: string, result: CommandResult, io: Persist) returns (c: Completion)
      requires Valid()
      modifies this, store
      ensures Valid() && (View(), c) == Complete(old(View()), id, result, io)
    {
      hide ValidRevocation, ValidPending, Canonical, Holds;
      if id !in pending { return NotPending; }
      var command := pending[id];
      ghost var was := pending;
      RemoveIsValid(pending, id);
      pending := pending - {id};
      var ok := store.Persist(pending, io);
      if !ok {
        pending := pending[id := command];
        assert pending == was;
        return CompletionNotPersisted;
      }
      if id !in results { results := results[id := result]; }
      c := Completed;
    }

    method CompletePendingAcknowledgement(ack: Reply, io: Persist) returns (c: Completion)
      requires Valid() && ack.Ack?
      modifies this, store
      ensures Valid() && (View(), c) == Acknowledge(old(View()), ack, io)
    {
      if ack.inReplyTo !in pending || pending[ack.inReplyTo].denyUntil != ack.denyUntil { return NotPending; }
      c := CompletePendingCommand(ack.inReplyTo, Acked(ack), io);
    }

    method HandleSessionReply(reply: Reply, snapshotRequest: string, io: Persist) returns (h: Handled)
      requires Valid()
      modifies this, store
      ensures Valid() && (View(), h) == HandleReply(old(View()), reply, snapshotRequest, io)
    {
      if !ValidReply(reply) { return Invalid; }
      var c: Completion;
      match reply {
        case Ack(_, _, _, _, _) =>
          c := CompletePendingAcknowledgement(reply, io);
        case Refusal(id, code) =>
          if id == snapshotRequest { return SnapshotRefused; }
          if id == "" { return Unexpected; }
          c := CompletePendingCommand(id, Failed(RelayRefused(code)), io);
      }
      h := AfterCompletion(c);
    }

    /** The pending commands, in the order the map hands them out. */
    method PendingCommands() returns (commands: seq<Revocation>)
      requires Valid()
      ensures Orders(commands, pending)
    {
      hide ValidRevocation;
      commands := Collect(pending);
      forall i, j | 0 <= i < j < |commands| ensures commands[i].messageId != commands[j].messageId {
        assert KeyOf(commands[i]) != KeyOf(commands[j]);
      }
    }

    /** One pass over the pending commands, with nobody else at the queue. */
    method SendPendingCommands(sent: set<string>, clock: int, ios: string -> Persist, writes: string -> bool)
      returns (ok: bool, sent': set<string>, frames: seq<Revocation>, ghost order: seq<Revocation>)
      requires Valid()
      modifies this, store
      ensures Valid() && Orders(order, old(pending))
      ensures PassState(View(), sent', frames, ok) == Pass(old(View()), sent, order, clock, ios, writes)
    {
      hide ValidRevocation, ValidPending, Orders, Complete;
      sent', frames := sent, [];
      var commands := PendingCommands();
      order := commands;
      ghost var start := View();
      for i := 0 to |commands|
        invariant Valid()
        invariant PassState(View(), sent', frames, true) == Pass(start, sent, commands[..i], clock, ios, writes)
      {
        var c := commands[i];
        assert commands[..i + 1][..i] == commands[..i];
        if c.messageId !in sent' {
          if c.denyUntil <= clock {
            var completion := CompletePendingCommand(c.messageId, Failed(DeadlineElapsed), ios(c.messageId));
            if completion.CompletionNotPersisted? {
              FailedPassStands(start, sent, commands, i + 1, clock, ios, writes);
              return false, sent', frames, order;
            }
          } else if !writes(c.messageId) {
            FailedPassStands(start, sent, commands, i + 1, clock, ios, writes);
            return false, sent', frames, order;
          } else {
            frames := frames + [c];
            sent' := sent' + {c.messageId};
          }
        }
      }
      assert commands[..|commands|] == commands;
      ok := true;
    }
  }

  lemma {:induction false} FailedPassStands(b: Box, sent: set<string>, order: seq<Revocation>, n: nat, clock: int,
                                            ios: string -> Persist, writes: string -> bool)
    requires n <= |order| && !Pass(b, sent, order[..n], clock, ios, writes).ok
    ensures Pass(b, sent, order, clock, ios, writes) == Pass(b, sent, order[..n], clock, ios, writes)
    decreases |order|
  {
    if n < |order| {
      assert order[..|order| - 1][..n] == order[..n];
      FailedPassStands(b, sent, order[..|order| - 1], n, clock, ios, writes);
    } else {
      assert order[..n] == order;
    }
  }

  /** What a pass has done to a queue that held `before`: the frames are unsent commands with their deadline ahead,
      each once, now marked sent and still pending; whatever left the queue was unsent and had lapsed. */
  ghost predicate PassResult(before: Pending, after: Pending, sent: set<string>, sent': set<string>,
                             frames: seq<Revocation>, clock: int) {
    && after.Keys <= before.Keys
    && (forall id :: id in after ==> after[id] == before[id])
    && (forall id :: id in before && id !in after ==> id !in sent' && before[id].denyUntil <= clock)
    && DistinctKeys(KeyOf, frames)
    && sent' == sent + Ids(frames) && sent !! Ids(frames)
    && (forall f :: f in frames ==> f.messageId in before && before[f.messageId] == f && f.denyUntil > clock)
  }

  /** Every command dropped by a pass has its deadline result in its own slot; no other slot changes. */
  ghost predicate LapseResults(before: Box, after: Box) {
    && after.results.Keys == before.results.Keys + (before.pending.Keys - after.pending.Keys)
    && (forall id :: id in before.results ==> after.results[id] == before.results[id])
    && (forall id :: id in after.results && id !in before.results ==> after.results[id] == Failed(DeadlineElapsed))
  }

  /** An unsent command that a pass could not deal with: a lapse that did not persist or a write that failed. */
  ghost predicate Hampered(c: Revocation, sent: set<string>, clock: int, ios: string -> Persist, writes: string -> bool) {
    && c.messageId !in sent
    && (if c.denyUntil <= clock then !ios(c.messageId).Committed? else !writes(c.messageId))
  }

  ghost predicate PassInv(start: Box, b: Box, left: set<string>, sent: set<string>, sent': set<string>,
                          frames: seq<Revocation>, clock: int) {
    && PassResult(start.pending, b.pending, sent, sent', frames, clock) && LapseResults(start, b)
    && b.token == start.token && b.disk == (if b.pending == start.pending then start.disk else b.pending)
    && b.pending.Keys <= sent' + left
    && (forall id :: id in start.pending ==> start.pending[id].messageId == id)
  }

  lemma PassBegins(b: Box, sent: set<string>, clock: int)
    requires ValidPending(b.pending)
    ensures PassInv(b, b, b.pending.Keys, sent, sent, [], clock)
  {
    hide ValidRevocation;
    NothingSent(b.pending, sent, clock);
    NothingLapsed(b);
    hide PassResult, LapseResults;
  }

  lemma NothingSent(p: Pending, sent: set<string>, clock: int)
    ensures PassResult(p, p, sent, sent, [], clock)
  {}

  lemma NothingLapsed(b: Box)
    ensures LapseResults(b, b)
  {}

  lemma PassSkips(start: Box, b: Box, left: set<string>, sent: set<string>, sent': set<string>,
                  frames: seq<Revocation>, clock: int, id: string)
    requires PassInv(start, b, left, sent, sent', frames, clock) && id in sent'
    ensures PassInv(start, b, left - {id}, sent, sent', frames, clock)
  {
    hide PassResult, LapseResults;
  }

  lemma PassDrops(start: Box, b: Box, left: set<string>, sent: set<string>, sent': set<string>,
                  frames: seq<Revocation>, clock: int, id: string, io: Persist)
    requires PassInv(start, b, left, sent, sent', frames, clock)
    requires id in start.pending && id !in sent' && start.pending[id].denyUntil <= clock
    ensures var (b', c) := Complete(b, id, Failed(DeadlineElapsed), io);
      && start.pending[id].messageId == id && id !in sent
      && b'.token == start.token
      && PassResult(start.pending, b'.pending, sent, sent', frames, clock) && LapseResults(start, b')
      && (!c.CompletionNotPersisted? ==> PassInv(start, b', left - {id}, sent, sent', frames, clock))
      && (c.CompletionNotPersisted? ==> !io.Committed?)
  {
    var (b', c) := Complete(b, id, Failed(DeadlineElapsed), io);
    assert sent <= sent';
    if c.Completed? {
      DropsOne(start.pending, b.pending, sent, sent', frames, clock, id);
      LapseAgain(start, b, b', id);
      assert id in b.pending && id !in b'.pending;
    }
    hide PassResult, LapseResults;
  }

  lemma DropsOne(before: Pending, p: Pending, sent: set<string>, sent': set<string>,
                 frames: seq<Revocation>, clock: int, id: string)
    requires PassResult(before, p, sent, sent', frames, clock)
    requires id in before && id !in sent' && before[id].denyUntil <= clock
    ensures PassResult(before, p - {id}, sent, sent', frames, clock)
  {}

  lemma LapseAgain(start: Box, before: Box, after: Box, id: string)
    requires LapseResults(start, before) && id in before.pending && before.pending.Keys <= start.pending.Keys
    requires after.pending == before.pending - {id}
    requires after.results == if id in before.results then before.results else before.results[id := Failed(DeadlineElapsed)]
    ensures LapseResults(start, after)
  {}

  lemma PassWrites(start: Box, b: Box, left: set<string>, sent: set<string>, sent': set<string>,
                   frames: seq<Revocation>, clock: int, id: string)
    requires PassInv(start, b, left, sent, sent', frames, clock)
    requires id in start.pending && id !in sent' && start.pending[id].denyUntil > clock
    ensures PassInv(start, b, left - {id}, sent, sent' + {id}, frames + [start.pending[id]], clock)
    ensures id !in sent && start.pending[id].messageId == id
  {
    WritesOne(start.pending, b.pending, sent, sent', frames, clock, start.pending[id]);
    hide PassResult, LapseResults;
  }

  lemma WritesOne(before: Pending, p: Pending, sent: set<string>, sent': set<string>,
                  frames: seq<Revocation>, clock: int, c: Revocation)
    requires PassResult(before, p, sent, sent', frames, clock)
    requires c.messageId in before && before[c.messageId] == c && c.messageId !in sent' && c.denyUntil > clock
    ensures PassResult(before, p, sent, sent' + {c.messageId}, frames + [c], clock) && c.messageId !in sent
  {
    var more := frames + [c];
    assert more[..|more| - 1] == frames;
    assert Ids(more) == Ids(frames) + {c.messageId};
    forall i | 0 <= i < |frames| ensures KeyOf(more[i]) != KeyOf(c) {
      InIds(frames, frames[i].messageId);
    }
    assert forall id :: id in before && id !in p ==> id != c.messageId;
  }

  /** What a pass does, for any order of the queue: the frames and the drops above; it fails only at a hampered
      command, and otherwise everything that is pending is sent and the file follows the queue. */
  lemma PassMeaning(b: Box, sent: set<string>, order: seq<Revocation>, clock: int,
                    ios: string -> Persist, writes: string -> bool)
    requires ValidPending(b.pending) && Orders(order, b.pending)
    ensures var r := Pass(b, sent, order, clock, ios, writes);
      && PassResult(b.pending, r.box.pending, sent, r.sent, r.frames, clock)
      && LapseResults(b, r.box) && r.box.token == b.token
      && (r.ok ==> r.box.pending.Keys <= r.sent && r.box.disk == if r.box.pending == b.pending then b.disk else r.box.pending)
      && (!r.ok ==> exists id :: id in b.pending && Hampered(b.pending[id], sent, clock, ios, writes))
  {
    PassSoFar(b, sent, order, |order|, clock, ios, writes);
    assert order[..|order|] == order;
    forall id | id in b.pending ensures id in Ids(order) {
      OrderedId(order, b.pending, id);
    }
    hide PassResult, LapseResults, Pass, Hampered, Orders, ValidPending;
  }

  lemma OrderedId(order: seq<Revocation>, p: Pending, id: string)
    requires ValidPending(p) && Orders(order, p) && id in p
    ensures id in Ids(order)
  {
    hide ValidRevocation;
    var i :| 0 <= i < |order| && order[i] == p[id];
    InIds(order, id);
  }

  lemma {:induction false} PassSoFar(b: Box, sent: set<string>, order: seq<Revocation>, k: nat, clock: int,
                                     ios: string -> Persist, writes: string -> bool)
    requires ValidPending(b.pending) && Orders(order, b.pending) && k <= |order|
    ensures var r := Pass(b, sent, order[..k], clock, ios, writes);
      && PassResult(b.pending, r.box.pending, sent, r.sent, r.frames, clock)
      && LapseResults(b, r.box) && r.box.token == b.token
      && (r.ok ==> PassInv(b, r.box, b.pending.Keys - Ids(order[..k]), sent, r.sent, r.frames, clock))
      && (!r.ok ==> exists id :: id in b.pending && Hampered(b.pending[id], sent, clock, ios, writes))
  {
    hide PassResult, LapseResults, PassInv, ValidPending, Hampered;
    if k == 0 {
      assert order[..0] == [] && b.pending.Keys - Ids([]) == b.pending.Keys;
      PassBegins(b, sent, clock);
      InvMeansResults(b, b, b.pending.Keys, sent, sent, [], clock);
    } else {
      PassSoFar(b, sent, order, k - 1, clock, ios, writes);
      assert order[..k][..k - 1] == order[..k - 1];
      var before := Pass(b, sent, order[..k - 1], clock, ios, writes);
      if before.ok {
        var c := order[k - 1];
        assert c in order;
        assert b.pending.Keys - Ids(order[..k]) == b.pending.Keys - Ids(order[..k - 1]) - {c.messageId};
        PassAdvances(b, before, b.pending.Keys - Ids(order[..k - 1]), sent, clock, c, ios, writes);
      }
    }
  }

  lemma PassAdvances(b: Box, r: PassState, left: set<string>, sent: set<string>, clock: int, c: Revocation,
                     ios: string -> Persist, writes: string -> bool)
    requires r.ok && PassInv(b, r.box, left, sent, r.sent, r.frames, clock)
    requires c.messageId in b.pending && b.pending[c.messageId] == c
    ensures var r' := SendOne(r, c, clock, ios(c.messageId), writes(c.messageId));
      && PassResult(b.pending, r'.box.pending, sent, r'.sent, r'.frames, clock)
      && LapseResults(b, r'.box) && r'.box.token == b.token
      && (r'.ok ==> PassInv(b, r'.box, left - {c.messageId}, sent, r'.sent, r'.frames, clock))
      && (!r'.ok ==> exists id :: id in b.pending && Hampered(b.pending[id], sent, clock, ios, writes))
  {
    hide PassResult, LapseResults, PassInv, Complete;
    var id := c.messageId;
    InvMeansResults(b, r.box, left, sent, r.sent, r.frames, clock);
    if id in r.sent {
      PassSkips(b, r.box, left, sent, r.sent, r.frames, clock, id);
    } else if c.denyUntil <= clock {
      PassDrops(b, r.box, left, sent, r.sent, r.frames, clock, id, ios(id));
      assert !ios(id).Committed? ==> Hampered(b.pending[id], sent, clock, ios, writes);
    } else {
      PassWrites(b, r.box, left, sent, r.sent, r.frames, clock, id);
      InvMeansResults(b, r.box, left - {id}, sent, r.sent + {id}, r.frames + [c], clock);
      assert !writes(id) ==> Hampered(b.pending[id], sent, clock, ios, writes);
    }
  }

  lemma InvMeansResults(start: Box, b: Box, left: set<string>, sent: set<string>, sent': set<string>,
                        frames: seq<Revocation>, clock: int)
    requires PassInv(start, b, left, sent, sent', frames, clock)
    ensures PassResult(start.pending, b.pending, sent, sent', frames, clock) && LapseResults(start, b) && b.token == start.token
  {}

  lemma {:induction false} FaultStands(p: Pending, batch: seq<Revocation>, n: nat)
    requires n <= |batch| && BatchFault(p, batch[..n]).Some?
    ensures BatchFault(p, batch) == BatchFault(p, batch[..n])
    decreases |batch|
  {
    hide ValidRevocation;
    if n < |batch| {
      assert batch[..|batch| - 1][..n] == batch[..n];
      FaultStands(p, batch[..|batch| - 1], n);
    } else {
      assert batch[..n] == batch;
    }
  }
}
